/** file.c: open files over inodes, and the splitting of a write into log operations. */
module File {
  import opened Blocks
  import opened FsLayout
  import opened FsOwnership
  import opened FsFile
  import opened FsInode
  import opened FsHistory
  import opened Fs

  datatype Kind = FdNone | FdPipe | FdInode

  /** How fileread and filewrite end: handed to a pipe or a device, -1, a panic, or done. */
  datatype Transfer<+T> = Delegated | Failed | Panic | Count(what: T)

  const CHUNK: nat := 1536   // the most one operation writes: three blocks' worth

  class File {
    var typ: Kind
    var readable: bool
    var writable: bool
    var ip: nat
    var off: Uint

    /** One operation of filewrite: the chunk is written at the file's offset, or refused. */
    method WriteOp(fs: Fs, chunk: seq<Byte>) returns (r: Access<nat>)
      requires State(fs.sb, fs.V()).Sound? && ip < |fs.ips| && 0 < |chunk| <= CHUNK
      requires fs.Told()
      modifies fs`disk, fs`ips, fs`ow, fs`logged, fs`tale, fs`ops, this`off
      ensures fs.Told()
      ensures r.Device? <==> old(fs.ips)[ip].typ == T_DEV
      ensures r.Refused? <==>
        old(fs.ips)[ip].typ != T_DEV && (old(off) > old(fs.ips)[ip].size || old(off) + |chunk| > MAXBYTES)
      ensures r.Device? || r.Refused? ==> off == old(off) && fs.V() == old(fs.V()).(logged := fs.logged)
      ensures r.Moved? ==> off == old(off) + |chunk| && Wrote(fs.sb, old(fs.V()), fs.V(), ip, old(off), chunk).Done?
      ensures r.Panicked? ==> FreeSpace(fs.sb, fs.disk).Full?
      ensures !r.Panicked? ==> fs.ops == old(fs.ops) + [|fs.logged|] && |fs.logged| <= MAXOPBLOCKS
    {
      hide History;
      fs.BeginOp();
      ghost var v := fs.V();
      assert State(fs.sb, v).Sound? by { Relogged(fs.sb, old(fs.V()), v); }
      r := fs.Writei(ip, chunk, off);
      if r.Moved? {
        RelogWrote(fs.sb, old(fs.V()), v, fs.V(), ip, off, chunk);
        off := off + r.what;
      }
      if !r.Panicked? { fs.EndOp(); }
    }

    /** How much of the write goes into the next operation: what is left, at most max. */
    static method NextPiece(addr: seq<Byte>, i: nat, ghost k: nat) returns (chunk: seq<Byte>, i': nat)
      requires i < |addr| && i == 1536 * k
      ensures i' == i + |chunk| <= |addr| && chunk == addr[i..i'] && 0 < |chunk| <= CHUNK
      ensures i' < |addr| ==> i' == 1536 * (k + 1)
    {
      var n1 := if |addr| - i > CHUNK then CHUNK else |addr| - i;
      i' := i + n1;
      chunk := addr[i..i'];
    }

    /** filewrite's loop over an inode: i bytes got written. */
    method WriteOps(fs: Fs, addr: seq<Byte>) returns (r: Transfer<nat>, i: nat)
      requires State(fs.sb, fs.V()).Sound? && ip < |fs.ips| && fs.ips[ip].typ != T_DEV
      requires fs.Told()
      modifies fs`disk, fs`ips, fs`ow, fs`logged, fs`tale, fs`ops, this`off
      ensures fs.Told()
      ensures r.Count? || r.Failed? ==>
        off == old(off) + i && Reached(fs.sb, old(fs.V()), fs.V(), ip, old(off), addr, i).Done?
      ensures r.Count? ==> r.what == i == |addr| && (i > 0 ==> Fits(old(fs.ips)[ip].size, old(off), |addr|))
      ensures r.Failed? ==> i < |addr| && i % 1536 == 0 && !Fits(old(fs.ips)[ip].size, old(off), |addr|)
      ensures r.Panic? ==> FreeSpace(fs.sb, fs.disk).Full?
      ensures r.Count? || r.Failed? ==> WithinLimit(old(fs.ops), fs.ops)
      ensures !r.Delegated?
    {
      hide History, Wrote, WithinLimit;
      ghost var v, ops0, off0, k := fs.V(), fs.ops, off, 0;
      i := 0;
      ReachedNone(fs.sb, v, ip, off0, addr);
      LimitNone(ops0);
      while i < |addr|
        invariant i <= |addr| && (i < |addr| ==> i == 1536 * k) && off == off0 + i
        invariant i > 0 ==> Fits(v.ips[ip].size, off0, i)
        invariant Reached(fs.sb, v, fs.V(), ip, off0, addr, i).Done?
        invariant WithinLimit(ops0, fs.ops) && fs.Told()
      {
        ghost var w := fs.V();
        ReachedFacts(fs.sb, v, w, ip, off0, addr, i);
        var chunk, i' := NextPiece(addr, i, k);
        ghost var was := fs.ops;
        var a := WriteOp(fs, chunk);
        if !a.Panicked? { LimitStep(ops0, was, fs.ops, |fs.logged|); }
        match a {
          case Moved(_) =>
            ReachedStep(fs.sb, v, w, fs.V(), ip, off0, addr, i, chunk, i');
            i, k := i', k + 1;
          case Refused =>
            ReachedSame(fs.sb, v, w, fs.V(), ip, off0, addr, i);
            return Failed, i;
          case Panicked => return Panic, i;
        }
      }
      r := Count(i);
    }

    /** filewrite. */
    method Filewrite(fs: Fs, addr: seq<Byte>, n: int) returns (r: Transfer<nat>, ghost done: nat)
      requires State(fs.sb, fs.V()).Sound? && ip < |fs.ips| && n <= |addr|
      requires fs.Told()
      modifies fs`disk, fs`ips, fs`ow, fs`logged, fs`tale, fs`ops, this`off
      ensures fs.Told()
      ensures !writable ==> r.Failed? && done == 0 && off == old(off) && fs.V() == old(fs.V()) && fs.ops == old(fs.ops)
      ensures writable && typ.FdInode? && old(fs.ips)[ip].typ != T_DEV && !r.Panic? ==>
        && (r == if n == 0 || (n > 0 && Fits(old(fs.ips)[ip].size, old(off), n)) then Count(n) else Failed)
        && done <= |addr| && off == old(off) + done
        && Reached(fs.sb, old(fs.V()), fs.V(), ip, old(off), addr, done).Done?
        && (if r.Count? then done == n else done % 1536 == 0 && (n >= 0 ==> done < n))
        && WithinLimit(old(fs.ops), fs.ops)
      ensures r.Panic? && typ.FdInode? ==> FreeSpace(fs.sb, fs.disk).Full?
      ensures writable && typ.FdPipe? ==> r.Delegated?
      ensures writable && typ.FdNone? ==> r.Panic?
      ensures writable && typ.FdInode? && old(fs.ips)[ip].typ == T_DEV ==>
        r == if n > 0 then Delegated else if n == 0 then Count(0) else Failed
      ensures writable && (!typ.FdInode? || old(fs.ips)[ip].typ == T_DEV) ==>
        done == 0 && off == old(off) && fs.V() == old(fs.V()) && fs.ops == old(fs.ops)
    {
      hide History;
      done := 0;
      ReachedNone(fs.sb, fs.V(), ip, off, addr);
      if !writable { return Failed, 0; }
      if typ.FdPipe? { return Delegated, 0; }
      if !typ.FdInode? { return Panic, 0; }
      if n <= 0 { return if n == 0 then Count(0) else Failed, 0; }
      if fs.ips[ip].typ == T_DEV { return Delegated, 0; }
      ghost var v, off0 := fs.V(), off;
      var i;
      r, i := WriteOps(fs, addr[..n]);
      done := i;
      if !r.Panic? { ReachedPrefix(fs.sb, v, fs.V(), ip, off0, addr, n, i); }
    }

    /** fileread. */
    method Fileread(fs: Fs, n: Uint) returns (r: Transfer<seq<Byte>>)
      requires State(fs.sb, fs.V()).Sound? && ip < |fs.ips|
      requires fs.Told()
      modifies fs`disk, fs`ips, fs`ow, fs`logged, fs`tale, this`off
      ensures fs.Told()
      ensures fs.V() == old(fs.V())
      ensures !readable ==> r.Failed?
      ensures readable && typ.FdPipe? ==> r.Delegated?
      ensures readable && typ.FdNone? ==> r.Panic?
      ensures readable && typ.FdInode? && fs.ips[ip].typ == T_DEV ==> r.Delegated?
      ensures !r.Count? ==> off == old(off)
      ensures readable && typ.FdInode? && fs.ips[ip].typ != T_DEV ==>
        (r.Failed? <==> old(off) > fs.ips[ip].size || old(off) + n >= 0x1_0000_0000) && (r.Failed? || r.Count?)
      ensures r.Count? ==>
        && off == (if old(off) + n < fs.ips[ip].size then old(off) + n else fs.ips[ip].size)
        && old(off) <= off && r.what == Content(fs.disk, fs.ips[ip])[old(off)..off]
    {
      hide History;
      if !readable { return Failed; }
      if typ.FdPipe? { return Delegated; }
      if !typ.FdInode? { return Panic; }
      var a := fs.Readi(ip, off, n);
      match a {
        case Device => r := Delegated;
        case Refused => r := Failed;
        case Moved(dst) =>
          off := off + |dst|;
          r := Count(dst);
      }
    }
  }

  /** Does a write of n bytes at off stay within the largest file, with no gap? */
  ghost predicate Fits(size: nat, off: nat, n: int) {
    off <= size && off + n <= MAXBYTES
  }

  /** Each operation from was on logged no more than the log reserves for it. */
  ghost predicate WithinLimit(was: seq<nat>, now: seq<nat>) {
    was <= now && forall k | |was| <= k < |now| :: now[k] <= MAXOPBLOCKS
  }

  lemma LimitNone(ops: seq<nat>)
    ensures WithinLimit(ops, ops)
  {
  }

  lemma LimitStep(was: seq<nat>, now: seq<nat>, next: seq<nat>, n: nat)
    requires WithinLimit(was, now) && next == now + [n] && n <= MAXOPBLOCKS
    ensures WithinLimit(was, next)
  {
  }

  /** The first i bytes of addr got written at off, or nothing did anything yet. */
  ghost function Reached(sb: Superblock, v: View, w: View, ip: nat, off: nat, addr: seq<Byte>, i: nat): Outcome {
    if && State(sb, v).Sound? && i <= |addr|
       && (if i == 0 then w == v.(logged := w.logged) else Wrote(sb, v, w, ip, off, addr[..i]).Done?)
    then Done else Undone
  }

  lemma ReachedNone(sb: Superblock, v: View, ip: nat, off: nat, addr: seq<Byte>)
    requires State(sb, v).Sound?
    ensures Reached(sb, v, v, ip, off, addr, 0).Done?
  {
  }

  lemma ReachedFacts(sb: Superblock, v: View, w: View, ip: nat, off: nat, addr: seq<Byte>, i: nat)
    requires Reached(sb, v, w, ip, off, addr, i).Done? && ip < |v.ips|
    ensures State(sb, w).Sound? && ip < |w.ips| && w.ips[ip].typ == v.ips[ip].typ
    ensures if i == 0 then w.ips[ip].size == v.ips[ip].size else off + i <= w.ips[ip].size
  {
    if i == 0 { Relogged(sb, v, w); }
  }

  lemma ReachedSame(sb: Superblock, v: View, w: View, x: View, ip: nat, off: nat, addr: seq<Byte>, i: nat)
    requires Reached(sb, v, w, ip, off, addr, i).Done? && x == w.(logged := x.logged)
    ensures Reached(sb, v, x, ip, off, addr, i).Done?
  {
    if i > 0 {
      Relogged(sb, w, x);
    }
  }

  lemma ReachedStep(sb: Superblock, v: View, w: View, x: View, ip: nat, off: nat, addr: seq<Byte>, i: nat,
                    chunk: seq<Byte>, i': nat)
    requires Reached(sb, v, w, ip, off, addr, i).Done? && i' == i + |chunk| <= |addr| && chunk == addr[i..i']
    requires 0 < |chunk|
    requires Wrote(sb, w, x, ip, off + i, chunk).Done?
    ensures Reached(sb, v, x, ip, off, addr, i').Done?
  {
    hide Wrote;
    assert addr[..i] + chunk == addr[..i'];
    if i == 0 {
      RelogWrote(sb, v, w, x, ip, off, chunk);
    } else {
      WroteTwice(sb, v, w, x, ip, off, addr[..i], off + i, chunk);
    }
  }

  lemma ReachedPrefix(sb: Superblock, v: View, w: View, ip: nat, off: nat, addr: seq<Byte>, n: nat, i: nat)
    requires n <= |addr| && Reached(sb, v, w, ip, off, addr[..n], i).Done?
    ensures Reached(sb, v, w, ip, off, addr, i).Done?
  {
    assert addr[..n][..i] == addr[..i];
  }

  /** What was logged is no part of the file system's state. */
  lemma Relogged(sb: Superblock, u: View, v: View)
    requires State(sb, u).Sound? && v == u.(logged := v.logged)
    ensures State(sb, v).Sound?
  {
  }

  lemma RelogWrote(sb: Superblock, u: View, v: View, w: View, i: nat, off: nat, src: seq<Byte>)
    requires v == u.(logged := v.logged) && Wrote(sb, v, w, i, off, src).Done?
    ensures Wrote(sb, u, w, i, off, src).Done?
  {
  }
}
