/** A log region of fewer than LOGSIZE blocks: two processes that pass log_write's size test
    together, and the commit that follows, overwrite the block behind the region before
    anything is committed. A crash then finds that block changed. */
module JournalOverrun {
  import opened Common
  import opened Blocks
  import opened Journal
  import opened JournalTheorems
  import opened JournalRace
  import opened JournalCode

  const SPARE: nat := 29    // a buffer no transaction of fewer than NBUF blocks needs

  /** As many home blocks as the region has, none of them the one behind it. */
  ghost predicate Victims(c: Config, h: seq<nat>) {
    && Enough(c, h) && |h| == c.size < LOGSIZE && c.start + c.size < |c.base|
    && c.start + c.size !in h
  }

  predicate Waiting(x: Buf, b: nat) {
    x.dev == ROOTDEV && x.blockno == b && x.valid && x.dirty && x.users == {} && x.holder == None
  }

  /** The buffers while write_log has copied k blocks: the transaction's in the first, the
      last one copied in the spare one. */
  ghost predicate Cache(c: Config, h: seq<nat>, bufs: seq<Buf>, k: nat) {
    && |h| <= SPARE && |bufs| == NBUF
    && (forall j | 0 <= j < |h| :: Waiting(bufs[j], h[j]))
    && (forall j | |h| <= j < SPARE :: bufs[j].dev == 0)
    && bufs[SPARE].users == {} && bufs[SPARE].holder == None && !bufs[SPARE].dirty
    && (bufs[SPARE].dev == ROOTDEV ==> c.start < bufs[SPARE].blockno < c.start + 1 + k)
  }

  /** write_log has copied k blocks; data is what the last block of the transaction holds. */
  ghost predicate Copying(c: Config, h: seq<nat>, s: State, k: nat, data: Block) {
    && UntestedReachable(c, s) && s.phase == Copy(k) && s.lh == h && s.owner == 2 && !s.booting && s.durable == 0
    && s.touched == {} && Cache(c, h, s.bufs, k) && 0 < |h| && s.bufs[|h| - 1].data == data
    && |s.disk| == |c.base| && c.start < |c.base| && s.disk[c.start] == c.base[c.start]
    && (k == |h| ==> c.start + k < |s.disk| && s.disk[c.start + k] == data)
  }

  /** bread of a block that is in a buffer nobody uses. */
  lemma Find(c: Config, s: State, p: Pid, i: nat, b: nat)
    requires UntestedReachable(c, s) && MayRun(s, p) && i < |s.bufs| && Cached(s, i, b) && s.bufs[i].users == {}
    requires s.bufs[i].holder == None
    ensures UntestedReachable(c, s.(bufs := s.bufs[i := s.bufs[i].(users := {p}, holder := Some(p))]))
  {
    var s1 := DoHit(s, p, i);
    UntestedStep(c, s, Hit(p, i, b), s1);
    var s2 := DoLock(s1, p, i);
    UntestedStep(c, s1, Lock(p, i), s2);
    assert {} + {p} == {p};
    assert s2.bufs == s.bufs[i := s.bufs[i].(users := {p}, holder := Some(p))];
  }

  lemma NextFree(c: Config, h: seq<nat>, s: State, k: nat, data: Block, b: nat)
    requires Victims(c, h) && Copying(c, h, s, k, data) && k < |h| && b == c.start + 1 + k
    ensures forall j | 0 <= j < |s.bufs| :: !Cached(s, j, b)
  {
    forall j | 0 <= j < |s.bufs|
      ensures !Cached(s, j, b)
    {
      if j < |h| { assert Waiting(s.bufs[j], h[j]) && Home(c, h[j]) && h[j] in h; }
    }
  }

  /** The copy itself, with both buffers locked. */
  lemma CopyLocked(c: Config, s: State, k: nat) returns (t: State)
    requires UntestedReachable(c, s) && CanCopy(c, s, SPARE, k) && s.phase == Copy(k) && k < SPARE && s.touched == {}
    requires |s.bufs| == NBUF
    requires s.bufs[k].holder == Some(s.owner) && s.bufs[SPARE].holder == Some(s.owner)
    requires s.bufs[k].users == {s.owner} && s.bufs[SPARE].users == {s.owner} && !s.bufs[SPARE].dirty
    ensures UntestedReachable(c, t) && c.start + 1 + k < |s.disk|
    ensures t == s.(phase := Copy(k + 1), disk := s.disk[c.start + 1 + k := s.bufs[k].data],
                    bufs := s.bufs[SPARE := s.bufs[SPARE].(data := s.bufs[k].data, users := {}, holder := None)]
                                  [k := s.bufs[k].(users := {}, holder := None)])
  {
    var s1 := DoCopy(c, s, SPARE, k);
    UntestedStep(c, s, CopyBlock(SPARE, k), s1);
    Release(c, s1, s.owner, SPARE);
    var s2 := s1.(bufs := s1.bufs[SPARE := s1.bufs[SPARE].(users := {}, holder := None)]);
    Release(c, s2, s.owner, k);
    t := s2.(bufs := s2.bufs[k := s2.bufs[k].(users := {}, holder := None)]);
  }

  lemma RoundHolds(c: Config, h: seq<nat>, s: State, k: nat, k': nat, data: Block, t: State)
    requires Victims(c, h) && Copying(c, h, s, k, data) && k < |h| && k' == k + 1 && UntestedReachable(c, t)
    requires |t.bufs| == NBUF
    requires t == s.(phase := Copy(k'), disk := s.disk[c.start + k' := s.bufs[k].data],
      bufs := s.bufs[SPARE := t.bufs[SPARE]])
    requires t.bufs[SPARE] == Buf(ROOTDEV, c.start + k', true, false, {}, None, s.bufs[k].data)
    ensures Copying(c, h, t, k', data)
  {
  }

  /** One round of write_log. */
  lemma CopyRound(c: Config, h: seq<nat>, s: State, k: nat, k': nat, data: Block) returns (t: State)
    requires Victims(c, h) && Copying(c, h, s, k, data) && k < |h| && k' == k + 1
    ensures Copying(c, h, t, k', data)
  {
    var b := c.start + 1 + k;
    NextFree(c, h, s, k, data, b);
    assert Waiting(s.bufs[k], h[k]);
    t := ReadAndCopy(c, s, k, h[k], b);
    RoundHolds(c, h, s, k, k', data, t);
  }

  lemma ReadAndCopy(c: Config, s: State, k: nat, home: nat, b: nat) returns (t: State)
    requires UntestedReachable(c, s) && s.phase == Copy(k) && k < |s.lh| && s.lh[k] == home && s.owner == 2
    requires !s.booting
    requires s.touched == {}
    requires |s.bufs| == NBUF && k < SPARE && Waiting(s.bufs[k], home) && b == c.start + 1 + k < |c.base| == |s.disk|
    requires s.bufs[SPARE].users == {} && s.bufs[SPARE].holder == None && !s.bufs[SPARE].dirty
    requires forall j | 0 <= j < |s.bufs| :: !Cached(s, j, b)
    ensures UntestedReachable(c, t)
    ensures t == s.(phase := Copy(k + 1), disk := s.disk[b := s.bufs[k].data],
                    bufs := s.bufs[SPARE := Buf(ROOTDEV, b, true, false, {}, None, s.bufs[k].data)])
  {
    Load(c, s, 2, SPARE, b);
    var s1 := s.(bufs := s.bufs[SPARE := LoadedBuf(s.disk, 2, b)]);
    Find(c, s1, 2, k, home);
    var s2 := s1.(bufs := s1.bufs[k := s1.bufs[k].(users := {2}, holder := Some(2))]);
    t := CopyLocked(c, s2, k);
    assert t.bufs == s.bufs[SPARE := Buf(ROOTDEV, b, true, false, {}, None, s.bufs[k].data)];
  }

  lemma {:induction false} CopyRounds(c: Config, h: seq<nat>, s: State, k: nat, data: Block) returns (t: State)
    requires Victims(c, h) && Copying(c, h, s, k, data) && k <= |h|
    ensures Copying(c, h, t, |h|, data)
    decreases |h| - k
  {
    if k == |h| {
      t := s;
    } else {
      t := CopyRound(c, h, s, k, k + 1, data);
      t := CopyRounds(c, h, t, k + 1, data);
    }
  }

  // ---- the race ----------------------------------------------------------

  /** A block that differs from b. */
  function Other(b: Block): (r: Block)
    ensures r != b
  {
    var r := b[0 := if b[0] == 0 then 1 else 0];
    assert r[0] != b[0];
    r
  }

  lemma Edited(c: Config, s: State, p: Pid, i: nat, data: Block)
    requires UntestedReachable(c, s) && CanEdit(c, s, p, i)
    ensures UntestedReachable(c, DoEdit(s, i, data))
  {
    UntestedStep(c, s, Edit(p, i, data), DoEdit(s, i, data));
  }

  /** Two processes have read the last two blocks, and the second has changed its one. */
  lemma LastLoaded(c: Config, h: seq<nat>, n: nat, ops: map<Pid, Op>, ws: seq<Write>, q: Pid, r: Pid,
                   data: Block) returns (t: State)
    requires Victims(c, h) && n + 2 == |h| && UntestedReachable(c, Filled(c, h, n, ops, ws)) && r in ops
    ensures UntestedReachable(c, t)
    ensures t == Filled(c, h, n, ops, ws).(touched := {n + 1},
      bufs := PinnedBufs(c, h, n)[n := LoadedBuf(c.base, q, h[n])]
                                 [n + 1 := LoadedBuf(c.base, r, h[n + 1]).(data := data)])
  {
    var s0 := Filled(c, h, n, ops, ws);
    NotCached(c, h, n, ops, ws, h[n]);
    NotCached(c, h, n, ops, ws, h[n + 1]);
    Load(c, s0, q, n, h[n]);
    var s1 := s0.(bufs := s0.bufs[n := LoadedBuf(c.base, q, h[n])]);
    Load(c, s1, r, n + 1, h[n + 1]);
    var s2 := s1.(bufs := s1.bufs[n + 1 := LoadedBuf(c.base, r, h[n + 1])]);
    Edited(c, s2, r, n + 1, data);
    t := DoEdit(s2, n + 1, data);
    assert {} + {n + 1} == {n + 1};
  }

  /** brelse of two buffers. */
  lemma BothRelease(c: Config, s: State, q: Pid, i: nat, r: Pid, j: nat) returns (t: State)
    requires UntestedReachable(c, s) && i < |s.bufs| && j < |s.bufs| && i != j && s.touched == {}
    requires s.bufs[i].holder == Some(q) && s.bufs[i].users == {q} && s.bufs[j].holder == Some(r)
    requires s.bufs[j].users == {r}
    ensures UntestedReachable(c, t)
    ensures t == s.(bufs := s.bufs[i := s.bufs[i].(users := {}, holder := None)]
                                  [j := s.bufs[j].(users := {}, holder := None)])
  {
    Release(c, s, q, i);
    var s1 := s.(bufs := s.bufs[i := s.bufs[i].(users := {}, holder := None)]);
    Release(c, s1, r, j);
    t := s1.(bufs := s1.bufs[j := s1.bufs[j].(users := {}, holder := None)]);
  }

  lemma CacheStart(c: Config, h: seq<nat>, n: nat, x: Buf, y: Buf)
    requires Victims(c, h) && n + 2 == |h| && Waiting(x, h[n]) && Waiting(y, h[n + 1])
    ensures Cache(c, h, PinnedBufs(c, h, n)[n := x][n + 1 := y], 0)
  {
  }

  /** The last two entries, made by processes that both found one place free. */
  lemma LastTwo(c: Config, h: seq<nat>, n: nat, ops: map<Pid, Op>, ws: seq<Write>, data: Block) returns (t: State)
    requires Victims(c, h) && n + 2 == |h| && Dealt(ops, n) && UntestedReachable(c, Filled(c, h, n, ops, ws))
    ensures UntestedReachable(c, t) && t.lh == h && t.ops.Keys == {0, 1, 2}
    ensures (forall q | q in t.ops :: !t.ops[q].checked)
    ensures t.phase == Idle && !t.booting && t.durable == 0 && t.touched == {} && t.disk == c.base
    ensures Cache(c, h, t.bufs, 0) && t.bufs[|h| - 1].data == data
  {
    var q := Turn(ops, n);
    var r := Another(ops, n, q);
    var s := LastLoaded(c, h, n, ops, ws, q, r, data);
    var s1 := BothAppend(c, s, q, n, r, n + 1);
    NoneTouched(n);
    t := BothRelease(c, s1, q, n, r, n + 1);
    LastOfTwo(h, n);
    CacheStart(c, h, n, t.bufs[n], t.bufs[n + 1]);
    PutTwo(PinnedBufs(c, h, n), s.bufs, s1.bufs, t.bufs, n);
  }

  lemma NoneTouched(n: nat)
    ensures {n + 1} - {n} - {n + 1} == {}
  {
  }

  lemma LastOfTwo(h: seq<nat>, n: nat)
    requires n + 2 == |h|
    ensures h == h[..n] + [h[n], h[n + 1]]
  {
  }

  /** Only buffers n and n + 1 change from a to d. */
  lemma PutTwo(a: seq<Buf>, b: seq<Buf>, c: seq<Buf>, d: seq<Buf>, n: nat)
    requires n + 1 < |a| == |b| == |c| == |d|
    requires b == a[n := b[n]][n + 1 := b[n + 1]] && c == b[n := c[n]][n + 1 := c[n + 1]]
    requires d == c[n := d[n]][n + 1 := d[n + 1]]
    ensures d == a[n := d[n]][n + 1 := d[n + 1]]
  {
  }

  /** The run: race, commit, and the block behind the region is gone before anything is durable. */
  lemma Overrun(c: Config, h: seq<nat>) returns (s: State)
    requires Victims(c, h)
    ensures UntestedReachable(c, s) && !CrashAtomic(c, s)
  {
    var b, n := c.start + c.size, |h| - 2;
    var data := Other(c.base[b]);
    var ops, ws := FilledUpTo(c, h, n);
    var t := LastTwo(c, h, n, ops, ws, data);
    t := EndAll(c, t);
    s := CopyRounds(c, h, t, 0, data);
    assert Home(c, b) && s.disk[b] == data;
    assert Head(s.disk[c.start]) == [];
    assert s.writes[..s.durable] == [];
    assert RecoveredAt(c, s.disk, b) == data;
  }

  /** Crash atomicity holds of every run of the code exactly when the log region is at least as
      large as mkfs makes it, or too small to log anything. */
  lemma CrashAtomicExactly(c: Config, h: seq<nat>)
    requires ValidConfig(c) && (2 <= c.size < LOGSIZE ==> Victims(c, h))
    ensures (forall s | UntestedReachable(c, s) :: CrashAtomic(c, s)) <==> c.size == 1 || c.size >= LOGSIZE
  {
    if c.size == 1 || c.size >= LOGSIZE {
      forall s | UntestedReachable(c, s) ensures CrashAtomic(c, s) { CodeCrashAtomic(c, s); }
    } else {
      var s := Overrun(c, h);
    }
  }
}
