/** log.c, one process at a time: the loops of commit and recovery over the buffer cache.
    Every method moves the protocol state of module Journal by enabled actions only, so
    what holds of all runs there holds at every disk write made here. */
module Log {
  import opened Common
  import opened Blocks
  import opened Journal
  import opened JournalSafety
  import opened JournalTheorems
  import opened BufferCache

  /** No process has a reference to any buffer. */
  predicate Quiescent(s: State) {
    forall i | 0 <= i < |s.bufs| :: s.bufs[i].users == {}
  }

  /** p has no reference to a buffer of block b, and nobody has it locked. */
  predicate Available(s: State, p: Pid, b: nat) {
    forall i | 0 <= i < |s.bufs| && Cached(s, i, b) :: p !in s.bufs[i].users && s.bufs[i].holder == None
  }

  /** p can commit without waiting: it has no reference to any buffer, no pinned buffer is locked,
      and nobody has a reference to a block of the log region, which only log.c reads. Other
      processes may have references to, and locks on, all other buffers. */
  predicate Ready(c: Config, s: State, p: Pid) {
    forall i | 0 <= i < |s.bufs| ::
      && p !in s.bufs[i].users
      && (s.bufs[i].dirty ==> s.bufs[i].holder == None)
      && (s.bufs[i].dev == ROOTDEV && !Home(c, s.bufs[i].blockno) ==> s.bufs[i].users == {})
  }

  /** Some buffer is neither pinned nor referenced. */
  predicate Room(s: State) {
    exists i :: 0 <= i < |s.bufs| && Free(s.bufs[i])
  }

  predicate TwoFree(s: State) {
    exists i, j :: 0 <= i < j < |s.bufs| && Free(s.bufs[i]) && Free(s.bufs[j])
  }

  /** The same buffers are pinned in s and t. */
  predicate SameDirty(s: State, t: State) {
    |s.bufs| == |t.bufs| && forall i | 0 <= i < |s.bufs| :: s.bufs[i].dirty == t.bufs[i].dirty
  }

  /** t pins no buffer that s does not pin. */
  predicate FewerDirty(s: State, t: State) {
    |s.bufs| == |t.bufs| && forall i | 0 <= i < |s.bufs| && t.bufs[i].dirty :: s.bufs[i].dirty
  }

  /** The same processes have references to and locks on the same buffers. */
  predicate SameUse(s: State, t: State) {
    && |s.bufs| == |t.bufs|
    && forall i | 0 <= i < |s.bufs| :: t.bufs[i].users == s.bufs[i].users && t.bufs[i].holder == s.bufs[i].holder
  }

  /** Since s0, p has taken buffer i for block a and nothing else has changed hands. */
  predicate Took(s0: State, s: State, p: Pid, i: nat, a: nat) {
    && i < |s.bufs| == |s0.bufs| && Holds(s, p, i) && Cached(s, i, a)
    && p !in s0.bufs[i].users && s0.bufs[i].holder == None && s.bufs[i].users == s0.bufs[i].users + {p}
  }

  /** Since s0, p has taken buffer i for block a of the log region and buffer j for block b, and
      no other buffer has changed. */
  predicate HasPair(s0: State, s: State, p: Pid, i: nat, a: nat, j: nat, b: nat) {
    && i != j && Took(s0, s, p, i, a) && Took(s0, s, p, j, b) && s0.bufs[i].users == {}
    && forall k | 0 <= k < |s.bufs| && k != i && k != j :: s.bufs[k] == s0.bufs[k]
  }

  /** Writing a buffer to disk changes nothing about who has it. */
  lemma FlushedPair(s0: State, s: State, t: State, p: Pid, i: nat, a: nat, j: nat, b: nat, x: nat)
    requires HasPair(s0, s, p, i, a, j, b) && (x == i || x == j)
    requires |t.bufs| == |s.bufs| && t.bufs == s.bufs[x := s.bufs[x].(data := t.bufs[x].data, dirty := false)]
    ensures HasPair(s0, t, p, i, a, j, b) && FewerDirty(s, t) && (!s.bufs[x].dirty ==> SameDirty(s, t))
  {
  }

  /** Buffers i, for the log region, and j, for a home block, given back. */
  lemma ReadyAgain(c: Config, s0: State, s: State, p: Pid, i: nat, j: nat)
    requires Ready(c, s0, p) && SameUse(s0, s) && FewerDirty(s0, s) && i < |s.bufs| && j < |s.bufs|
    requires s0.bufs[i].users == {} && (j != i ==> Home(c, s.bufs[j].blockno))
    requires forall k | 0 <= k < |s.bufs| && k != i && k != j :: s.bufs[k] == s0.bufs[k]
    ensures Ready(c, s, p)
  {
    forall k | 0 <= k < |s.bufs|
      ensures p !in s.bufs[k].users && (s.bufs[k].dirty ==> s.bufs[k].holder == None)
      ensures s.bufs[k].dev == ROOTDEV && !Home(c, s.bufs[k].blockno) ==> s.bufs[k].users == {}
    {
      assert s0.bufs[k].users == s.bufs[k].users;
    }
  }

  lemma SameReady(c: Config, s: State, t: State, p: Pid)
    requires Ready(c, s, p) && t.bufs == s.bufs
    ensures Ready(c, t, p) && SameUse(s, t) && SameDirty(s, t) && Borrowed(t) == Borrowed(s)
  {
  }

  lemma RoomKept(s: State, t: State)
    requires SameUse(s, t) && FewerDirty(s, t) && Room(s)
    ensures Room(t)
  {
    var i :| 0 <= i < |s.bufs| && Free(s.bufs[i]);
    assert Free(t.bufs[i]);
  }

  lemma SameRoom(s: State, t: State)
    requires SameUse(s, t) && SameDirty(s, t)
    ensures Room(s) <==> Room(t)
  {
    if Room(s) { RoomKept(s, t); }
    if Room(t) { RoomKept(t, s); }
  }

  /** The only operation is p's, p is not inside log_write, and no buffer is in use. */
  predicate Alone(s: State, p: Pid) {
    && !s.booting && s.phase == Idle && Quiescent(s) && s.touched == {}
    && s.ops.Keys == {p} && !s.ops[p].checked
  }

  class Log {
    const c: Config
    const bc: Bcache
    var n: nat              // log.lh.n
    var block: seq<nat>     // log.lh.block
    var outstanding: nat
    var committing: bool
    ghost var st: State
    ghost var boot: Pid
    ghost var acts: seq<Action>

    ghost predicate Valid()
      reads this, bc
    {
      && bc.Valid()
      && Run(c, Initial(c, boot), acts) == Some(st) && ValidConfig(c)
      && st.disk == bc.disk && st.bufs == bc.bufs
      && |block| == LOGSIZE && n <= LOGSIZE && st.lh == block[..n]
      && outstanding == |st.ops| && (committing <==> !st.booting && st.phase != Idle)
    }

    /** Power on with disk d, left behind by the run that led to prev. */
    constructor (c: Config, d: Disk, ghost boot: Pid, ghost acts: seq<Action>, ghost prev: State, me: Pid)
      requires ValidConfig(c) && Run(c, Initial(c, boot), acts) == Some(prev) && prev.disk == d
      requires prev.durable <= |prev.writes|
      ensures Valid() && fresh(bc)
      ensures this.c == c && this.boot == boot && acts <= this.acts
      ensures st == DoCrash(prev, me) && bc.disk == d && Ready(c, st, me)
    {
      CrashRun(c, boot, acts, prev, me);
      this.c := c;
      bc := new Bcache(d);
      n := 0;
      block := seq(LOGSIZE, _ => 0);
      outstanding, committing := 0, false;
      this.boot := boot;
      this.acts := acts + [Crash(me)];
      st := DoCrash(prev, me);
    }

    static lemma CrashRun(c: Config, boot: Pid, acts: seq<Action>, prev: State, me: Pid)
      requires Run(c, Initial(c, boot), acts) == Some(prev) && prev.durable <= |prev.writes|
      ensures Run(c, Initial(c, boot), acts + [Crash(me)]) == Some(DoCrash(prev, me))
    {
      assert (acts + [Crash(me)])[..|acts|] == acts;
    }

    lemma Known()
      requires Valid()
      ensures Reachable(c, st) && Inv(c, st)
    {
      ReachableInv(c, st);
    }

    lemma Unlocked()
      requires Valid()
      ensures |st.bufs| == NBUF && |st.disk| == |c.base|
      ensures forall i: nat | i < NBUF ::
        (st.bufs[i].users == {} ==> st.bufs[i].holder == None) && (st.bufs[i].dirty ==> st.bufs[i].valid)
    {
      Known();
      forall i: nat | i < NBUF
        ensures (st.bufs[i].users == {} ==> st.bufs[i].holder == None) && (st.bufs[i].dirty ==> st.bufs[i].valid)
      {
        assert BufOk(c, st, i);
      }
    }

    /** Record that the code just did a. */
    ghost method Advance(a: Action)
      requires Run(c, Initial(c, boot), acts) == Some(st) && Enabled(c, st, a)
      modifies this`st, this`acts
      ensures Run(c, Initial(c, boot), acts) == Some(st)
      ensures st == Apply(c, old(st), a) && acts == old(acts) + [a]
    {
      assert (acts + [a])[..|acts|] == acts;
      st := Apply(c, st, a);
      acts := acts + [a];
    }

    /** bget: the buffer of block b, locked. None is panic("bget: no buffers"). */
    method BGet(me: Pid, b: nat) returns (r: Option<nat>)
      requires Valid() && MayRun(st, me) && Available(st, me, b) && b < |c.base|
      modifies this`st, this`acts, bc`bufs
      ensures Valid() && old(acts) <= acts
      ensures r.Some? ==>
        && r.value < NBUF && st == old(st).(bufs := old(st).bufs[r.value := st.bufs[r.value]])
        && st.bufs[r.value].holder == Some(me) && Cached(st, r.value, b) && old(st).bufs[r.value].holder == None
        && me !in old(st).bufs[r.value].users && st.bufs[r.value].users == old(st).bufs[r.value].users + {me}
        && st.bufs[r.value].dirty == old(st).bufs[r.value].dirty
        && (old(Cached(st, r.value, b)) || Free(old(st).bufs[r.value]))
      ensures r.None? ==> forall i | 0 <= i < NBUF :: !old(Cached(st, i, b)) && !Free(old(st).bufs[i])
    {
      hide Run, Ring, Recency;
      Unlocked();
      r := bc.BGet(me, b);
      if r.Some? {
        var i := r.value;
        if Cached(st, i, b) {
          RecordHit(me, i, b);
        } else {
          RecordRecycle(me, i, b);
        }
      }
    }

    ghost method RecordHit(me: Pid, i: nat, b: nat)
      requires Run(c, Initial(c, boot), acts) == Some(st) && CanHit(st, me, i, b) && st.bufs[i].holder == None
      requires i < |st.bufs|
      modifies this`st, this`acts
      ensures Run(c, Initial(c, boot), acts) == Some(st) && old(acts) <= acts
      ensures st == old(st).(bufs := old(st).bufs[i :=
        old(st).bufs[i].(users := old(st).bufs[i].users + {me}, holder := Some(me))])
    {
      hide Run;
      Advance(Hit(me, i, b));
      Advance(Lock(me, i));
    }

    ghost method RecordRecycle(me: Pid, i: nat, b: nat)
      requires Run(c, Initial(c, boot), acts) == Some(st) && CanRecycle(c, st, me, i, b) && st.bufs[i].holder == None
      requires i < |st.bufs|
      modifies this`st, this`acts
      ensures Run(c, Initial(c, boot), acts) == Some(st) && old(acts) <= acts
      ensures st == old(st).(bufs := old(st).bufs[i :=
        old(st).bufs[i].(dev := ROOTDEV, blockno := b, valid := false, dirty := false, users := {me},
                         holder := Some(me))])
    {
      hide Run;
      Advance(Recycle(me, i, b));
      Advance(Lock(me, i));
    }

    /** bread */
    method BRead(me: Pid, b: nat) returns (r: Option<nat>)
      requires Valid() && MayRun(st, me) && Available(st, me, b) && b < |c.base|
      modifies this`st, this`acts, bc`bufs
      ensures Valid() && old(acts) <= acts
      ensures r.Some? ==>
        && r.value < NBUF && st == old(st).(bufs := old(st).bufs[r.value := st.bufs[r.value]])
        && Took(old(st), st, me, r.value, b) && st.bufs[r.value].dirty == old(st).bufs[r.value].dirty
        && (old(Cached(st, r.value, b)) || Free(old(st).bufs[r.value]))
      ensures r.None? ==> forall i | 0 <= i < NBUF :: !old(Cached(st, i, b)) && !Free(old(st).bufs[i])
    {
      hide Run, Ring, Recency;
      r := BGet(me, b);
      if r.Some? && !bc.bufs[r.value].valid {
        Unlocked();
        bc.ReadBlock(r.value);
        Advance(ReadIn(me, r.value));
      }
    }

    method BRelse(me: Pid, i: nat)
      requires Valid() && CanUnlock(st, me, i) && i < NBUF && me in st.bufs[i].users
      modifies this`st, this`acts, bc
      ensures Valid() && old(acts) <= acts && bc.disk == old(bc.disk)
      ensures st == old(st).(bufs := old(st).bufs[i :=
        old(st).bufs[i].(users := old(st).bufs[i].users - {me}, holder := None)])
    {
      hide Run, Ring, Recency;
      Advance(Unlock(me, i));
      assert CanPut(st, me, i);
      Advance(Put(me, i));
      bc.BRelse(me, i);
    }

    /** Where the k-th log block and its home block lie. */
    lemma Placed(k: nat)
      requires Valid() && k < n
      ensures |st.bufs| == NBUF && |st.disk| == |c.base| && c.start < |c.base|
      ensures c.start + 1 + k < |c.base| && block[k] < |c.base| && Home(c, block[k])
      ensures c.start <= c.start + 1 + k < c.start + c.size
    {
      Known();
      assert st.lh[k] == block[k];
    }

    /** A block waiting to be written is pinned in the cache. */
    lemma StillPinned(me: Pid, k: nat)
      requires Valid() && k < n && !st.booting && Ready(c, st, me)
      requires st.phase.Copy? || (st.phase.Install? && st.phase.k <= k)
      ensures Pinned(st, block[k]) && Available(st, me, block[k])
    {
      Known();
      LoggedPinned(c, st, k);
      PinnedAvailable(c, st, me, block[k]);
    }

    static lemma PinnedAvailable(c: Config, s: State, p: Pid, b: nat)
      requires Ready(c, s, p) && UniqueKeys(s) && Pinned(s, b)
      ensures Available(s, p, b)
    {
      var i :| 0 <= i < |s.bufs| && Cached(s, i, b) && s.bufs[i].dirty;
      assert forall k | 0 <= k < |s.bufs| && Cached(s, k, b) :: k == i;
    }

    /** No operation is outstanding, so no buffer is being edited. */
    lemma Quieted()
      requires Valid() && st.phase != Idle
      ensures st.touched == {} && |st.disk| == |c.base|
    {
      Known();
      Quiet(c, st);
    }

    /** The two breads each round of write_log and install_trans makes. */
    method ReadPair(me: Pid, logb: nat, homeb: nat) returns (r: Option<(nat, nat)>)
      requires Valid() && Ready(c, st, me) && MayRun(st, me) && Available(st, me, homeb)
      requires logb < |c.base| && !Home(c, logb) && Home(c, homeb)
      modifies this`st, this`acts, bc`bufs
      ensures Valid() && old(acts) <= acts
      ensures r.Some? ==> HasPair(old(st), st, me, r.value.0, logb, r.value.1, homeb)
      ensures r.Some? ==> st == old(st).(bufs := st.bufs) && SameDirty(old(st), st)
      ensures !Room(old(st)) ==> r.None?
      ensures Room(old(st)) && (Pinned(old(st), homeb) || TwoFree(old(st))) ==> r.Some?
    {
      hide Run, Ring, Recency;
      Unlocked();
      ghost var s0 := st;
      LogBlockFree(me, logb);
      var i := BRead(me, logb);
      if i.None? { return None; }
      assert forall k | 0 <= k < NBUF && k != i.value :: st.bufs[k] == s0.bufs[k];
      ghost var s1 := st;
      var j := BRead(me, homeb);
      if j.None? {
        NoSecond(s0, s1, i.value, homeb);
        return None;
      }
      assert forall k | 0 <= k < NBUF && k != j.value :: st.bufs[k] == s1.bufs[k];
      r := Some((i.value, j.value));
    }

    /** A buffer of a block of the log region is free. */
    lemma LogBlockFree(me: Pid, logb: nat)
      requires Valid() && Ready(c, st, me) && !Home(c, logb)
      ensures |st.bufs| == NBUF && Available(st, me, logb)
      ensures forall i | 0 <= i < NBUF && Cached(st, i, logb) :: Free(st.bufs[i])
    {
      Unlocked();
      forall i | 0 <= i < NBUF && Cached(st, i, logb)
        ensures me !in st.bufs[i].users && st.bufs[i].holder == None && Free(st.bufs[i])
      {
        NotPinned(i);
      }
    }

    /** Blocks of the log region are never pinned. */
    lemma NotPinned(i: nat)
      requires Valid() && i < NBUF && |st.bufs| == NBUF && !Home(c, st.bufs[i].blockno)
      ensures !st.bufs[i].dirty
    {
      Known();
      assert BufOk(c, st, i);
    }

    static lemma NoSecond(s0: State, s1: State, i: nat, homeb: nat)
      requires |s0.bufs| == |s1.bufs| == NBUF && i < NBUF && Free(s0.bufs[i])
      requires forall k | 0 <= k < NBUF && k != i :: s1.bufs[k] == s0.bufs[k]
      requires forall k | 0 <= k < NBUF :: !Cached(s1, k, homeb) && !Free(s1.bufs[k])
      ensures !Pinned(s0, homeb) && !TwoFree(s0)
    {
      forall k | 0 <= k < NBUF && k != i
        ensures !Free(s0.bufs[k]) && !Cached(s0, k, homeb)
      {
        assert !Cached(s1, k, homeb) && !Free(s1.bufs[k]);
      }
    }

    /** brelse of both. */
    method ReleasePair(me: Pid, i: nat, a: nat, j: nat, b: nat, ghost s0: State)
      requires Valid() && HasPair(s0, st, me, i, a, j, b) && |st.bufs| == NBUF && st.touched == {}
      requires Ready(c, s0, me) && FewerDirty(s0, st) && Home(c, b)
      modifies this`st, this`acts, bc
      ensures Valid() && old(acts) <= acts && bc.disk == old(bc.disk)
      ensures st == old(st).(bufs := st.bufs) && SameDirty(old(st), st) && SameUse(s0, st) && Ready(c, st, me)
    {
      hide Run, Ring, Recency;
      BRelse(me, i);
      BRelse(me, j);
      ReadyAgain(c, s0, st, me, i, j);
    }

    /** Put data in a held buffer and bwrite it, which is what action a describes. */
    method Flush(me: Pid, i: nat, data: Block, ghost a: Action)
      requires Valid() && Holds(st, me, i) && st.bufs[i].blockno < |st.disk| && |st.bufs| == NBUF
      requires Enabled(c, st, a)
      requires var t := Apply(c, st, a);
        t.disk == DiskWrite(st, i, data).disk && t.bufs == DiskWrite(st, i, data).bufs
        && t.lh == st.lh && t.ops == st.ops && t.booting == st.booting && t.phase != Idle && st.phase != Idle
      modifies this`st, this`acts, bc`bufs, bc`disk
      ensures Valid() && old(acts) <= acts
      ensures st == Apply(c, old(st), a)
    {
      bc.bufs := bc.bufs[i := bc.bufs[i].(data := data)];
      bc.BWrite(me, i);
      Advance(a);
    }

    method FlushCopy(me: Pid, to: nat, from: nat)
      requires Valid() && CanCopy(c, st, to, from) && st.owner == me && |st.bufs| == NBUF
      modifies this`st, this`acts, bc`bufs, bc`disk
      ensures Valid() && old(acts) <= acts
      ensures st == DiskWrite(old(st), to, old(st).bufs[from].data).(phase := Copy(old(st).phase.k + 1))
    {
      Flush(me, to, bc.bufs[from].data, CopyBlock(to, from));
    }

    method FlushInstall(me: Pid, from: nat, to: nat)
      requires Valid() && CanInstall(c, st, from, to) && st.owner == me && |st.bufs| == NBUF
      modifies this`st, this`acts, bc`bufs, bc`disk
      ensures Valid() && old(acts) <= acts
      ensures st == DiskWrite(old(st), to, old(st).bufs[from].data).(phase := Install(old(st).phase.k + 1))
    {
      Flush(me, to, bc.bufs[from].data, InstallBlock(from, to));
    }

    method CopyHeld(me: Pid, tail: nat, to: nat, from: nat, ghost s0: State)
      requires Valid() && st.owner == me && st.phase == Copy(tail) && tail < n
      requires HasPair(s0, st, me, to, c.start + 1 + tail, from, block[tail]) && Ready(c, s0, me) && SameDirty(s0, st)
      modifies this`st, this`acts, bc
      ensures Valid() && old(acts) <= acts
      ensures Ready(c, st, me) && SameUse(s0, st) && SameDirty(s0, st)
      ensures st == old(st).(disk := st.disk, bufs := st.bufs, phase := Copy(tail + 1))
    {
      hide Run, Ring, Recency, Ready;
      Placed(tail);
      CopyWrite(me, tail, to, from, s0);
      ReleasePair(me, to, c.start + 1 + tail, from, block[tail], s0);
    }

    method CopyWrite(me: Pid, tail: nat, to: nat, from: nat, ghost s0: State)
      requires Valid() && st.owner == me && st.phase == Copy(tail) && tail < n
      requires HasPair(s0, st, me, to, c.start + 1 + tail, from, block[tail])
      modifies this`st, this`acts, bc`bufs, bc`disk
      ensures Valid() && old(acts) <= acts && |st.bufs| == NBUF && st.touched == {}
      ensures HasPair(s0, st, me, to, c.start + 1 + tail, from, block[tail]) && SameDirty(old(st), st)
      ensures st == old(st).(disk := st.disk, bufs := st.bufs, phase := Copy(tail + 1))
    {
      hide Run, Ring, Recency, Inv;
      Placed(tail);
      Quieted();
      NotPinned(to);
      assert st.lh[tail] == block[tail];
      CopyOn(me, tail, to, from, s0);
    }

    method CopyOn(me: Pid, tail: nat, to: nat, from: nat, ghost s0: State)
      requires Valid() && st.owner == me && |st.bufs| == NBUF && CanCopy(c, st, to, from) && st.phase == Copy(tail)
      requires !st.bufs[to].dirty && tail < n && HasPair(s0, st, me, to, c.start + 1 + tail, from, block[tail])
      modifies this`st, this`acts, bc`bufs, bc`disk
      ensures Valid() && old(acts) <= acts && |st.bufs| == NBUF
      ensures HasPair(s0, st, me, to, c.start + 1 + tail, from, block[tail]) && SameDirty(old(st), st)
      ensures st == old(st).(disk := st.disk, bufs := st.bufs, phase := Copy(tail + 1))
    {
      hide Run, Ring, Recency, Inv, SameDirty;
      FlushCopy(me, to, from);
      FlushedPair(s0, old(st), st, me, to, c.start + 1 + tail, from, block[tail], to);
    }

    /** One round of write_log: copy a pinned block to its place in the log. */
    method CopyOne(me: Pid, tail: nat) returns (ok: bool)
      requires Valid() && Ready(c, st, me) && !st.booting && st.owner == me
      requires st.phase == Copy(tail) && tail < n
      modifies this`st, this`acts, bc
      ensures Valid() && old(acts) <= acts
      ensures ok <==> Room(old(st))
      ensures ok ==> Ready(c, st, me) && SameUse(old(st), st) && SameDirty(old(st), st)
      ensures ok ==> st == old(st).(disk := st.disk, bufs := st.bufs, phase := Copy(tail + 1))
    {
      hide Run, Ring, Recency, Ready;
      Placed(tail);
      StillPinned(me, tail);
      var pair := ReadPair(me, c.start + 1 + tail, block[tail]);
      if pair.None? { return false; }
      CopyHeld(me, tail, pair.value.0, pair.value.1, old(st));
      ok := true;
    }

    /** write_log */
    method WriteLog(me: Pid) returns (ok: bool)
      requires Valid() && Ready(c, st, me) && !st.booting && st.owner == me
      requires st.phase == Copy(0) && n > 0
      modifies this`st, this`acts, bc
      ensures Valid() && old(acts) <= acts
      ensures ok <==> Room(old(st))
      ensures ok ==> Ready(c, st, me) && SameUse(old(st), st) && SameDirty(old(st), st)
      ensures ok ==> st == old(st).(disk := st.disk, bufs := st.bufs, phase := Copy(n))
    {
      hide Run, Ring, Recency, Ready, Room;
      var tail := 0;
      while tail < n
        invariant tail <= n && Valid() && old(acts) <= acts
        invariant Ready(c, st, me) && SameUse(old(st), st) && SameDirty(old(st), st)
        invariant tail > 0 ==> Room(old(st))
        invariant st == old(st).(disk := st.disk, bufs := st.bufs, phase := Copy(tail))
      {
        SameRoom(old(st), st);
        ok := CopyOne(me, tail);
        if !ok { return; }
        tail := tail + 1;
      }
      ok := true;
    }

    /** write_head's loop: the header's words in a block. */
    static method EncodeHead(hb: Block, h: seq<nat>) returns (data: Block)
      requires |h| <= LOGSIZE && forall i | 0 <= i < |h| :: h[i] < 0x1_0000_0000
      ensures HeadCount(data) == |h| && Head(data) == h
    {
      data := SetWord(hb, 0, |h|);
      WordSetWord(hb, 0, |h|);
      var i := 0;
      while i < |h|
        invariant i <= |h| && HeadCount(data) == |h|
        invariant forall j | 0 <= j < i :: Word(data, j + 1) == h[j]
      {
        WordSetWord(data, i + 1, h[i]);
        data := SetWord(data, i + 1, h[i]);
        i := i + 1;
      }
    }

    /** read_head's loop. */
    static method DecodeHead(hb: Block) returns (count: nat, h: seq<nat>)
      requires HeadCount(hb) <= LOGSIZE
      ensures count == HeadCount(hb) && |h| == LOGSIZE && h[..count] == Head(hb)
    {
      count := Word(hb, 0);
      h := seq(LOGSIZE, _ => 0);
      var i := 0;
      while i < count
        invariant i <= count && |h| == LOGSIZE
        invariant forall j | 0 <= j < i :: h[j] == Word(hb, j + 1)
      {
        h := h[i := Word(hb, i + 1)];
        i := i + 1;
      }
    }

    lemma HeaderPlace()
      requires Valid()
      ensures |st.bufs| == NBUF && |st.disk| == |c.base| && c.start < |c.base| && !Home(c, c.start)
      ensures st.phase == Clear ==> n == 0
      ensures forall i | 0 <= i < n :: block[i] < 0x1_0000_0000
    {
      Known();
      forall i | 0 <= i < n
        ensures block[i] < 0x1_0000_0000
      {
        assert st.lh[i] == block[i] && Home(c, st.lh[i]);
      }
    }

    ghost predicate HeadReady(s: State)
      reads this
    {
      s.phase == Copy(n) || s.phase == Clear
    }

    /** The state after the header reached the disk. */
    ghost function HeadWritten(s: State, t: State): State
      reads this
    {
      if s.phase == Clear then s.(disk := t.disk, bufs := t.bufs, phase := Done)
      else s.(disk := t.disk, bufs := t.bufs, phase := Install(0), durable := |s.writes|, mark := s.nextOp)
    }

    method FlushHead(me: Pid, i: nat, data: Block)
      requires Valid() && st.owner == me && |st.bufs| == NBUF
      requires if st.phase == Clear then CanClear(c, st, i, data) else CanCommit(c, st, i, data)
      modifies this`st, this`acts, bc`bufs, bc`disk
      ensures Valid() && old(acts) <= acts
      ensures st == HeadWritten(old(st), DiskWrite(old(st), i, data))
    {
      Flush(me, i, data, if st.phase == Clear then ClearHead(i, data) else Action.WriteHead(i, data));
    }

    /** The header as it is in memory goes to a held buffer and to the disk. */
    method FlushHeader(me: Pid, i: nat) returns (ghost data: Block)
      requires Valid() && st.owner == me && HeadReady(st) && i < NBUF && |st.bufs| == NBUF
      requires Holds(st, me, i) && Cached(st, i, c.start)
      modifies this`st, this`acts, bc`bufs, bc`disk
      ensures Valid() && old(acts) <= acts && st.touched == {} && |st.bufs| == NBUF
      ensures c.start < |old(st).disk| && st == HeadWritten(old(st), DiskWrite(old(st), i, data))
    {
      hide Run, Ring, Recency, Inv;
      HeaderPlace();
      Quieted();
      var hb := EncodeHead(bc.bufs[i].data, block[..n]);
      data := hb;
      FlushHead(me, i, hb);
    }

    method WriteHeadHeld(me: Pid, i: nat, ghost s0: State)
      requires Valid() && st.owner == me && HeadReady(st) && i < NBUF && |st.bufs| == NBUF
      requires Took(s0, st, me, i, c.start) && s0.bufs[i].users == {} && Ready(c, s0, me)
      requires SameDirty(s0, st) && forall k | 0 <= k < NBUF && k != i :: st.bufs[k] == s0.bufs[k]
      modifies this`st, this`acts, bc
      ensures Valid() && old(acts) <= acts
      ensures Ready(c, st, me) && SameUse(s0, st) && SameDirty(s0, st)
      ensures st == HeadWritten(old(st), st)
    {
      hide Run, Ring, Recency, Ready, Inv;
      HeaderPlace();
      NotPinned(i);
      ghost var _ := FlushHeader(me, i);
      ReleaseHead(me, i, s0);
    }

    method ReleaseHead(me: Pid, i: nat, ghost s0: State)
      requires Valid() && i < NBUF && |st.bufs| == NBUF && st.touched == {}
      requires Took(s0, st, me, i, c.start) && s0.bufs[i].users == {} && Ready(c, s0, me)
      requires SameDirty(s0, st) && forall k | 0 <= k < NBUF && k != i :: st.bufs[k] == s0.bufs[k]
      modifies this`st, this`acts, bc
      ensures Valid() && old(acts) <= acts && bc.disk == old(bc.disk)
      ensures st == old(st).(bufs := st.bufs) && Ready(c, st, me) && SameUse(s0, st) && SameDirty(s0, st)
    {
      hide Run, Ring, Recency, Ready;
      BRelse(me, i);
      ReadyAgain(c, s0, st, me, i, i);
    }

    /** write_head */
    method WriteHead(me: Pid) returns (ok: bool)
      requires Valid() && Ready(c, st, me) && st.owner == me && HeadReady(st)
      modifies this`st, this`acts, bc
      ensures Valid() && old(acts) <= acts
      ensures ok <==> Room(old(st))
      ensures ok ==> Ready(c, st, me) && SameUse(old(st), st) && SameDirty(old(st), st)
      ensures ok ==> st == HeadWritten(old(st), st)
    {
      hide Run, Ring, Recency, Ready;
      HeaderPlace();
      LogBlockFree(me, c.start);
      var i := BRead(me, c.start);
      if i.None? { return false; }
      assert forall k | 0 <= k < NBUF && k != i.value :: st.bufs[k] == old(st).bufs[k];
      WriteHeadHeld(me, i.value, old(st));
      ok := true;
    }

    method InstallHeld(me: Pid, tail: nat, from: nat, to: nat, ghost s0: State)
      requires Valid() && st.owner == me && st.phase == Install(tail) && tail < n
      requires HasPair(s0, st, me, from, c.start + 1 + tail, to, block[tail]) && Ready(c, s0, me) && SameDirty(s0, st)
      modifies this`st, this`acts, bc
      ensures Valid() && old(acts) <= acts
      ensures Ready(c, st, me) && SameUse(s0, st) && FewerDirty(s0, st)
      ensures st == old(st).(disk := st.disk, bufs := st.bufs, phase := Install(tail + 1))
    {
      hide Run, Ring, Recency, Ready;
      Placed(tail);
      InstallWrite(me, tail, from, to, s0);
      ReleasePair(me, from, c.start + 1 + tail, to, block[tail], s0);
    }

    method InstallWrite(me: Pid, tail: nat, from: nat, to: nat, ghost s0: State)
      requires Valid() && st.owner == me && st.phase == Install(tail) && tail < n
      requires HasPair(s0, st, me, from, c.start + 1 + tail, to, block[tail])
      modifies this`st, this`acts, bc`bufs, bc`disk
      ensures Valid() && old(acts) <= acts && |st.bufs| == NBUF && st.touched == {}
      ensures HasPair(s0, st, me, from, c.start + 1 + tail, to, block[tail]) && FewerDirty(old(st), st)
      ensures st == old(st).(disk := st.disk, bufs := st.bufs, phase := Install(tail + 1))
    {
      hide Run, Ring, Recency, Inv;
      Placed(tail);
      Quieted();
      assert st.lh[tail] == block[tail];
      FlushInstall(me, from, to);
      FlushedPair(s0, old(st), st, me, from, c.start + 1 + tail, to, block[tail], to);
    }

    /** One round of install_trans. */
    method InstallOne(me: Pid, tail: nat)
      requires Valid() && Ready(c, st, me) && st.owner == me && Room(st)
      requires st.phase == Install(tail) && tail < n
      modifies this`st, this`acts, bc
      ensures Valid() && old(acts) <= acts
      ensures Ready(c, st, me) && SameUse(old(st), st) && FewerDirty(old(st), st)
      ensures st == old(st).(disk := st.disk, bufs := st.bufs, phase := Install(tail + 1))
    {
      hide Run, Ring, Recency, Ready;
      Placed(tail);
      if st.booting { BootFree(me, block[tail]); } else { StillPinned(me, tail); }
      var pair := ReadPair(me, c.start + 1 + tail, block[tail]);
      InstallHeld(me, tail, pair.value.0, pair.value.1, old(st));
    }

    /** During recovery no buffer is in use. */
    lemma BootFree(me: Pid, b: nat)
      requires Valid() && st.booting && Ready(c, st, me) && st.owner == me
      ensures TwoFree(st) && Room(st) && Available(st, me, b)
    {
      Known();
      forall i: nat | i < NBUF
        ensures Free(st.bufs[i]) && st.bufs[i].holder == None
      {
        assert BufOk(c, st, i) && me !in st.bufs[i].users;
      }
      assert Free(st.bufs[0]) && Free(st.bufs[1]);
    }

    /** install_trans */
    method InstallTrans(me: Pid)
      requires Valid() && Ready(c, st, me) && st.owner == me && st.phase == Install(0) && Room(st)
      modifies this`st, this`acts, bc
      ensures Valid() && old(acts) <= acts
      ensures Ready(c, st, me) && SameUse(old(st), st) && FewerDirty(old(st), st)
      ensures st == old(st).(disk := st.disk, bufs := st.bufs, phase := Install(n))
    {
      hide Run, Ring, Recency, Ready, Room;
      var tail := 0;
      while tail < n
        invariant tail <= n && Valid() && old(acts) <= acts
        invariant Ready(c, st, me) && SameUse(old(st), st) && FewerDirty(old(st), st)
        invariant st == old(st).(disk := st.disk, bufs := st.bufs, phase := Install(tail))
      {
        RoomKept(old(st), st);
        InstallOne(me, tail);
        tail := tail + 1;
      }
    }

    /** The header in memory is emptied. */
    method ResetHead()
      requires Valid() && CanReset(st)
      modifies this`st, this`acts, this`n
      ensures Valid() && old(acts) <= acts
      ensures n == 0 && st == DoReset(old(st))
    {
      Advance(Reset);
      n := 0;
    }

    lemma Fits()
      requires Valid() && !st.booting && st.phase.Copy?
      ensures Room(st) <==> n + |Borrowed(st)| < NBUF
    {
      Known();
      FreeCount(c, st);
    }

    /** What commit and recovery end with: home blocks in place, log empty. */
    ghost predicate Clean()
      reads this, bc
    {
      && |bc.disk| == |c.base| && c.start < |bc.disk| && HeadCount(bc.disk[c.start]) == 0
      && st.durable == |st.writes|
      && forall b: nat | Home(c, b) :: bc.disk[b] == Current(c.base, st.writes, b)
    }

    lemma DoneIsClean()
      requires Valid() && st.phase == Done
      ensures Clean()
    {
      Known();
      assert st.writes[..st.durable] == st.writes;
    }

    /** commit: all of the transaction reaches its home blocks, unless every buffer is pinned or
        in use, when write_log finds none for the log itself and the kernel panics. */
    method Commit(me: Pid) returns (ok: bool)
      requires Valid() && Ready(c, st, me) && !st.booting && st.owner == me
      requires st.phase == if n > 0 then Copy(0) else Done
      modifies this`st, this`acts, this`n, bc
      ensures Valid() && old(acts) <= acts
      ensures ok <==> old(n) == 0 || old(n) + |Borrowed(old(st))| < NBUF
      ensures ok ==> st.phase == Done && n == 0 && Ready(c, st, me) && SameUse(old(st), st)
      ensures ok ==> st == old(st).(disk := st.disk, bufs := st.bufs, lh := [], phase := Done, durable := st.durable,
                                    mark := st.mark)
      ensures ok ==> Clean()
    {
      hide Run, Ring, Recency, Ready, Room;
      ok := true;
      if n > 0 {
        Fits();
        ok := WriteLog(me);
        if !ok { return; }
        ok := FinishCommit(me, old(st));
      }
      DoneIsClean();
    }

    /** The second half of commit: the header, which commits, the blocks, and the empty header. */
    method FinishCommit(me: Pid, ghost s0: State) returns (ok: bool)
      requires Valid() && Ready(c, st, me) && !st.booting && st.owner == me && st.phase == Copy(n)
      requires Room(s0) && SameUse(s0, st) && SameDirty(s0, st)
      modifies this`st, this`acts, this`n, bc
      ensures ok && Valid() && old(acts) <= acts && n == 0 && Ready(c, st, me) && SameUse(s0, st)
      ensures st == old(st).(disk := st.disk, bufs := st.bufs, lh := [], phase := Done, durable := st.durable,
                             mark := st.mark)
    {
      hide Run, Ring, Recency, Ready, Room;
      RoomKept(s0, st);
      ok := WriteHead(me);
      RoomKept(s0, st);
      InstallTrans(me);
      ghost var s1 := st;
      ResetHead();
      SameReady(c, s1, st, me);
      RoomKept(s0, st);
      ok := WriteHead(me);
    }

    lemma HeaderData(i: nat)
      requires Valid() && st.phase == Boot && Holds(st, st.owner, i) && Cached(st, i, c.start)
      ensures HeadCount(st.bufs[i].data) <= LOGSIZE
    {
      Known();
      Quiet(c, st);
      assert UpToDate(c, st, i) && BufOk(c, st, i);
    }

    method ReadHeadHeld(me: Pid, i: nat)
      requires Valid() && CanReadHead(c, st, i) && st.owner == me && i < NBUF && |st.bufs| == NBUF
      requires HeadCount(st.bufs[i].data) <= LOGSIZE
      modifies this`st, this`acts, this`n, this`block
      ensures Valid() && old(acts) <= acts
      ensures st == old(st).(lh := st.lh, phase := Install(0))
    {
      n, block := DecodeHead(bc.bufs[i].data);
      Advance(Action.ReadHead(i));
    }

    /** read_head */
    method ReadHead(me: Pid)
      requires Valid() && Ready(c, st, me) && st.owner == me && st.phase == Boot && st.booting
      modifies this`st, this`acts, this`n, this`block, bc
      ensures Valid() && old(acts) <= acts && Ready(c, st, me)
      ensures st == old(st).(bufs := st.bufs, lh := st.lh, phase := Install(0))
    {
      hide Run, Ring, Recency, Ready;
      HeaderPlace();
      Unlocked();
      LogBlockFree(me, c.start);
      BootFree(me, c.start);
      var i := BRead(me, c.start);
      HeaderData(i.value);
      ReadHeadHeld(me, i.value);
      Quieted();
      ReleaseHead(me, i.value, old(st));
    }

    /** The end of recovery. */
    ghost method Return()
      requires Valid() && st.phase == Done && st.booting
      modifies this`st, this`acts
      ensures Valid() && old(acts) <= acts && st == DoFinish(old(st))
    {
      Advance(Finish);
    }

    /** recover_from_log: whatever the crash left, each home block gets the contents the
        log header and log blocks say it should have. */
    method RecoverFromLog(me: Pid)
      requires Valid() && Ready(c, st, me) && st.owner == me && st.phase == Boot && st.booting
      requires |bc.disk| == |c.base|
      modifies this`st, this`acts, this`n, this`block, bc
      ensures Valid() && old(acts) <= acts && Quiescent(st) && !st.booting && st.ops == map[]
      ensures st.phase == Idle && n == 0 && st.writes == old(st).writes && Clean()
      ensures forall b: nat | Home(c, b) :: bc.disk[b] == RecoveredAt(c, old(bc.disk), b)
    {
      Known();
      CrashAtomicity(c, st);
      assert st.writes[..st.durable] == st.writes;
      Replay(me);
    }

    /** The body of recover_from_log. */
    method Replay(me: Pid)
      requires Valid() && Ready(c, st, me) && st.owner == me && st.phase == Boot && st.booting
      modifies this`st, this`acts, this`n, this`block, bc
      ensures Valid() && old(acts) <= acts && Quiescent(st) && !st.booting && st.ops == map[]
      ensures st.phase == Idle && n == 0 && st.writes == old(st).writes && Clean()
    {
      ReadHead(me);
      BootFree(me, c.start);
      InstallTrans(me);
      Erase(me);
    }

    /** At the end of recovery nothing is in use. */
    lemma Deserted(me: Pid)
      requires Valid() && st.booting && Ready(c, st, me) && st.owner == me && st.phase == Done
      ensures Quiescent(st) && st.ops == map[]
    {
      Known();
      forall i: nat | i < |st.bufs| ensures st.bufs[i].users == {} { assert BufOk(c, st, i); }
    }

    /** The log is empty from here on. */
    method Erase(me: Pid)
      requires Valid() && Ready(c, st, me) && st.owner == me && st.booting && CanReset(st)
      modifies this`st, this`acts, this`n, bc
      ensures Valid() && old(acts) <= acts && Quiescent(st) && !st.booting && st.ops == map[]
      ensures st.phase == Idle && n == 0 && st.writes == old(st).writes && Clean()
    {
      hide Run, Ring, Recency;
      ResetHead();
      BootFree(me, c.start);
      var _ := WriteHead(me);
      DoneIsClean();
      Deserted(me);
      Return();
    }

    // ---- operations ------------------------------------------------------

    /** One pass of begin_op's loop; false means sleep and try again. */
    method BeginOp(me: Pid) returns (started: bool)
      requires Valid() && !st.booting && me !in st.ops
      modifies this`st, this`acts, this`outstanding
      ensures Valid() && old(acts) <= acts
      ensures started <==> CanBegin(old(st), me)
      ensures started <==> !committing && n + old(outstanding) * 10 + 10 <= 30
      ensures outstanding == old(outstanding) + if started then 1 else 0
      ensures st == if started then DoBegin(old(st), me) else old(st)
    {
      if committing {
        return false;
      } else if n + (outstanding + 1) * 10 > LOGSIZE {
        return false;
      }
      Advance(Begin(me));
      outstanding := outstanding + 1;
      started := true;
    }

    /** log_write's loop: where b is, or the first unused place. */
    method FindSlot(b: nat) returns (i: nat)
      requires |block| == LOGSIZE && n <= LOGSIZE
      ensures i <= n && (i < n ==> block[i] == b) && (i == n ==> b !in block[..n])
    {
      i := 0;
      while i < n
        invariant i <= n && b !in block[..i]
      {
        if block[i] == b { break; }
        i := i + 1;
      }
    }

    /** log_write's entry in the header: the one for the block if there is one, else a new one. */
    method Enter(me: Pid, i: nat)
      requires Valid() && i < NBUF && CanAppend(c, st, me, i) && n < LOGSIZE
      modifies this`st, this`acts, this`n, this`block, bc`bufs
      ensures Valid() && old(acts) <= acts && st == DoAppend(old(st), me, i)
      ensures old(bc.bufs)[i].blockno in old(block)[..old(n)] ==> n == old(n) && block == old(block)
      ensures old(bc.bufs)[i].blockno !in old(block)[..old(n)] ==>
        n == old(n) + 1 && |block| == 30 && block[..n] == old(block)[..old(n)] + [old(bc.bufs)[i].blockno]
      ensures bc.bufs == old(bc.bufs)[i := old(bc.bufs)[i].(dirty := true)]
    {
      hide Run, Ring, Recency;
      var b := bc.bufs[i].blockno;
      var k := FindSlot(b);
      assert k < n ==> block[..n][k] == b;
      Advance(LogAppend(me, i));
      assert st.lh == if k < n then block[..n] else block[..n] + [b];
      block := block[k := b];
      if k == n { n := n + 1; }
      bc.bufs := bc.bufs[i := bc.bufs[i].(dirty := true)];
    }

    /** log_write, with nobody else in it. False is panic("too big a transaction"). */
    method LogWrite(me: Pid, i: nat) returns (ok: bool)
      requires Valid() && me in st.ops && i < NBUF && Holds(st, me, i) && Home(c, st.bufs[i].blockno)
      requires st.bufs[i].blockno in st.lh || st.ops[me].used < MAXOPBLOCKS
      modifies this`st, this`acts, this`n, this`block, bc`bufs
      ensures Valid() && old(acts) <= acts
      ensures ok <==> CanCheck(c, old(st), me)
      ensures ok <==> old(n) < 30 && old(n) < c.size - 1
      ensures ok && old(bc.bufs)[i].blockno in old(block)[..old(n)] ==> n == old(n) && block == old(block)
      ensures ok && old(bc.bufs)[i].blockno !in old(block)[..old(n)] ==>
        n == old(n) + 1 && |block| == 30 && block[..n] == old(block)[..old(n)] + [old(bc.bufs)[i].blockno]
      ensures ok ==> bc.bufs == old(bc.bufs)[i := old(bc.bufs)[i].(dirty := true)]
      ensures !ok ==> n == old(n) && block == old(block) && bc.bufs == old(bc.bufs)
      ensures st == if ok then DoAppend(DoCheck(old(st), me), me, i) else old(st)
    {
      hide Run, Ring, Recency;
      if n >= LOGSIZE || n >= c.size - 1 {
        return false;
      }
      Advance(LogCheck(me));
      Enter(me, i);
      ok := true;
    }

    static lemma OneFewer(ops: map<Pid, Op>, p: Pid)
      requires p in ops
      ensures |ops - {p}| == |ops| - 1
      ensures |ops - {p}| == 0 <==> ops - {p} == map[]
      ensures ops.Keys == {p} <==> ops - {p} == map[]
    {
      var rest := ops - {p};
      assert rest.Keys == ops.Keys - {p};
      assert |rest| == |rest.Keys| && |ops| == |ops.Keys|;
    }

    /** end_op's locked part; true if the caller must commit. */
    method LeaveOp(me: Pid) returns (doCommit: bool)
      requires Valid() && !st.booting && CanEnd(st, me)
      modifies this`st, this`acts, this`outstanding, this`committing
      ensures Valid() && old(acts) <= acts
      ensures st == DoEnd(old(st), me) && doCommit == (st.ops == map[])
      ensures outstanding == old(outstanding) - 1 && (committing <==> outstanding == 0) && doCommit == committing
    {
      OneFewer(st.ops, me);
      Advance(End(me));
      outstanding := outstanding - 1;
      doCommit := false;
      if outstanding == 0 {
        doCommit := true;
        committing := true;
      }
    }

    /** end_op. False is the panic of commit. */
    method EndOp(me: Pid) returns (ok: bool)
      requires Valid() && !st.booting && Ready(c, st, me) && CanEnd(st, me)
      modifies this, bc
      ensures Valid() && old(acts) <= acts
      ensures old(st).ops.Keys != {me} ==> ok && st == DoEnd(old(st), me)
      ensures old(st).ops.Keys == {me} ==> (ok <==> old(n) == 0 || old(n) + |Borrowed(old(st))| < NBUF)
      ensures old(st).ops.Keys == {me} && ok ==>
        st.phase == Idle && n == 0 && st.ops == map[] && st.writes == old(st).writes && Clean()
      ensures old(st).ops.Keys == {me} && ok ==>
        !st.booting && Ready(c, st, me) && SameUse(old(st), st) && st.nextOp == old(st).nextOp
    {
      hide Run, Ring, Recency, Ready;
      OneFewer(st.ops, me);
      var doCommit := LeaveOp(me);
      ok := true;
      if doCommit {
        SameReady(c, old(st), st, me);
        ok := Commit(me);
        if ok { EndCommit(me); }
      }
    }

    /** The commit is over. */
    method EndCommit(me: Pid)
      requires Valid() && Ready(c, st, me) && st.phase == Done && !st.booting && Clean()
      modifies this`st, this`acts, this`committing
      ensures Valid() && old(acts) <= acts && st == DoFinish(old(st)) && Ready(c, st, me) && Clean()
    {
      hide Run, Ring, Recency, Ready;
      Advance(Finish);
      committing := false;
      SameReady(c, old(st), st, me);
    }

    lemma QuietReady(me: Pid, b: nat)
      requires Valid() && Quiescent(st)
      ensures Ready(c, st, me) && Available(st, me, b) && Borrowed(st) == {}
    {
      Unlocked();
    }

    // ---- one operation from beginning to end -------------------------------

    /** A process changes a buffer it holds, between bread and log_write. */
    method Modify(me: Pid, i: nat, data: Block)
      requires Valid() && i < NBUF && CanEdit(c, st, me, i)
      modifies this`st, this`acts, bc`bufs
      ensures Valid() && old(acts) <= acts && st == DoEdit(old(st), i, data)
    {
      hide Run, Ring, Recency;
      Advance(Edit(me, i, data));
      bc.bufs := bc.bufs[i := bc.bufs[i].(data := data)];
    }

    static lemma NoneTouched(c: Config, s: State)
      requires Inv(c, s) && s.ops == map[]
      ensures s.touched == {}
    {
      forall i: nat ensures i !in s.touched { if i < |s.bufs| { assert BufOk(c, s, i); } }
    }

    /** Between transactions no buffer is changed, logged or pinned, and the disk is up to date. */
    lemma AtRest()
      requires Valid() && st.phase == Idle && st.lh == [] && st.ops == map[]
      ensures |st.bufs| == NBUF && st.touched == {} && forall i | 0 <= i < NBUF :: !st.bufs[i].dirty
      ensures |bc.disk| == |c.base| && forall b: nat | Home(c, b) :: bc.disk[b] == Current(c.base, st.writes, b)
    {
      hide Run, Ring, Recency;
      Known();
      NoneTouched(c, st);
      assert st.writes[..st.durable] == st.writes;
    }

    /** In the operation of a process alone some buffer is free until NBUF blocks are logged. */
    lemma StillRoom()
      requires Valid() && !st.booting && st.phase == Idle && Quiescent(st) && n < NBUF
      ensures Room(st)
    {
      Known();
      QuietReady(0, 0);
      FreeCount(c, st);
    }

    /** bread, change, log_write and brelse of one block, in the operation of a process alone.
        False is the panic of log_write. */
    method Replace(me: Pid, b: nat, data: Block) returns (ok: bool)
      requires Valid() && Alone(st, me) && n < NBUF && Home(c, b) && (b in st.lh || st.ops[me].used < MAXOPBLOCKS)
      modifies this`st, this`acts, this`n, this`block, bc
      ensures Valid() && old(acts) <= acts && (ok <==> old(n) < c.size - 1)
      ensures ok ==> Alone(st, me) && st.writes == old(st).writes + [Write(old(st).ops[me].id, b, data)]
      ensures ok ==> st.lh == (if b in old(st).lh then old(st).lh else old(st).lh + [b]) && st.nextOp == old(st).nextOp
      ensures ok ==> st.ops[me].id == old(st).ops[me].id && st.durable == old(st).durable
      ensures ok ==> st.ops[me].used == old(st).ops[me].used + if b in old(st).lh then 0 else 1
    {
      hide Run, Ring, Recency;
      StillRoom();
      QuietReady(me, b);
      var i := BRead(me, b);
      ok := Relog(me, i.value, b, data);
    }

    method Relog(me: Pid, i: nat, b: nat, data: Block) returns (ok: bool)
      requires Valid() && Alone(st.(bufs := []), me) && n < NBUF && Home(c, b)
      requires b in st.lh || st.ops[me].used < MAXOPBLOCKS
      requires i < NBUF == |st.bufs| && Holds(st, me, i) && Cached(st, i, b) && st.bufs[i].users == {me}
      requires forall k | 0 <= k < NBUF && k != i :: st.bufs[k].users == {}
      modifies this`st, this`acts, this`n, this`block, bc
      ensures Valid() && old(acts) <= acts && (ok <==> old(n) < c.size - 1)
      ensures ok ==> Alone(st, me) && st.writes == old(st).writes + [Write(old(st).ops[me].id, b, data)]
      ensures ok ==> st.lh == (if b in old(st).lh then old(st).lh else old(st).lh + [b]) && st.nextOp == old(st).nextOp
      ensures ok ==> st.ops[me].id == old(st).ops[me].id && st.durable == old(st).durable
      ensures ok ==> st.ops[me].used == old(st).ops[me].used + if b in old(st).lh then 0 else 1
    {
      hide Run, Ring, Recency;
      Modify(me, i, data);
      ok := LogWrite(me, i);
      if ok { BRelse(me, i); }
    }

    /** A whole operation by a process alone: when it ends, the block is on disk and no other
        has changed. It panics exactly on a log that has no room for an entry. */
    method Store(me: Pid, b: nat, data: Block) returns (ok: bool)
      requires Valid() && !st.booting && Quiescent(st) && st.phase == Idle && st.ops == map[] && n == 0 && Home(c, b)
      modifies this, bc
      ensures Valid() && (ok <==> 2 <= c.size)
      ensures ok ==> st.phase == Idle && st.ops == map[] && n == 0 && Clean()
      ensures ok ==> forall x: nat | Home(c, x) ::
        x < |old(bc.disk)| && bc.disk[x] == if x == b then data else old(bc.disk)[x]
    {
      hide Run, Ring, Recency;
      AtRest();
      ghost var ws := st.writes;
      var _ := BeginOp(me);
      ghost var w := Write(st.ops[me].id, b, data);
      ok := Replace(me, b, data);
      if !ok { return; }
      QuietReady(me, b);
      ok := EndOp(me);
      assert (ws + [w])[..|ws|] == ws;
    }
  }
}
