/** The promises of log.c and bio.c, for every run of the storage protocol. */
module JournalTheorems {
  import opened Common
  import opened Blocks
  import opened Journal
  import opened JournalSafety

  /** s can be reached from power-on by some interleaving of steps and crashes. */
  ghost predicate Reachable(c: Config, s: State) {
    && ValidConfig(c)
    && exists p, acts :: Run(c, Initial(c, p), acts) == Some(s)
  }

  lemma ReachableInv(c: Config, s: State)
    requires Reachable(c, s)
    ensures Inv(c, s)
  {
    var p, acts :| Run(c, Initial(c, p), acts) == Some(s);
    InitialInv(c, p);
    RunInv(c, Initial(c, p), acts);
  }

  // ---- crash atomicity ---------------------------------------------------

  /** Recovery from a crash at s gives each home block its contents after the committed writes,
      and an operation's writes are all among those or all not; no operation with committed
      writes is still running. */
  ghost predicate CrashAtomic(c: Config, s: State) {
    && s.durable <= |s.writes| && c.start < |s.disk| == |c.base|
    && (forall b: nat | Home(c, b) :: RecoveredAt(c, s.disk, b) == Current(c.base, s.writes[..s.durable], b))
    && (forall i, j | 0 <= i < s.durable <= j < |s.writes| :: s.writes[i].op != s.writes[j].op)
    && (forall i, p | 0 <= i < s.durable && p in s.ops :: s.writes[i].op != s.ops[p].id)
  }

  lemma InvAtomic(c: Config, s: State)
    requires Inv(c, s)
    ensures CrashAtomic(c, s)
  {
    var hb := s.disk[c.start];
    forall b: nat | Home(c, b)
      ensures RecoveredAt(c, s.disk, b) == Committed(c, s, b)
    {
      if s.phase in {Idle, Done} || s.phase.Copy? {
        assert Head(hb) == [];
      } else {
        assert s.writes[..s.durable] == s.writes;
        var i := LastIndex(Head(hb), b);
        assert i >= 0 ==> LogBlock(c, s.disk, i) == View(c, s, Head(hb)[i]);
      }
    }
  }

  /** Whenever the power fails, recovery gives every home block its contents after
      exactly the committed writes; and no operation has writes both among the committed
      and among the lost ones, nor can a committed operation still be running. */
  lemma CrashAtomicity(c: Config, s: State)
    requires Reachable(c, s)
    ensures CrashAtomic(c, s)
  {
    ReachableInv(c, s);
    InvAtomic(c, s);
  }

  /** If step a from s to t commits, it is the header write, it commits everything logged so far,
      and no operation is outstanding; no committed write is taken back. */
  ghost predicate Commits(s: State, a: Action, t: State) {
    && s.durable <= t.durable <= |t.writes| && s.durable <= |s.writes|
    && s.writes[..s.durable] <= t.writes[..t.durable]
    && (t.durable != s.durable ==> a.WriteHead? && s.ops == map[] && t.durable == |s.writes| && t.writes == s.writes)
  }

  lemma InvCommitPoint(c: Config, s: State, a: Action)
    requires Inv(c, s) && Enabled(c, s, a)
    ensures Commits(s, a, Apply(c, s, a))
  {
    hide Buffers, Coherent, LogArea, Whole, AllHome, Distinct;
    var t := Apply(c, s, a);
    assert a.Crash? ==> t.durable == s.durable && t.writes[..t.durable] == s.writes[..s.durable];
    assert a.LogAppend? ==> t.writes[..t.durable] == s.writes[..s.durable];
  }

  /** Every home block on disk has its latest logged contents, all durable, and the log is empty. */
  ghost predicate InPlace(c: Config, s: State) {
    && |s.disk| == |c.base| && c.start < |s.disk| && HeadCount(s.disk[c.start]) == 0
    && s.durable == |s.writes|
    && forall b: nat | Home(c, b) :: s.disk[b] == Current(c.base, s.writes, b)
  }

  lemma InvCompletes(c: Config, s: State)
    requires Inv(c, s) && s.phase == Done
    ensures InPlace(c, s)
  {
    assert s.writes[..s.durable] == s.writes;
  }

  // ---- cache transparency and write-ahead order --------------------------

  lemma InvTransparent(c: Config, s: State, p: Pid, i: nat)
    requires Inv(c, s) && !s.booting
    requires Holds(s, p, i) && i !in s.touched && Home(c, s.bufs[i].blockno)
    ensures s.bufs[i].data == Current(c.base, s.writes, s.bufs[i].blockno)
  {
    assert BufOk(c, s, i) && UpToDate(c, s, i);
    if !s.bufs[i].dirty && s.bufs[i].blockno in Pending(c, s) {
      PinnedIsDirty(c, s, i);
    }
  }

  /** A buffer that is valid, clean and not being edited equals the disk; no block has two
      buffers; and between commits the pinned blocks are exactly the logged ones. */
  ghost predicate Matches(s: State) {
    && (forall i: nat | i < |s.bufs| && s.bufs[i].valid && !s.bufs[i].dirty && i !in s.touched ::
          s.bufs[i].blockno < |s.disk| && s.bufs[i].data == s.disk[s.bufs[i].blockno])
    && (forall i, j | 0 <= i < j < |s.bufs| && s.bufs[i].dev == ROOTDEV && s.bufs[j].dev == ROOTDEV ::
          s.bufs[i].blockno != s.bufs[j].blockno)
    && (!s.booting && s.phase == Idle ==> forall b: nat :: b in s.lh <==> Pinned(s, b))
  }

  lemma InvMatches(c: Config, s: State)
    requires Inv(c, s)
    ensures Matches(s)
  {
    forall i: nat | i < |s.bufs| && s.bufs[i].valid && !s.bufs[i].dirty && i !in s.touched
      ensures s.bufs[i].blockno < |s.disk| && s.bufs[i].data == s.disk[s.bufs[i].blockno]
    {
      assert UpToDate(c, s, i);
    }
  }

  lemma DiskSizes(c: Config, s: State, a: Action)
    requires Inv(c, s) && Enabled(c, s, a)
    ensures |Apply(c, s, a).disk| == |s.disk| == |c.base| && c.start < |c.base|
  {
    StepInv(c, s, a);
  }

  /** Only installing a block changes a home block on disk. */
  lemma OnlyInstalls(c: Config, s: State, a: Action, b: nat)
    requires Inv(c, s) && Enabled(c, s, a) && Home(c, b) && |Apply(c, s, a).disk| == |s.disk| == |c.base|
    requires !a.InstallBlock?
    ensures Apply(c, s, a).disk[b] == s.disk[b]
  {
    hide Buffers, Coherent, LogArea, Reserved, Whole;
  }

  lemma ChangedAhead(c: Config, s: State, a: Action, b: nat)
    requires Inv(c, s) && Enabled(c, s, a) && Home(c, b) && |Apply(c, s, a).disk| == |s.disk| == |c.base|
    requires Apply(c, s, a).disk[b] != s.disk[b]
    ensures b in Head(s.disk[c.start]) && s.durable == |s.writes|
    ensures Apply(c, s, a).disk[b] == Current(c.base, s.writes, b)
  {
    hide Head, Current, Shape, Buffers, Coherent, Reserved, Whole;
    if a.InstallBlock? {
      InstallData(c, s, a.from, a.to);
    } else {
      OnlyInstalls(c, s, a, b);
    }
  }

  lemma InvAhead(c: Config, s: State, a: Action, b: nat)
    requires Inv(c, s) && Enabled(c, s, a) && Home(c, b)
    ensures |Apply(c, s, a).disk| == |s.disk| == |c.base| && c.start < |c.base|
    ensures Apply(c, s, a).disk[b] != s.disk[b] ==> b in Head(s.disk[c.start]) && s.durable == |s.writes|
    ensures Apply(c, s, a).disk[b] != s.disk[b] ==> Apply(c, s, a).disk[b] == Current(c.base, s.writes, b)
  {
    DiskSizes(c, s, a);
    if Apply(c, s, a).disk[b] != s.disk[b] { ChangedAhead(c, s, a, b); }
  }

  // ---- when bget finds no buffer -----------------------------------------

  /** There is no buffer of block b for process p to find, and none to take over. */
  ghost predicate NoBuffer(c: Config, s: State, p: Pid, b: nat) {
    forall i: nat :: !CanHit(s, p, i, b) && !CanRecycle(c, s, p, i, b)
  }

  lemma InvNoBuffer(c: Config, s: State, p: Pid, b: nat)
    requires Inv(c, s) && !s.booting && b < |c.base| && forall j | 0 <= j < |s.bufs| :: !Cached(s, j, b)
    ensures NoBuffer(c, s, p, b) <==> |Pending(c, s)| + |Borrowed(s)| == NBUF
  {
    FreeCount(c, s);
    if i: nat :| i < |s.bufs| && !s.bufs[i].dirty && s.bufs[i].users == {} {
      assert CanRecycle(c, s, p, i, b);
    }
  }

  // ---- log reservations --------------------------------------------------

  /** The header never overflows: entries plus what the outstanding operations may still
      add fit LOGSIZE, entries are distinct home blocks and fit the log region. */
  lemma Reservations(c: Config, s: State)
    requires Reachable(c, s)
    ensures |s.lh| + Unused(s.ops) <= LOGSIZE
    ensures forall p | p in s.ops :: s.ops[p].used <= MAXOPBLOCKS
    ensures Distinct(s.lh) && forall j | 0 <= j < |s.lh| :: Home(c, s.lh[j]) && c.start + 1 + j < c.start + c.size
  {
    ReachableInv(c, s);
  }

  /** With room for LOGSIZE blocks in the log region, an operation that has made fewer than
      MAXOPBLOCKS entries passes log_write's test, and its entry fits even if other
      operations get in between the test, which is made without the lock, and the append. */
  lemma LogWriteSucceeds(c: Config, s: State, p: Pid, i: nat)
    requires Reachable(c, s) && c.size > LOGSIZE
    requires p in s.ops && s.ops[p].used < MAXOPBLOCKS
    ensures CanCheck(c, s, p)
    ensures s.ops[p].checked && Holds(s, p, i) && Home(c, s.bufs[i].blockno) ==> CanAppend(c, s, p, i)
  {
    ReachableInv(c, s);
    UnusedSplit(s.ops, p);
    assert Budgets(s.ops - {p});
    UnusedBounds(s.ops - {p});
  }
}
