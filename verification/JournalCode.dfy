/** Crash safety of log_write as it is written, without a size test under the lock. On a log
    with room for LOGSIZE blocks beside its header nothing changes. On the log mkfs makes, one
    block smaller, two processes can push the header one entry past the region; but the entries
    then pin every buffer, the commit that would overrun the region finds none to write with,
    and what was durable stays what it was. On smaller logs crash safety is lost. */
module JournalCode {
  import opened Common
  import opened Blocks
  import opened Journal
  import opened JournalSafety
  import opened JournalTheorems
  import opened JournalRace

  // ---- one entry too many ------------------------------------------------

  /** Every buffer holds a different block of the header, logged and not written. */
  ghost predicate AllPinned(c: Config, s: State) {
    && |s.bufs| == NBUF == |s.lh| && Distinct(s.lh) && AllHome(c, s.lh)
    && forall i | 0 <= i < |s.bufs| ::
         s.bufs[i].dev == ROOTDEV && s.bufs[i].dirty && s.bufs[i].valid && s.bufs[i].blockno in s.lh
  }

  /** The disk is as the last commit left it, and its log is empty. */
  ghost predicate Untouched(c: Config, s: State) {
    && |s.disk| == |c.base| && s.durable <= |s.writes|
    && c.start < |s.disk| && HeadCount(s.disk[c.start]) == 0
    && forall b: nat | Home(c, b) :: s.disk[b] == Committed(c, s, b)
  }

  /** LOGSIZE entries in the log mkfs makes. */
  ghost predicate Overfull(c: Config, s: State) {
    && ValidConfig(c) && c.size == LOGSIZE
    && AllPinned(c, s) && UniqueKeys(s) && AllUpToDate(c, s) && Untouched(c, s) && Whole(s) && Reserved(s)
    && !s.booting && (s.phase == Idle || s.phase == Copy(0))
  }

  ghost predicate Safe(c: Config, s: State) {
    Inv(c, s) || Overfull(c, s)
  }

  /** t.lh, all of it in the cache and dirty, takes up every buffer. */
  lemma NoneClean(s: State, lh: seq<nat>)
    requires |s.bufs| == NBUF == |lh| && Distinct(lh) && forall b | b in lh :: Pinned(s, b)
    ensures forall i | 0 <= i < |s.bufs| :: s.bufs[i].dirty
  {
    if i :| 0 <= i < |s.bufs| && !s.bufs[i].dirty {
      var all := BlockNos(s.bufs);
      var others := all[..i] + all[i + 1..];
      forall k | 0 <= k < |lh|
        ensures lh[k] in others
      {
        assert Pinned(s, lh[k]);
        var j :| 0 <= j < |s.bufs| && Cached(s, j, lh[k]) && s.bufs[j].dirty;
        assert others[if j < i then j else j - 1] == s.bufs[j].blockno;
      }
      DistinctWithin(lh, others);
    }
  }

  lemma AppendPinned(c: Config, s: State, p: Pid, i: nat, t: State, b: nat)
    requires Inv(c, s) && s.phase == Idle && !s.booting && CanAppendUntested(c, s, p, i) && t == DoAppend(s, p, i)
    requires b in t.lh
    ensures Pinned(t, b)
  {
    assert BufOk(c, s, i);
    if b == s.bufs[i].blockno {
      assert Cached(t, i, b) && t.bufs[i].dirty;
    } else {
      assert b in Pending(c, s) && Pinned(s, b);
      var j :| 0 <= j < NBUF && Cached(s, j, b) && s.bufs[j].dirty;
      assert Cached(t, j, b) && t.bufs[j].dirty;
    }
  }

  lemma AppendAllPinned(c: Config, s: State, p: Pid, i: nat, t: State)
    requires Inv(c, s) && s.phase == Idle && !s.booting && CanAppendUntested(c, s, p, i) && t == DoAppend(s, p, i)
    requires s.bufs[i].blockno !in s.lh && |s.lh| == NBUF - 1
    ensures AllPinned(c, t)
  {
    forall b | b in t.lh ensures Pinned(t, b) { AppendPinned(c, s, p, i, t, b); }
    NoneClean(t, t.lh);
    assert s.bufs[i].blockno in t.lh;
    forall j: nat | j < |t.bufs|
      ensures t.bufs[j].dev == ROOTDEV && t.bufs[j].valid && t.bufs[j].blockno in t.lh
    {
      assert t.bufs[j].dirty && BufOk(c, s, j);
      if j != i { assert s.bufs[j].blockno in Pending(c, s); }
    }
  }

  lemma AppendReserves(s: State, p: Pid, i: nat)
    requires Reserved(s) && p in s.ops && i < |s.bufs| && (s.bufs[i].blockno in s.lh || s.ops[p].used < MAXOPBLOCKS)
    ensures Reserved(DoAppend(s, p, i))
  {
    UnusedSplit(s.ops, p);
    UnusedPut(s.ops, p, DoAppend(s, p, i).ops[p]);
  }

  /** What is durable, and the disk, stay as they are in an append. */
  lemma AppendUntouched(c: Config, s: State, p: Pid, i: nat)
    requires Inv(c, s) && s.phase == Idle && CanAppendUntested(c, s, p, i)
    ensures Untouched(c, DoAppend(s, p, i)) && Whole(DoAppend(s, p, i))
  {
    hide Buffers, Coherent, Reserved;
    var t := DoAppend(s, p, i);
    assert t.writes[..t.durable] == s.writes[..s.durable];
  }

  lemma AppendUpToDate(c: Config, s: State, p: Pid, i: nat)
    requires Inv(c, s) && s.phase == Idle && CanAppendUntested(c, s, p, i)
    ensures UniqueKeys(DoAppend(s, p, i)) && AllUpToDate(c, DoAppend(s, p, i))
  {
    var t := DoAppend(s, p, i);
    forall j: nat | j < |t.bufs| && j !in t.touched && t.bufs[j].valid
      ensures UpToDate(c, t, j)
    {
      assert BufOk(c, s, j) && BufOk(c, s, i);
      assert j !in s.touched && s.bufs[j].valid ==> UpToDate(c, s, j);
    }
  }

  /** The untested append that leaves LOGSIZE entries. */
  lemma OneTooMany(c: Config, s: State, p: Pid, i: nat)
    requires Inv(c, s) && c.size == LOGSIZE && CanAppendUntested(c, s, p, i) && s.bufs[i].blockno !in s.lh
    requires |s.lh| == NBUF - 1
    ensures Overfull(c, DoAppend(s, p, i))
  {
    assert s.phase == Idle && !s.booting;
    AppendAllPinned(c, s, p, i, DoAppend(s, p, i));
    AppendUntouched(c, s, p, i);
    AppendUpToDate(c, s, p, i);
    AppendReserves(s, p, i);
  }

  /** An append is as in the runs with the test, or makes one entry too many. */
  lemma AppendStep(c: Config, s: State, p: Pid, i: nat)
    requires Inv(c, s) && c.size >= LOGSIZE && CanAppendUntested(c, s, p, i)
    ensures Safe(c, DoAppend(s, p, i))
  {
    if s.bufs[i].blockno in s.lh || |s.lh| < Cap(c) {
      StepInv(c, s, LogAppend(p, i));
    } else {
      UnusedSplit(s.ops, p);
      assert Budgets(s.ops - {p});
      UnusedBounds(s.ops - {p});
      OneTooMany(c, s, p, i);
    }
  }

  lemma OverCrash(c: Config, s: State, p: Pid)
    requires Overfull(c, s)
    ensures Inv(c, DoCrash(s, p))
  {
    var t := DoCrash(s, p);
    assert Head(t.disk[c.start]) == [];
    assert t.writes[..t.durable] == s.writes[..s.durable];
    forall b: nat | Home(c, b) ensures t.disk[b] == View(c, t, b) { assert View(c, t, b) == Committed(c, s, b); }
    assert forall j: nat | j < NBUF :: t.bufs[j] == FreshBuf;
  }

  lemma OverBufs(c: Config, s: State, t: State, i: nat)
    requires Overfull(c, s) && i < |s.bufs| == |t.bufs| && t == s.(bufs := s.bufs[i := t.bufs[i]], touched := t.touched)
    requires t.bufs[i] == s.bufs[i].(users := t.bufs[i].users, holder := t.bufs[i].holder, data := t.bufs[i].data)
    requires s.touched <= t.touched && (i in t.touched || t.bufs[i].data == s.bufs[i].data)
    ensures Overfull(c, t)
  {
    forall j: nat | j < |t.bufs| && j !in t.touched && t.bufs[j].valid
      ensures UpToDate(c, t, j)
    {
      assert UpToDate(c, s, j);
    }
  }

  lemma OverAppend(c: Config, s: State, p: Pid, i: nat)
    requires Overfull(c, s) && CanAppendUntested(c, s, p, i)
    ensures Overfull(c, DoAppend(s, p, i))
  {
    var t := DoAppend(s, p, i);
    AppendReserves(s, p, i);
    assert t.writes[..t.durable] == s.writes[..s.durable];
  }

  lemma OverEnd(c: Config, s: State, p: Pid)
    requires Overfull(c, s) && CanEnd(s, p)
    ensures Overfull(c, DoEnd(s, p))
  {
    UnusedSplit(s.ops, p);
  }

  /** What cannot be done with every buffer pinned: take a buffer over, read one in, begin an
      operation, pass the size test, and so also write to the log. */
  lemma OverStuck(c: Config, s: State, a: Action)
    requires Overfull(c, s) && Enabled(c, s, a)
    ensures a.Hit? || a.Lock? || a.Unlock? || a.Put? || a.Edit? || a.LogAppend? || a.End? || a.Crash?
  {
    assert !Home(c, c.start + 1);
  }

  /** With every buffer pinned nothing is written: the commit, if it comes to that, finds no
      buffer for the first log block. */
  lemma OverStep(c: Config, s: State, a: Action, t: State)
    requires Overfull(c, s) && UntestedNext(c, s, a) == Some(t)
    ensures Safe(c, t) && t.disk == s.disk
    ensures !a.Crash? ==> Overfull(c, t) && t.durable == s.durable && s.writes <= t.writes
  {
    if a.LogAppend? {
      OverAppend(c, s, a.p, a.i);
    } else {
      OverStuck(c, s, a);
      if a.Crash? { OverCrash(c, s, a.p); }
      else if a.End? { OverEnd(c, s, a.p); }
      else { OverBufs(c, s, t, a.i); }
    }
  }

  lemma SafeStep(c: Config, s: State, a: Action, t: State)
    requires Safe(c, s) && c.size >= LOGSIZE && UntestedNext(c, s, a) == Some(t)
    ensures Safe(c, t)
  {
    if Overfull(c, s) {
      OverStep(c, s, a, t);
    } else if a.LogAppend? {
      AppendStep(c, s, a.p, a.i);
    } else {
      StepInv(c, s, a);
    }
  }

  lemma {:induction false} SafeRun(c: Config, p: Pid, acts: seq<Action>)
    requires ValidConfig(c) && c.size >= LOGSIZE
    ensures UntestedRun(c, Initial(c, p), acts).Some? ==> Safe(c, UntestedRun(c, Initial(c, p), acts).value)
  {
    if acts == [] {
      InitialInv(c, p);
    } else {
      SafeRun(c, p, acts[..|acts| - 1]);
      match UntestedRun(c, Initial(c, p), acts[..|acts| - 1])
      case None =>
      case Some(s) =>
        var t := UntestedNext(c, s, acts[|acts| - 1]);
        if t.Some? { SafeStep(c, s, acts[|acts| - 1], t.value); }
    }
  }

  lemma CodeSafe(c: Config, s: State)
    requires ValidConfig(c) && (c.size == 1 || c.size >= LOGSIZE) && UntestedReachable(c, s)
    ensures Safe(c, s)
  {
    var p, acts :| UntestedRun(c, Initial(c, p), acts) == Some(s);
    if c.size == 1 {
      NoRoomNoEntry(c, p, acts);
      InitialInv(c, p);
      RunInv(c, Initial(c, p), acts);
    } else {
      SafeRun(c, p, acts);
    }
  }

  // ---- what holds of the code --------------------------------------------

  lemma OverAtomic(c: Config, s: State)
    requires Overfull(c, s)
    ensures CrashAtomic(c, s)
  {
    assert Head(s.disk[c.start]) == [];
    forall b: nat | Home(c, b) ensures RecoveredAt(c, s.disk, b) == s.disk[b] { assert LastIndex([], b) == -1; }
  }

  /** Every run of the code, with any number of crashes, on a log with room for LOGSIZE - 1
      blocks, as mkfs makes it, or more. */
  lemma CodeCrashAtomic(c: Config, s: State)
    requires ValidConfig(c) && (c.size == 1 || c.size >= LOGSIZE) && UntestedReachable(c, s)
    ensures CrashAtomic(c, s)
  {
    CodeSafe(c, s);
    if Overfull(c, s) { OverAtomic(c, s); } else { InvAtomic(c, s); }
  }

  /** A process that has locked and filled a buffer of a home block sees the latest logged
      contents. */
  lemma CodeCacheTransparent(c: Config, s: State, p: Pid, i: nat)
    requires ValidConfig(c) && (c.size == 1 || c.size >= LOGSIZE) && UntestedReachable(c, s) && !s.booting
    requires Holds(s, p, i) && i !in s.touched && Home(c, s.bufs[i].blockno)
    ensures s.bufs[i].data == Current(c.base, s.writes, s.bufs[i].blockno)
  {
    CodeSafe(c, s);
    if Overfull(c, s) { assert UpToDate(c, s, i); } else { InvTransparent(c, s, p, i); }
  }

  /** Only the header write commits, all that was logged, with no operation outstanding; and no
      step takes a committed write back. */
  lemma CodeCommitPoint(c: Config, s: State, a: Action, t: State)
    requires ValidConfig(c) && (c.size == 1 || c.size >= LOGSIZE) && UntestedReachable(c, s)
    requires UntestedNext(c, s, a) == Some(t)
    ensures Commits(s, a, t)
  {
    hide Commits, CanAppend;
    CodeSafe(c, s);
    if a.LogAppend? {
      AppendCommits(c, s, a.p, a.i);
    } else if Overfull(c, s) {
      OverCommits(c, s, a);
    } else {
      InvCommitPoint(c, s, a);
    }
  }

  lemma AppendCommits(c: Config, s: State, p: Pid, i: nat)
    requires s.durable <= |s.writes| && CanAppendUntested(c, s, p, i)
    ensures Commits(s, LogAppend(p, i), DoAppend(s, p, i))
  {
    var t := DoAppend(s, p, i);
    assert t.writes[..t.durable] == s.writes[..s.durable];
  }

  lemma OverCommits(c: Config, s: State, a: Action)
    requires Overfull(c, s) && Enabled(c, s, a) && !a.LogAppend?
    ensures Commits(s, a, Apply(c, s, a))
  {
    OverStuck(c, s, a);
  }

  /** Recovery, once it returns, has put the committed contents in place and emptied the log. */
  lemma CodeRecoveryCompletes(c: Config, s: State)
    requires ValidConfig(c) && (c.size == 1 || c.size >= LOGSIZE) && UntestedReachable(c, s)
    requires s.booting && s.phase == Done
    ensures InPlace(c, s)
  {
    CodeSafe(c, s);
    InvCompletes(c, s);
  }

  /** A clean valid buffer nobody is changing equals the disk, no block has two buffers, and
      between commits the pinned blocks are the logged ones. */
  lemma CodeMatchesDisk(c: Config, s: State)
    requires ValidConfig(c) && (c.size == 1 || c.size >= LOGSIZE) && UntestedReachable(c, s)
    ensures Matches(s)
  {
    CodeSafe(c, s);
    if Overfull(c, s) { OverMatches(c, s); } else { InvMatches(c, s); }
  }

  lemma OverMatches(c: Config, s: State)
    requires Overfull(c, s)
    ensures Matches(s)
  {
    forall b: nat | b in s.lh
      ensures Pinned(s, b)
    {
      AllLogged(s, b);
    }
  }

  /** NBUF buffers of different logged blocks hold every logged block. */
  lemma AllLogged(s: State, b: nat)
    requires |s.bufs| == NBUF == |s.lh| && UniqueKeys(s) && b in s.lh
    requires forall i | 0 <= i < |s.bufs| :: s.bufs[i].dev == ROOTDEV && s.bufs[i].dirty && s.bufs[i].blockno in s.lh
    ensures Pinned(s, b)
  {
    if !Pinned(s, b) {
      var k :| 0 <= k < |s.lh| && s.lh[k] == b;
      var others, all := s.lh[..k] + s.lh[k + 1..], BlockNos(s.bufs);
      forall i | 0 <= i < |all|
        ensures all[i] in others
      {
        assert !Cached(s, i, b);
        var m :| 0 <= m < |s.lh| && s.lh[m] == all[i];
        assert others[if m < k then m else m - 1] == all[i];
      }
      DistinctWithin(all, others);
    }
  }

  /** bget's panic in the same runs. */
  lemma CodeNoBuffer(c: Config, s: State, p: Pid, b: nat)
    requires ValidConfig(c) && (c.size == 1 || c.size >= LOGSIZE) && UntestedReachable(c, s) && !s.booting
    requires b < |c.base| && forall j | 0 <= j < |s.bufs| :: !Cached(s, j, b)
    ensures c.start < |s.disk| && (s.phase.Install? ==> s.phase.k <= |s.lh|)
    ensures NoBuffer(c, s, p, b) <==> |Pending(c, s)| + |Borrowed(s)| == NBUF
  {
    CodeSafe(c, s);
    if Overfull(c, s) {
      assert Borrowed(s) == {};
    } else {
      InvNoBuffer(c, s, p, b);
    }
  }

  /** No home block changes on disk before the header naming it is there. */
  lemma CodeWritesAhead(c: Config, s: State, a: Action, t: State, b: nat)
    requires ValidConfig(c) && (c.size == 1 || c.size >= LOGSIZE) && UntestedReachable(c, s)
    requires UntestedNext(c, s, a) == Some(t) && Home(c, b)
    ensures |t.disk| == |s.disk| == |c.base|
    ensures t.disk[b] != s.disk[b] ==>
      b in Head(s.disk[c.start]) && s.durable == |s.writes| && t.disk[b] == Current(c.base, s.writes, b)
  {
    CodeSafe(c, s);
    if Overfull(c, s) {
      OverStep(c, s, a, t);
    } else if !a.LogAppend? {
      InvAhead(c, s, a, b);
    }
  }

  /** The header never outgrows its LOGSIZE places, and each entry is a different home block. */
  lemma CodeReserves(c: Config, s: State)
    requires ValidConfig(c) && (c.size == 1 || c.size >= LOGSIZE) && UntestedReachable(c, s)
    ensures |s.lh| + Unused(s.ops) <= LOGSIZE && |s.lh| <= LOGSIZE && Distinct(s.lh) && AllHome(c, s.lh)
    ensures s.ops != map[] ==> s.phase == Idle
  {
    CodeSafe(c, s);
    UnusedBounds(s.ops);
  }
}
