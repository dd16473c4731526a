/** log_write tests the size of the log before it takes log.lock (log.c:218-223). What that
    means: with room for LOGSIZE blocks the test might as well be made under the lock, and
    with less two processes can get past it together and overrun the log region. */
module JournalRace {
  import opened Common
  import opened Blocks
  import opened Journal
  import opened JournalSafety
  import opened JournalTheorems

  // ---- the steps as the code takes them ----------------------------------

  /** log_write's locked part makes no test of its own. */
  predicate CanAppendUntested(c: Config, s: State, p: Pid, i: nat) {
    && p in s.ops && s.ops[p].checked && Holds(s, p, i) && Home(c, s.bufs[i].blockno)
    && (s.bufs[i].blockno in s.lh || s.ops[p].used < MAXOPBLOCKS)
  }

  function UntestedNext(c: Config, s: State, a: Action): Option<State> {
    match a
    case LogAppend(p, i) => if CanAppendUntested(c, s, p, i) then Some(DoAppend(s, p, i)) else None
    case _ => Next(c, s, a)
  }

  function UntestedRun(c: Config, s: State, acts: seq<Action>): Option<State> {
    if acts == [] then Some(s)
    else
      match UntestedRun(c, s, acts[..|acts| - 1])
      case None => None
      case Some(t) => UntestedNext(c, t, acts[|acts| - 1])
  }

  ghost predicate UntestedReachable(c: Config, s: State) {
    exists p, acts :: UntestedRun(c, Initial(c, p), acts) == Some(s)
  }

  /** A run with the test under the lock is a run of the code. */
  lemma {:induction false} TestedRun(c: Config, s: State, acts: seq<Action>)
    ensures Run(c, s, acts).Some? ==> UntestedRun(c, s, acts) == Run(c, s, acts)
  {
    if acts != [] { TestedRun(c, s, acts[..|acts| - 1]); }
  }

  lemma TestedReachable(c: Config, s: State)
    requires Reachable(c, s)
    ensures UntestedReachable(c, s)
  {
    var p, acts :| Run(c, Initial(c, p), acts) == Some(s);
    TestedRun(c, Initial(c, p), acts);
  }

  // ---- enough room -------------------------------------------------------

  /** One step, in a reachable state of a log with room for LOGSIZE blocks. */
  lemma SameStep(c: Config, s: State, a: Action)
    requires Inv(c, s) && c.size > LOGSIZE
    ensures UntestedNext(c, s, a) == Next(c, s, a)
  {
    if a.LogAppend? && CanAppendUntested(c, s, a.p, a.i) && s.bufs[a.i].blockno !in s.lh {
      UnusedSplit(s.ops, a.p);
      assert Budgets(s.ops - {a.p});
      UnusedBounds(s.ops - {a.p});
    }
  }

  /** With room for LOGSIZE blocks every run of the code is a run in which the test holds at
      the append, so all that is proved of those holds of the code. */
  lemma {:induction false} RoomMakesTestStable(c: Config, p: Pid, acts: seq<Action>)
    requires ValidConfig(c) && c.size > LOGSIZE
    ensures UntestedRun(c, Initial(c, p), acts) == Run(c, Initial(c, p), acts)
  {
    if acts != [] {
      var before := acts[..|acts| - 1];
      RoomMakesTestStable(c, p, before);
      match Run(c, Initial(c, p), before)
      case None =>
      case Some(t) =>
        InitialInv(c, p);
        RunInv(c, Initial(c, p), before);
        SameStep(c, t, acts[|acts| - 1]);
    }
  }

  lemma RoomReachable(c: Config, s: State)
    requires ValidConfig(c) && c.size > LOGSIZE && UntestedReachable(c, s)
    ensures Reachable(c, s)
  {
    var p, acts :| UntestedRun(c, Initial(c, p), acts) == Some(s);
    RoomMakesTestStable(c, p, acts);
  }

  /** A region with no block beside the header: log_write always panics. */
  ghost predicate NeverPasses(s: State) {
    s.lh == [] && forall p | p in s.ops :: !s.ops[p].checked
  }

  lemma NeverPassesStep(c: Config, s: State, a: Action)
    requires Inv(c, s) && c.size == 1 && NeverPasses(s)
    ensures UntestedNext(c, s, a) == Next(c, s, a)
    ensures Next(c, s, a).Some? ==> NeverPasses(Next(c, s, a).value)
  {
    hide Buffers, Coherent, LogArea, Reserved, Whole;
    if Enabled(c, s, a) { StepInv(c, s, a); }
  }

  lemma {:induction false} NoRoomNoEntry(c: Config, p: Pid, acts: seq<Action>)
    requires ValidConfig(c) && c.size == 1
    ensures UntestedRun(c, Initial(c, p), acts) == Run(c, Initial(c, p), acts)
    ensures Run(c, Initial(c, p), acts).Some? ==> NeverPasses(Run(c, Initial(c, p), acts).value)
  {
    hide Inv, NeverPasses, Next, UntestedNext;
    if acts == [] {
      StartPasses(c, p);
    } else {
      var before := acts[..|acts| - 1];
      NoRoomNoEntry(c, p, before);
      match Run(c, Initial(c, p), before)
      case None =>
      case Some(t) =>
        InitialInv(c, p);
        RunInv(c, Initial(c, p), before);
        NeverPassesStep(c, t, acts[|acts| - 1]);
    }
  }

  lemma StartPasses(c: Config, p: Pid)
    ensures NeverPasses(Initial(c, p))
  {
  }

  // ---- too little room ---------------------------------------------------

  lemma UntestedStep(c: Config, s: State, a: Action, t: State)
    requires UntestedReachable(c, s) && UntestedNext(c, s, a) == Some(t)
    ensures UntestedReachable(c, t)
  {
    var p, acts :| UntestedRun(c, Initial(c, p), acts) == Some(s);
    assert (acts + [a])[..|acts + [a]| - 1] == acts;
    assert UntestedRun(c, Initial(c, p), acts + [a]) == Some(t);
  }

  lemma StepCheck(c: Config, s: State, p: Pid)
    requires UntestedReachable(c, s) && CanCheck(c, s, p)
    ensures UntestedReachable(c, DoCheck(s, p))
  {
    UntestedStep(c, s, LogCheck(p), DoCheck(s, p));
  }

  lemma StepAppend(c: Config, s: State, p: Pid, i: nat)
    requires UntestedReachable(c, s) && CanAppendUntested(c, s, p, i)
    ensures UntestedReachable(c, DoAppend(s, p, i))
  {
    UntestedStep(c, s, LogAppend(p, i), DoAppend(s, p, i));
  }

  lemma StepBegin(c: Config, s: State, p: Pid)
    requires UntestedReachable(c, s) && CanBegin(s, p)
    ensures UntestedReachable(c, DoBegin(s, p))
  {
    UntestedStep(c, s, Begin(p), DoBegin(s, p));
  }

  lemma StepClear(c: Config, s: State, i: nat, data: Block)
    requires UntestedReachable(c, s) && CanClear(c, s, i, data)
    ensures UntestedReachable(c, DoClear(c, s, i, data))
  {
    UntestedStep(c, s, ClearHead(i, data), DoClear(c, s, i, data));
  }

  lemma StepFinish(c: Config, s: State)
    requires UntestedReachable(c, s) && s.phase == Done
    ensures UntestedReachable(c, DoFinish(s))
  {
    UntestedStep(c, s, Finish, DoFinish(s));
  }

  /** recover_from_log with an empty log, its header in buffer 0. */
  lemma RecoverNothing(c: Config, s: State)
    requires UntestedReachable(c, s) && s.phase == Boot && c.start < |s.disk| && Holds(s, s.owner, 0)
    requires Cached(s, 0, c.start)
    requires HeadCount(s.bufs[0].data) == 0 && s.disk[c.start] == s.bufs[0].data && !s.bufs[0].dirty
    ensures UntestedReachable(c, s.(lh := [], phase := Idle, booting := false))
  {
    ReadNothing(c, s);
    ClearNothing(c, s.(lh := [], phase := Clear), s.bufs[0].data);
  }

  lemma ReadNothing(c: Config, s: State)
    requires UntestedReachable(c, s) && CanReadHead(c, s, 0) && HeadCount(s.bufs[0].data) == 0
    ensures UntestedReachable(c, s.(lh := [], phase := Clear))
  {
    UntestedStep(c, s, ReadHead(0), DoReadHead(s, 0));
    assert Head(s.bufs[0].data) == [];
    StepReset(c, s.(lh := [], phase := Install(0)));
  }

  lemma StepReset(c: Config, s: State)
    requires UntestedReachable(c, s) && CanReset(s)
    ensures UntestedReachable(c, s.(lh := [], phase := Clear))
  {
    UntestedStep(c, s, Reset, DoReset(s));
  }

  lemma ClearNothing(c: Config, s: State, data: Block)
    requires UntestedReachable(c, s) && CanClear(c, s, 0, data) && s.bufs[0].data == data == s.disk[c.start]
    requires !s.bufs[0].dirty
    ensures UntestedReachable(c, s.(phase := Idle, booting := false))
  {
    StepClear(c, s, 0, data);
    var t := DoClear(c, s, 0, data);
    assert t.disk == s.disk && t.bufs == s.bufs;
    StepFinish(c, t);
  }

  /** Buffer i, locked by p and read from block b. */
  function LoadedBuf(d: Disk, p: Pid, b: nat): Buf
    requires b < |d|
  {
    Buf(ROOTDEV, b, true, false, {p}, Some(p), d[b])
  }

  /** bread of a block that is in no buffer. */
  lemma Load(c: Config, s: State, p: Pid, i: nat, b: nat)
    requires UntestedReachable(c, s) && MayRun(s, p) && |s.disk| == |c.base| && i < |s.bufs| && b < |c.base|
    requires s.bufs[i].users == {} && s.bufs[i].holder == None && !s.bufs[i].dirty
    requires forall j | 0 <= j < |s.bufs| :: !Cached(s, j, b)
    ensures UntestedReachable(c, s.(bufs := s.bufs[i := LoadedBuf(s.disk, p, b)]))
  {
    var s1 := DoRecycle(s, p, i, b);
    UntestedStep(c, s, Recycle(p, i, b), s1);
    var s2 := DoLock(s1, p, i);
    UntestedStep(c, s1, Lock(p, i), s2);
    var s3 := DoReadIn(s2, i);
    UntestedStep(c, s2, ReadIn(p, i), s3);
    assert s3.bufs == s.bufs[i := LoadedBuf(s.disk, p, b)];
    assert s3 == s.(bufs := s.bufs[i := LoadedBuf(s.disk, p, b)]);
  }

  /** brelse. */
  lemma Release(c: Config, s: State, p: Pid, i: nat)
    requires UntestedReachable(c, s) && i < |s.bufs| && s.bufs[i].holder == Some(p) && s.bufs[i].users == {p}
    requires i !in s.touched
    ensures UntestedReachable(c, s.(bufs := s.bufs[i := s.bufs[i].(users := {}, holder := None)]))
  {
    var s1 := DoUnlock(s, i);
    UntestedStep(c, s, Unlock(p, i), s1);
    var s2 := DoPut(s1, p, i);
    UntestedStep(c, s1, Put(p, i), s2);
    assert {p} - {p} == {};
    assert s2.bufs == s.bufs[i := s.bufs[i].(users := {}, holder := None)];
  }

  /** The cache with the first n of the blocks h pinned; buffer 0 held the log header before. */
  function PinnedBufs(c: Config, h: seq<nat>, n: nat): (r: seq<Buf>)
    requires n <= |h| <= NBUF && c.start < |c.base| && forall k | 0 <= k < |h| :: h[k] < |c.base|
    ensures |r| == NBUF
  {
    seq(NBUF, k requires 0 <= k < NBUF =>
      if k < n then Buf(ROOTDEV, h[k], true, true, {}, None, c.base[h[k]])
      else if k == 0 then Buf(ROOTDEV, c.start, true, false, {}, None, c.base[c.start])
      else FreshBuf)
  }

  /** Processes 0, 1 and 2 are in an operation, have made n entries between them by turns and
      are not inside log_write. */
  ghost predicate Dealt(ops: map<Pid, Op>, n: nat) {
    ops.Keys == {0, 1, 2} && forall q | q in ops :: !ops[q].checked && 3 * ops[q].used <= n + 2 - q
  }

  /** The operations ops have logged the blocks h[..n], unchanged. */
  function Filled(c: Config, h: seq<nat>, n: nat, ops: map<Pid, Op>, ws: seq<Write>): State
    requires n <= |h| <= NBUF && c.start < |c.base| && forall k | 0 <= k < |h| :: h[k] < |c.base|
  {
    State(c.base, PinnedBufs(c, h, n), h[..n], Idle, false, 0, ops, 3, {}, ws, 0, 0)
  }

  /** Different home blocks to log. */
  ghost predicate Enough(c: Config, h: seq<nat>) {
    && ValidConfig(c) && 2 <= c.size && |h| <= LOGSIZE && Distinct(h)
    && forall k | 0 <= k < |h| :: Home(c, h[k])
  }

  lemma Booted(c: Config)
    requires ValidConfig(c)
    ensures UntestedReachable(c, State(c.base, PinnedBufs(c, [], 0), [], Idle, false, 0, map[], 0, {}, [], 0, 0))
  {
    var s0 := Initial(c, 0);
    assert UntestedRun(c, s0, []) == Some(s0);
    Load(c, s0, 0, 0, c.start);
    var s1 := s0.(bufs := s0.bufs[0 := LoadedBuf(c.base, 0, c.start)]);
    RecoverNothing(c, s1);
    var s2 := s1.(lh := [], phase := Idle, booting := false);
    Release(c, s2, 0, 0);
    assert s2.bufs[0 := s2.bufs[0].(users := {}, holder := None)] == PinnedBufs(c, [], 0);
  }

  lemma FilledStart(c: Config, h: seq<nat>) returns (ops: map<Pid, Op>)
    requires Enough(c, h)
    ensures Dealt(ops, 0) && UntestedReachable(c, Filled(c, h, 0, ops, []))
  {
    Booted(c);
    var s := State(c.base, PinnedBufs(c, [], 0), [], Idle, false, 0, map[], 0, {}, [], 0, 0);
    assert |s.ops| == 0;
    StepBegin(c, s, 0);
    var s1 := DoBegin(s, 0);
    StepBegin(c, s1, 1);
    var s2 := DoBegin(s1, 1);
    StepBegin(c, s2, 2);
    var s3 := DoBegin(s2, 2);
    ops := s3.ops;
    assert PinnedBufs(c, [], 0) == PinnedBufs(c, h, 0);
    assert s3 == Filled(c, h, 0, ops, []);
  }

  lemma NotCached(c: Config, h: seq<nat>, n: nat, ops: map<Pid, Op>, ws: seq<Write>, b: nat)
    requires Enough(c, h) && n <= |h| && Home(c, b) && b !in h[..n]
    ensures forall j | 0 <= j < NBUF :: !Cached(Filled(c, h, n, ops, ws), j, b)
  {
  }

  /** Whose turn it is, and that it has entries left. */
  lemma Turn(ops: map<Pid, Op>, n: nat) returns (q: Pid)
    requires Dealt(ops, n) && n < LOGSIZE
    ensures q in ops && ops[q].used < MAXOPBLOCKS && Dealt(ops[q := ops[q].(used := ops[q].used + 1)], n + 1)
  {
    var k := n / 3;
    q := n - 3 * k;
    var ops' := ops[q := ops[q].(used := ops[q].used + 1)];
    assert ops'.Keys == {0, 1, 2};
  }

  /** And that another one has, before the last. */
  lemma Another(ops: map<Pid, Op>, n: nat, q: Pid) returns (r: Pid)
    requires Dealt(ops, n) && n < LOGSIZE - 1 && q in ops
    ensures r in ops && q != r && ops[r].used < MAXOPBLOCKS
  {
    r := if q == 2 then 1 else 2;
  }

  /** log_write, test and append together, of a block not yet in the header. */
  lemma LogNew(c: Config, s: State, p: Pid, i: nat)
    requires UntestedReachable(c, s) && CanCheck(c, s, p) && Holds(s, p, i) && Home(c, s.bufs[i].blockno)
    requires s.bufs[i].blockno !in s.lh && s.ops[p].used < MAXOPBLOCKS && s.touched == {} && !s.ops[p].checked
    ensures UntestedReachable(c,
      s.(lh := s.lh + [s.bufs[i].blockno], bufs := s.bufs[i := s.bufs[i].(dirty := true)],
         ops := s.ops[p := s.ops[p].(used := s.ops[p].used + 1)],
         writes := s.writes + [Write(s.ops[p].id, s.bufs[i].blockno, s.bufs[i].data)]))
  {
    hide UntestedReachable;
    StepCheck(c, s, p);
    var s1 := DoCheck(s, p);
    StepAppend(c, s1, p, i);
    PutTwice(s.ops, p, s1.ops[p], s.ops[p].(used := s.ops[p].used + 1));
    assert {} - {i} == {};
  }

  lemma PutTwice(ops: map<Pid, Op>, p: Pid, a: Op, b: Op)
    ensures ops[p := a][p := b] == ops[p := b]
  {
  }

  /** One more block logged, with the size test passed just before. */
  lemma FilledMore(c: Config, h: seq<nat>, n: nat, ops: map<Pid, Op>, ws: seq<Write>, q: Pid,
                   ops': map<Pid, Op>) returns (ws': seq<Write>)
    requires Enough(c, h) && n < |h| && n + 1 < c.size && UntestedReachable(c, Filled(c, h, n, ops, ws))
    requires q in ops && ops[q].used < MAXOPBLOCKS && !ops[q].checked
    requires ops' == ops[q := ops[q].(used := ops[q].used + 1)]
    ensures UntestedReachable(c, Filled(c, h, n + 1, ops', ws'))
  {
    hide UntestedReachable;
    var s, b := Filled(c, h, n, ops, ws), h[n];
    NotCached(c, h, n, ops, ws, b);
    Load(c, s, q, n, b);
    var s1 := s.(bufs := s.bufs[n := LoadedBuf(c.base, q, b)]);
    LogNew(c, s1, q, n);
    ws' := s1.writes + [Write(s1.ops[q].id, s1.bufs[n].blockno, s1.bufs[n].data)];
    assert s1.bufs[n := s1.bufs[n].(dirty := true)] == s.bufs[n := LoadedBuf(c.base, q, b).(dirty := true)];
    FilledReleased(c, h, n, ops', ws', q);
  }

  /** ... and its buffer given back. */
  lemma FilledReleased(c: Config, h: seq<nat>, n: nat, ops: map<Pid, Op>, ws: seq<Write>, q: Pid)
    requires Enough(c, h) && n < |h|
    requires UntestedReachable(c, Filled(c, h, n, ops, ws).(lh := h[..n] + [h[n]],
        bufs := PinnedBufs(c, h, n)[n := LoadedBuf(c.base, q, h[n]).(dirty := true)]))
    ensures UntestedReachable(c, Filled(c, h, n + 1, ops, ws))
  {
    hide UntestedReachable;
    var s := Filled(c, h, n, ops, ws).(lh := h[..n] + [h[n]],
      bufs := PinnedBufs(c, h, n)[n := LoadedBuf(c.base, q, h[n]).(dirty := true)]);
    Release(c, s, q, n);
    var bufs := s.bufs[n := s.bufs[n].(users := {}, holder := None)];
    assert bufs == PinnedBufs(c, h, n + 1);
    assert h[..n] + [h[n]] == h[..n + 1];
  }

  lemma {:induction false} FilledUpTo(c: Config, h: seq<nat>, n: nat) returns (ops: map<Pid, Op>, ws: seq<Write>)
    requires Enough(c, h) && n <= |h| && n < c.size
    ensures Dealt(ops, n) && UntestedReachable(c, Filled(c, h, n, ops, ws))
  {
    if n == 0 {
      ops := FilledStart(c, h);
      ws := [];
    } else {
      ops, ws := FilledUpTo(c, h, n - 1);
      var q := Turn(ops, n - 1);
      var ops' := ops[q := ops[q].(used := ops[q].used + 1)];
      ws := FilledMore(c, h, n - 1, ops, ws, q, ops');
      ops := ops';
    }
  }

  /** Two processes with a buffer each, both past the test before either appends. */
  lemma BothAppend(c: Config, s: State, p: Pid, i: nat, q: Pid, j: nat) returns (t: State)
    requires UntestedReachable(c, s) && CanCheck(c, s, p) && CanCheck(c, s, q) && p != q && i != j
    requires Holds(s, p, i) && Holds(s, q, j) && Home(c, s.bufs[i].blockno) && Home(c, s.bufs[j].blockno)
    requires s.bufs[i].blockno != s.bufs[j].blockno && s.bufs[i].blockno !in s.lh && s.bufs[j].blockno !in s.lh
    requires s.ops[p].used < MAXOPBLOCKS && s.ops[q].used < MAXOPBLOCKS
    ensures UntestedReachable(c, t)
    ensures t == s.(lh := s.lh + [s.bufs[i].blockno, s.bufs[j].blockno], touched := s.touched - {i} - {j},
                    bufs := s.bufs[i := s.bufs[i].(dirty := true)][j := s.bufs[j].(dirty := true)],
                    ops := t.ops, writes := t.writes)
    ensures t.ops.Keys == s.ops.Keys
    ensures forall r | r in t.ops && (r == p || r == q || !s.ops[r].checked) :: !t.ops[r].checked
  {
    StepCheck(c, s, p);
    var s1 := DoCheck(s, p);
    StepCheck(c, s1, q);
    var s2 := DoCheck(s1, q);
    StepAppend(c, s2, p, i);
    var s3 := DoAppend(s2, p, i);
    StepAppend(c, s3, q, j);
    t := DoAppend(s3, q, j);
    assert s.lh + [s.bufs[i].blockno] + [s.bufs[j].blockno] == s.lh + [s.bufs[i].blockno, s.bufs[j].blockno];
  }

  /** Two processes pass the test with one place left, and both append. */
  lemma RaceOverruns(c: Config, h: seq<nat>) returns (s: State)
    requires Enough(c, h) && |h| == c.size
    ensures UntestedReachable(c, s) && |s.lh| == c.size && c.start + 1 + (|s.lh| - 1) >= c.start + c.size
  {
    var n := c.size - 2;
    var ops, ws := FilledUpTo(c, h, n);
    var s0 := Filled(c, h, n, ops, ws);
    var q := Turn(ops, n);
    var r := Another(ops, n, q);
    NotCached(c, h, n, ops, ws, h[n]);
    NotCached(c, h, n, ops, ws, h[n + 1]);
    Load(c, s0, q, n, h[n]);
    var s1 := s0.(bufs := s0.bufs[n := LoadedBuf(c.base, q, h[n])]);
    Load(c, s1, r, n + 1, h[n + 1]);
    var s2 := s1.(bufs := s1.bufs[n + 1 := LoadedBuf(c.base, r, h[n + 1])]);
    s := BothAppend(c, s2, q, n, r, n + 1);
  }

  // ---- the exact condition -----------------------------------------------

  lemma RoomFits(c: Config, s: State)
    requires ValidConfig(c) && (c.size == 1 || c.size > LOGSIZE) && UntestedReachable(c, s)
    ensures |s.lh| < c.size
  {
    var p, acts :| UntestedRun(c, Initial(c, p), acts) == Some(s);
    if c.size == 1 {
      NoRoomNoEntry(c, p, acts);
    } else {
      RoomReachable(c, s);
      LastFits(c, s);
    }
  }

  lemma LastFits(c: Config, s: State)
    requires Reachable(c, s)
    ensures |s.lh| < c.size
  {
    Reservations(c, s);
    if s.lh != [] { assert Home(c, s.lh[|s.lh| - 1]); }
  }

  /** The entries always fit the log region exactly when the region has room for LOGSIZE of
      them, or for none; mkfs makes it one block too small (mkfs.c:25). h is as many home
      blocks as the region has blocks, without which nothing could be logged. */
  lemma LogFitsExactly(c: Config, h: seq<nat>)
    requires ValidConfig(c) && (2 <= c.size <= LOGSIZE ==> Enough(c, h) && |h| == c.size)
    ensures (forall s | UntestedReachable(c, s) :: |s.lh| < c.size) <==> c.size == 1 || c.size > LOGSIZE
  {
    if c.size == 1 || c.size > LOGSIZE {
      forall s | UntestedReachable(c, s) ensures |s.lh| < c.size { RoomFits(c, s); }
    } else {
      var s := RaceOverruns(c, h);
    }
  }

  // ---- a transaction that fills the cache --------------------------------

  lemma StepEnd(c: Config, s: State, p: Pid)
    requires UntestedReachable(c, s) && CanEnd(s, p)
    ensures UntestedReachable(c, DoEnd(s, p))
  {
    UntestedStep(c, s, End(p), DoEnd(s, p));
  }

  /** Three operations that have made every entry they reserved end, one after the other. */
  lemma EndAll(c: Config, s: State) returns (t: State)
    requires UntestedReachable(c, s) && s.ops.Keys == {0, 1, 2} && s.phase == Idle && s.touched == {} && |s.lh| > 0
    requires forall q | q in s.ops :: !s.ops[q].checked
    ensures UntestedReachable(c, t) && t == s.(ops := map[], owner := 2, phase := Copy(0))
  {
    StepEnd(c, s, 0);
    var s1 := DoEnd(s, 0);
    assert 1 in s1.ops;
    StepEnd(c, s1, 1);
    var s2 := DoEnd(s1, 1);
    assert 2 in s2.ops;
    StepEnd(c, s2, 2);
    assert s2.ops - {2} == map[];
    t := DoEnd(s2, 2);
  }

  /** The cache with the first n of the blocks h pinned and those from there to m held, each by a
      process of its own outside any operation, as fileread does. */
  function HeldBufs(c: Config, h: seq<nat>, n: nat, m: nat): (r: seq<Buf>)
    requires n <= m <= |h| <= NBUF && c.start < |c.base| && forall k | 0 <= k < |h| :: h[k] < |c.base|
    ensures |r| == NBUF
  {
    seq(NBUF, k requires 0 <= k < NBUF =>
      if n <= k < m then LoadedBuf(c.base, 3 + k, h[k]) else PinnedBufs(c, h, n)[k])
  }

  lemma OneReader(c: Config, h: seq<nat>, n: nat, ops: map<Pid, Op>, ws: seq<Write>, m: nat)
    requires Enough(c, h) && 1 <= n <= m < |h|
    requires UntestedReachable(c, Filled(c, h, n, ops, ws).(bufs := HeldBufs(c, h, n, m)))
    ensures UntestedReachable(c, Filled(c, h, n, ops, ws).(bufs := HeldBufs(c, h, n, m + 1)))
  {
    hide UntestedReachable;
    var s := Filled(c, h, n, ops, ws).(bufs := HeldBufs(c, h, n, m));
    forall j | 0 <= j < NBUF ensures !Cached(s, j, h[m]) {}
    Load(c, s, 3 + m, m, h[m]);
    assert HeldBufs(c, h, n, m)[m := LoadedBuf(c.base, 3 + m, h[m])] == HeldBufs(c, h, n, m + 1);
  }

  lemma {:induction false} Readers(c: Config, h: seq<nat>, n: nat, ops: map<Pid, Op>, ws: seq<Write>, m: nat)
    requires Enough(c, h) && 1 <= n <= m <= |h| && UntestedReachable(c, Filled(c, h, n, ops, ws))
    ensures UntestedReachable(c, Filled(c, h, n, ops, ws).(bufs := HeldBufs(c, h, n, m)))
  {
    hide UntestedReachable;
    if m == n {
      assert HeldBufs(c, h, n, n) == PinnedBufs(c, h, n);
    } else {
      Readers(c, h, n, ops, ws, m - 1);
      OneReader(c, h, n, ops, ws, m - 1);
    }
  }

  /** Any thirty home blocks, some of them logged and the others each in use by a reader: the
      commit can neither find nor get a buffer for the first log block. This is the panic that
      Log.Commit reports; it takes as few as one logged block. */
  lemma FullCache(c: Config, h: seq<nat>, n: nat) returns (s: State)
    requires Enough(c, h) && 1 <= n <= |h| == NBUF && c.size > LOGSIZE
    ensures Reachable(c, s) && s.phase == Copy(0) && s.lh == h[..n]
    ensures NoBuffer(c, s, s.owner, c.start + 1)
  {
    hide UntestedReachable, Reachable;
    var ops, ws := FilledUpTo(c, h, n);
    Readers(c, h, n, ops, ws, NBUF);
    s := EndAll(c, Filled(c, h, n, ops, ws).(bufs := HeldBufs(c, h, n, NBUF)));
    RoomReachable(c, s);
    AllTaken(c, h, n, s, c.start + 1);
  }

  lemma AllTaken(c: Config, h: seq<nat>, n: nat, s: State, b: nat)
    requires Enough(c, h) && n <= |h| == NBUF && s.bufs == HeldBufs(c, h, n, NBUF) && !Home(c, b)
    ensures forall i: nat | i < |s.bufs| :: (s.bufs[i].users != {} || s.bufs[i].dirty) && !Cached(s, i, b)
  {
    forall i: nat | i < |s.bufs|
      ensures (s.bufs[i].users != {} || s.bufs[i].dirty) && !Cached(s, i, b)
    {
      assert s.bufs[i].blockno == h[i] && Home(c, h[i]);
      if i >= n { assert 3 + i in s.bufs[i].users; }
    }
  }
}
