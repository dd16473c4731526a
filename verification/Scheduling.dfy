/** No process starves: what aging and round robin promise together, for every run. */
module Scheduling {
  import opened Common
  import opened Process
  import opened Family

  // ---- stored times ------------------------------------------------------

  datatype Clock = InOrder | OutOfOrder

  /** Every stored time lies between power-on and now. */
  ghost function Times(t: Table): Clock {
    if |t.procs| == NPROC && forall k | 0 <= k < |t.procs| ::
         0 <= t.procs[k].preemption <= t.ticks && 0 <= t.procs[k].creation <= t.ticks
    then InOrder else OutOfOrder
  }

  /** A step changes a slot's times only to the present. */
  lemma StepTimes(t: Table, a: Action, u: Table, k: nat)
    requires Next(t, a) == Some(u) && k < |t.procs|
    ensures |u.procs| == |t.procs| && u.ticks >= t.ticks
    ensures u.procs[k].preemption == t.procs[k].preemption || u.procs[k].preemption == t.ticks
    ensures u.procs[k].creation == t.procs[k].creation || u.procs[k].creation == t.ticks
  {
  }

  lemma {:induction false} RunTimes(acts: seq<Action>)
    ensures Run(Initial(), acts).Some? ==> Times(Run(Initial(), acts).value).InOrder?
  {
    if acts != [] {
      RunTimes(acts[..|acts| - 1]);
      match Run(Initial(), acts[..|acts| - 1])
      case None =>
      case Some(t) => TimesStep(t, acts[|acts| - 1]);
    }
  }

  lemma TimesStep(t: Table, a: Action)
    requires Times(t).InOrder?
    ensures Next(t, a).Some? ==> Times(Next(t, a).value).InOrder?
  {
    match Next(t, a)
    case None =>
    case Some(u) =>
      assert |t.procs| > 0;
      StepTimes(t, a, u, 0);
      forall k | 0 <= k < |u.procs|
        ensures 0 <= u.procs[k].preemption <= u.ticks && 0 <= u.procs[k].creation <= u.ticks
      {
        StepTimes(t, a, u, k);
      }
  }

  /** With times in order round robin and last-come-first-serve pass nobody over; best-job-first
      passes over exactly the ranks of MAX_INT and more. */
  lemma NobodyPassedOver(t: Table, j: int)
    requires Times(t).InOrder?
    ensures InRR(t.procs, t.ticks, j) <==> Queued(t.procs, RR, j)
    ensures InLCFS(t.procs, j) <==> Queued(t.procs, LCFS, j)
    ensures InBJF(t.procs, j) <==> Queued(t.procs, BJF, j) && Rank(t.procs[j]) < MAX_INT
  {
  }

  /** The choice is unique. */
  lemma ChosenUnique(procs: seq<Proc>, now: int, i: int, j: int)
    requires Chosen(procs, now, i) && Chosen(procs, now, j)
    ensures i == j
  {
  }

  // ---- the wait in round robin is bounded --------------------------------

  /** Process i is runnable in RR, and the clock has moved on since it last ran. */
  ghost predicate Waiting(t: Table, i: nat) {
    Queued(t.procs, RR, i) && t.ticks > t.procs[i].preemption
  }

  /** The slots that may come before or tie with one last run at x. */
  ghost function Rivals(procs: seq<Proc>, x: int): set<nat> {
    set k: nat | k < |procs| && procs[k].preemption <= x
  }

  /** A step that neither dispatches i nor changes its queue leaves it waiting. */
  lemma StillWaiting(t: Table, a: Action, u: Table, i: nat)
    requires Next(t, a) == Some(u) && Waiting(t, i) && a != Dispatch(i) && !(a.SetQueue? && a.j == i)
    ensures Waiting(u, i) && u.procs[i].preemption == t.procs[i].preemption
  {
  }

  /** Whoever is dispatched instead of i was a rival, and is none afterwards. */
  lemma DispatchedRival(t: Table, j: nat, u: Table, i: nat)
    requires Next(t, Dispatch(j)) == Some(u) && Waiting(t, i) && j != i && Times(t).InOrder?
    ensures j < |t.procs| && t.procs[j].preemption <= t.procs[i].preemption < u.procs[j].preemption
  {
    NobodyPassedOver(t, i);
    assert FirstRR(t.procs, t.ticks, j);
  }

  lemma RivalsShrink(t: Table, a: Action, u: Table, i: nat)
    requires Next(t, a) == Some(u) && Waiting(t, i) && a != Dispatch(i) && !(a.SetQueue? && a.j == i)
    requires Times(t).InOrder?
    ensures i < |u.procs| && u.procs[i].preemption == t.procs[i].preemption
    ensures var x := t.procs[i].preemption;
      Rivals(u.procs, x) <= Rivals(t.procs, x)
        && (a.Dispatch? ==> a.j in Rivals(t.procs, x) && a.j !in Rivals(u.procs, x))
  {
    StillWaiting(t, a, u, i);
    forall k: nat | k < |u.procs|
      ensures u.procs[k].preemption == t.procs[k].preemption || u.procs[k].preemption == t.ticks
    {
      StepTimes(t, a, u, k);
    }
    if a.Dispatch? { DispatchedRival(t, a.j, u, i); }
  }

  ghost function Dispatches(acts: seq<Action>): nat {
    if acts == [] then 0 else Dispatches(acts[..|acts| - 1]) + if acts[|acts| - 1].Dispatch? then 1 else 0
  }

  /** Nothing in acts runs process i or sets its queue. */
  ghost predicate Overlooks(acts: seq<Action>, i: nat) {
    forall k | 0 <= k < |acts| :: acts[k] != Dispatch(i) && !(acts[k].SetQueue? && acts[k].j == i)
  }

  lemma {:induction false} BelowBound(s: set<nat>, n: nat)
    requires forall k | k in s :: k < n
    ensures |s| <= n
  {
    if n > 0 {
      BelowBound(s - {n - 1}, n - 1);
    } else {
      assert s == {};
    }
  }

  lemma StrictlySmaller(a: set<nat>, b: set<nat>, x: nat)
    requires a <= b && x in b && x !in a
    ensures |a| < |b|
  {
    SubsetSize(a, b - {x});
  }

  /** However the other processes run, fork, sleep, wake and change queues: each dispatch that
      passes i over costs it a rival. */
  lemma {:induction false} RivalsRunOut(t: Table, acts: seq<Action>, u: Table, i: nat)
    requires Times(t).InOrder? && Waiting(t, i) && Run(t, acts) == Some(u) && Overlooks(acts, i)
    ensures Times(u).InOrder? && Waiting(u, i) && u.procs[i].preemption == t.procs[i].preemption
    ensures Dispatches(acts) + |Rivals(u.procs, t.procs[i].preemption)| <= |Rivals(t.procs, t.procs[i].preemption)|
  {
    if acts != [] {
      var before, a := acts[..|acts| - 1], acts[|acts| - 1];
      var v := Run(t, before).value;
      RivalsRunOut(t, before, v, i);
      TimesStep(v, a);
      StillWaiting(v, a, u, i);
      RivalsShrink(v, a, u, i);
      var x := t.procs[i].preemption;
      SubsetSize(Rivals(u.procs, x), Rivals(v.procs, x));
      if a.Dispatch? { StrictlySmaller(Rivals(u.procs, x), Rivals(v.procs, x), a.j); }
    }
  }

  /** A process that is runnable in RR, once the clock has moved on since it last ran, is
      passed over by fewer than NPROC dispatches. */
  lemma StarvationBound(t: Table, acts: seq<Action>, u: Table, i: nat)
    requires Times(t).InOrder? && Waiting(t, i) && Run(t, acts) == Some(u) && Overlooks(acts, i)
    ensures Dispatches(acts) < NPROC
  {
    RivalsRunOut(t, acts, u, i);
    var x := t.procs[i].preemption;
    BelowBound(Rivals(t.procs, x), NPROC);
    assert i in Rivals(u.procs, x);
  }

  // ---- aging -------------------------------------------------------------

  /** A runnable process stays as it is until it is dispatched, whatever its queue. */
  lemma StillRunnable(t: Table, a: Action, u: Table, i: nat)
    requires Next(t, a) == Some(u) && Is(t, i, Runnable) && a != Dispatch(i)
    ensures Is(u, i, Runnable) && u.procs[i].preemption == t.procs[i].preemption
  {
  }

  lemma {:induction false} RunRunnable(t: Table, acts: seq<Action>, u: Table, i: nat)
    requires Times(t).InOrder? && Is(t, i, Runnable) && Run(t, acts) == Some(u) && Overlooks(acts, i)
    ensures Times(u).InOrder? && Is(u, i, Runnable) && u.procs[i].preemption == t.procs[i].preemption
    ensures u.ticks >= t.ticks
  {
    if acts != [] {
      var before, a := acts[..|acts| - 1], acts[|acts| - 1];
      var v := Run(t, before).value;
      RunRunnable(t, before, v, i);
      TimesStep(v, a);
      StillRunnable(v, a, u, i);
      StepTimes(v, a, u, i);
    }
  }

  /** A process runnable in any queue that aging finds overdue, and that aging's unlocked write
      then reaches, runs within NPROC dispatches of that write, whatever happens in between. */
  lemma NoStarvation(t: Table, between: seq<Action>, u: Table, after: seq<Action>, w: Table, i: nat)
    requires Times(t).InOrder? && Overdue(t, i)
    requires Run(t, [AgeTest(i)] + between) == Some(u) && Overlooks(between, i)
    requires Next(u, AgeSet(i)).Some? && Run(Next(u, AgeSet(i)).value, after) == Some(w) && Overlooks(after, i)
    ensures Dispatches(after) < NPROC
  {
    RunRunnable(t, [AgeTest(i)] + between, u, i);
    TimesStep(u, AgeSet(i));
    StarvationBound(Next(u, AgeSet(i)).value, after, w, i);
  }

  // ---- why the clock has to move on --------------------------------------

  /** Two processes in RR that both last ran in the current tick, the first of them running. */
  function Tied(cycle: real): Table {
    Table([Proc(Running, 1, None, None, NoChan, false, RR, 0, 0, NewJob.(cycle := cycle)),
           Proc(Runnable, 2, Some(0), None, NoChan, false, RR, 0, 0, NewJob)]
          + seq(NPROC - 2, _ => NoProc), 3, 0, {}, [])
  }

  lemma RunExtend(t0: Table, acts: seq<Action>, t: Table, a: Action, u: Table)
    requires Run(t0, acts) == Some(t) && Next(t, a) == Some(u)
    ensures Run(t0, acts + [a]) == Some(u)
  {
    assert (acts + [a])[..|acts + [a]| - 1] == acts;
  }

  /** The three sections of a fork, run without interruption. */
  lemma ForkSteps(t0: Table, acts: seq<Action>, t: Table, b: nat, j: nat, child: Proc) returns (more: seq<Action>)
    requires Run(t0, acts) == Some(t) && Is(t, b, Running) && t.procs[b].making == None && Is(t, j, Unused) && b != j
    requires child == t.procs[j].(mode := Runnable, pid := t.nextpid, parent := Some(b),
                                  que := if t.nextpid == 2 then RR else LCFS, creation := t.ticks,
                                  preemption := t.ticks, job := NewJob.(sz := t.procs[b].job.sz))
    ensures Run(t0, more) == Some(Put(t, j, child).(nextpid := t.nextpid + 1))
  {
    hide Run;
    var t1 := Forking(t, b, j);
    RunExtend(t0, acts, t, Alloc(b, j), t1);
    var t2 := Put(t1, j, t1.procs[j].(parent := Some(b), job := t1.procs[j].job.(sz := t1.procs[b].job.sz)));
    RunExtend(t0, acts + [Alloc(b, j)], t1, Adopt(b), t2);
    var t3 := Next(t2, Start(b)).value;
    RunExtend(t0, acts + [Alloc(b, j)] + [Adopt(b)], t2, Start(b), t3);
    more := acts + [Alloc(b, j)] + [Adopt(b)] + [Start(b)];
    assert t3.procs == Put(t, j, child).procs;
  }

  /** After allocproc. */
  function Forking(t: Table, b: nat, j: nat): (u: Table)
    requires b < |t.procs| && j < |t.procs| && b != j
  {
    var t1 := Put(t, j, t.procs[j].(mode := Embryo, pid := t.nextpid, que := if t.nextpid == 2 then RR else LCFS,
                                    job := NewJob.(sz := t.procs[j].job.sz)));
    Put(t1, b, t1.procs[b].(making := Some(j))).(nextpid := t.nextpid + 1)
  }

  /** init runs and forks, within the first tick. */
  lemma TiedReachable() returns (acts: seq<Action>, cycle: real)
    ensures Run(Initial(), acts) == Some(Tied(cycle))
  {
    var t0 := Initial();
    cycle := 0.1 + 0.1;
    assert FirstRR(t0.procs, 0, 0);
    var t1 := Put(t0, 0, Proc(Running, 1, None, None, NoChan, false, RR, 0, 0, NewJob.(cycle := cycle)));
    RunExtend(t0, [], t0, Dispatch(0), t1);
    var child := Proc(Runnable, 2, Some(0), None, NoChan, false, RR, 0, 0, NewJob);
    acts := ForkSteps(t0, [] + [Dispatch(0)], t1, 0, 1, child);
    assert Put(t1, 1, child).procs == Tied(cycle).procs;
  }

  /** Slot 0 is runnable in RR and so is i, which last ran in the current tick; nobody else is. */
  ghost predicate Outranked(t: Table, i: nat) {
    && Times(t).InOrder? && 0 < i < |t.procs| && Queued(t.procs, RR, 0) && Queued(t.procs, RR, i)
    && t.procs[i].preemption == t.ticks
    && forall k | 0 < k < |t.procs| && k != i :: !Queued(t.procs, RR, k)
  }

  /** A round in which slot 0 wins the tie and yields. */
  lemma TieRound(t: Table, i: nat) returns (u: Table, v: Table)
    requires Outranked(t, i)
    ensures Next(t, Dispatch(0)) == Some(u) && Next(u, Yield(0)) == Some(v) && Outranked(v, i)
  {
    assert FirstRR(t.procs, t.ticks, 0);
    u := Next(t, Dispatch(0)).value;
    v := Next(u, Yield(0)).value;
    TimesStep(t, Dispatch(0));
    TimesStep(u, Yield(0));
  }

  lemma {:induction false} TieRounds(t0: Table, acts: seq<Action>, t: Table, i: nat, n: nat)
      returns (more: seq<Action>, u: Table)
    requires Run(t0, acts) == Some(t) && Overlooks(acts, i) && Outranked(t, i)
    ensures Run(t0, more) == Some(u) && Overlooks(more, i) && Outranked(u, i) && Dispatches(more) >= n
  {
    if n == 0 {
      more, u := acts, t;
    } else {
      var before, v := TieRounds(t0, acts, t, i, n - 1);
      var w, x := TieRound(v, i);
      RunExtend(t0, before, v, Dispatch(0), w);
      RunExtend(t0, before + [Dispatch(0)], w, Yield(0), x);
      Longer(before, Dispatch(0));
      Longer(before + [Dispatch(0)], Yield(0));
      more, u := before + [Dispatch(0)] + [Yield(0)], x;
    }
  }

  lemma Longer(acts: seq<Action>, a: Action)
    ensures Dispatches(acts + [a]) == Dispatches(acts) + if a.Dispatch? then 1 else 0
  {
    assert (acts + [a])[..|acts|] == acts;
  }

  /** One more action that overlooks i. */
  lemma RunOn(t0: Table, acts: seq<Action>, t: Table, a: Action, u: Table, i: nat)
    requires Run(t0, acts) == Some(t) && Next(t, a) == Some(u) && Times(t).InOrder? && Overlooks(acts, i)
    requires Overlooks([a], i)
    ensures Run(t0, acts + [a]) == Some(u) && Times(u).InOrder? && Overlooks(acts + [a], i)
  {
    assert [a][0] == a;
    RunExtend(t0, acts, t, a, u);
    TimesStep(t, a);
  }

  /** init, which is always alive, is woken or made to yield. */
  lemma InitWakes(t: Table, i: nat) returns (acts: seq<Action>, u: Table)
    requires Household(t).Kept? && Times(t).InOrder? && i != INIT && i < |t.procs|
    ensures Run(t, acts) == Some(u) && Overlooks(acts, i) && Times(u).InOrder?
    ensures u.ticks == t.ticks && Is(u, 0, Runnable) && u.procs[i] == t.procs[i]
  {
    hide Run;
    assert Run(t, []) == Some(t) by { RunNothing(t); }
    if t.procs[0].mode == Running {
      u := Put(t, 0, t.procs[0].(mode := Runnable, preemption := t.ticks, job := Cycled(t.procs[0].job)));
      acts := [] + [Yield(0)];
      RunOn(t, [], t, Yield(0), u, i);
    } else if t.procs[0].mode == Sleeping {
      u := t.(procs := Killed(t.procs, 1));
      acts := [] + [Kill(1)];
      RunOn(t, [], t, Kill(1), u, i);
    } else {
      acts, u := [], t;
    }
  }

  lemma RunNothing(t: Table)
    ensures Run(t, []) == Some(t)
  {
  }

  /** A process other than i changes its queue. */
  lemma Requeue(t0: Table, acts: seq<Action>, t: Table, i: nat, k: nat, q: int) returns (u: Table)
    requires Run(t0, acts) == Some(t) && Overlooks(acts, i) && Times(t).InOrder? && k < |t.procs| && k != i
    ensures u == Put(t, k, t.procs[k].(que := q))
    ensures Run(t0, acts + [SetQueue(k, q)]) == Some(u) && Overlooks(acts + [SetQueue(k, q)], i) && Times(u).InOrder?
  {
    u := Put(t, k, t.procs[k].(que := q));
    RunOn(t0, acts, t, SetQueue(k, q), u, i);
  }

  /** The others change to a queue the scheduler does not look at. */
  lemma {:induction false} OthersLeave(t0: Table, acts: seq<Action>, t: Table, i: nat, n: nat)
      returns (more: seq<Action>, u: Table)
    requires Run(t0, acts) == Some(t) && Overlooks(acts, i) && Times(t).InOrder? && 0 < i < |t.procs| && n <= |t.procs|
    ensures Run(t0, more) == Some(u) && Overlooks(more, i) && Times(u).InOrder?
    ensures |u.procs| == |t.procs| && u.ticks == t.ticks && u.procs[0] == t.procs[0] && u.procs[i] == t.procs[i]
    ensures forall k | 0 < k < n && k != i :: !Queued(u.procs, RR, k)
  {
    hide Run, Times, Overlooks;
    if n == 0 {
      more, u := acts, t;
    } else {
      more, u := OthersLeave(t0, acts, t, i, n - 1);
      var k := n - 1;
      if k != 0 && k != i {
        var v := Requeue(t0, more, u, i, k, 0);
        forall m | 0 < m < n && m != i ensures !Queued(v.procs, RR, m) { assert m < k ==> !Queued(u.procs, RR, m); }
        more, u := more + [SetQueue(k, 0)], v;
      }
    }
  }

  /** Within the tick in which it last ran, any process but init can be passed over any number
      of times. */
  lemma TieStarves(t: Table, i: nat, n: nat) returns (acts: seq<Action>, u: Table)
    requires Household(t).Kept? && Times(t).InOrder? && i != INIT && Queued(t.procs, RR, i)
    requires t.procs[i].preemption == t.ticks
    ensures Run(t, acts) == Some(u) && Overlooks(acts, i) && Dispatches(acts) >= n
  {
    hide Run, Overlooks;
    var woken, v := InitWakes(t, i);
    var w := Requeue(t, woken, v, i, 0, RR);
    var alone, x := OthersLeave(t, woken + [SetQueue(0, RR)], w, i, NPROC);
    acts, u := TieRounds(t, alone, x, i, n);
  }

  // ---- init wins every tie -----------------------------------------------

  /** The slots that come before slot 0 in RR. */
  ghost function Earlier(procs: seq<Proc>, x: int): set<nat> {
    set k: nat | k < |procs| && procs[k].preemption < x
  }

  lemma EarlierShrink(t: Table, a: Action, u: Table)
    requires Next(t, a) == Some(u) && Queued(t.procs, RR, 0) && a != Dispatch(0) && !(a.SetQueue? && a.j == 0)
    requires Times(t).InOrder?
    ensures Queued(u.procs, RR, 0) && u.procs[0].preemption == t.procs[0].preemption
    ensures var x := t.procs[0].preemption;
      Earlier(u.procs, x) <= Earlier(t.procs, x)
        && (a.Dispatch? ==> a.j in Earlier(t.procs, x) && a.j !in Earlier(u.procs, x))
  {
    StillRunnable(t, a, u, 0);
    forall k: nat | k < |u.procs|
      ensures u.procs[k].preemption == t.procs[k].preemption || u.procs[k].preemption == t.ticks
    {
      StepTimes(t, a, u, k);
    }
    if a.Dispatch? {
      NobodyPassedOver(t, 0);
      assert FirstRR(t.procs, t.ticks, a.j);
    }
  }

  lemma {:induction false} EarlierRunOut(t: Table, acts: seq<Action>, u: Table)
    requires Times(t).InOrder? && Queued(t.procs, RR, 0) && Run(t, acts) == Some(u) && Overlooks(acts, 0)
    ensures Times(u).InOrder? && Queued(u.procs, RR, 0) && u.procs[0].preemption == t.procs[0].preemption
    ensures Dispatches(acts) + |Earlier(u.procs, t.procs[0].preemption)| <= |Earlier(t.procs, t.procs[0].preemption)|
  {
    if acts != [] {
      var before, a := acts[..|acts| - 1], acts[|acts| - 1];
      var v := Run(t, before).value;
      EarlierRunOut(t, before, v);
      TimesStep(v, a);
      EarlierShrink(v, a, u);
      var x := t.procs[0].preemption;
      SubsetSize(Earlier(u.procs, x), Earlier(v.procs, x));
      if a.Dispatch? { StrictlySmaller(Earlier(u.procs, x), Earlier(v.procs, x), a.j); }
    }
  }

  lemma InitBound(t: Table, acts: seq<Action>, u: Table)
    requires Times(t).InOrder? && Queued(t.procs, RR, INIT) && Run(t, acts) == Some(u) && Overlooks(acts, INIT)
    ensures Dispatches(acts) < NPROC
  {
    EarlierRunOut(t, acts, u);
    var x := t.procs[0].preemption;
    BelowBound(Earlier(t.procs, x) + {0}, NPROC);
    StrictlySmaller(Earlier(t.procs, x), Earlier(t.procs, x) + {0}, 0);
  }

  // ---- the exact condition -----------------------------------------------

  /** However the others run, process i is passed over by fewer than NPROC dispatches. */
  ghost predicate Bounded(t: Table, i: nat) {
    forall acts, u | Run(t, acts) == Some(u) && Overlooks(acts, i) :: Dispatches(acts) < NPROC
  }

  /** A process runnable in RR is passed over by fewer than NPROC dispatches, whatever happens, if
      and only if the clock has moved on since it last ran or it is init. */
  lemma StarvationExactly(t: Table, i: nat)
    requires Household(t).Kept? && Times(t).InOrder? && Queued(t.procs, RR, i)
    ensures Bounded(t, i) <==> t.ticks > t.procs[i].preemption || i == INIT
  {
    if t.ticks > t.procs[i].preemption {
      forall acts, u | Run(t, acts) == Some(u) && Overlooks(acts, i)
        ensures Dispatches(acts) < NPROC
      {
        StarvationBound(t, acts, u, i);
      }
    } else if i == INIT {
      forall acts, u | Run(t, acts) == Some(u) && Overlooks(acts, i)
        ensures Dispatches(acts) < NPROC
      {
        InitBound(t, acts, u);
      }
    } else {
      var acts, u := TieStarves(t, i, NPROC);
    }
  }

  // ---- nobody to run -----------------------------------------------------

  /** The scheduler idles while a process is runnable: a child of init moved to BJF with a rank
      of MAX_INT or more, and init asleep in wait. */
  lemma IdleReachable() returns (t: Table)
    ensures Reachable(t) && Queued(t.procs, BJF, 1) && Rank(t.procs[1]) >= MAX_INT
    ensures forall j :: !Chosen(t.procs, t.ticks, j)
  {
    hide Run;
    var acts, cycle := TiedReachable();
    var t0, t1, job := Initial(), Tied(cycle), NewJob.(sz := 10000);
    var t2 := Put(t1, 1, t1.procs[1].(que := BJF));
    RunExtend(t0, acts, t1, SetQueue(1, BJF), t2);
    var t3 := Put(t2, 1, t2.procs[1].(job := job));
    RunExtend(t0, acts + [SetQueue(1, BJF)], t2, SetJob(1, job), t3);
    t := InitWaits(t0, acts + [SetQueue(1, BJF)] + [SetJob(1, job)], t3);
    assert Run(t0, acts + [SetQueue(1, BJF)] + [SetJob(1, job)] + [WaitSleep(0)]) == Some(t);
  }

  lemma InitWaits(t0: Table, acts: seq<Action>, t: Table) returns (u: Table)
    requires Run(t0, acts) == Some(t) && Is(t, 0, Running) && t.procs[0].making == None && !t.procs[0].killed
    requires 1 < |t.procs| && t.procs[1].parent == Some(0) && !HasZombie(t.procs, 0)
    ensures u == Put(t, 0, t.procs[0].(mode := Sleeping, chan := OnProc(0)))
    ensures Run(t0, acts + [WaitSleep(0)]) == Some(u)
  {
    u := Put(t, 0, t.procs[0].(mode := Sleeping, chan := OnProc(0)));
    assert HasChild(t.procs, 0);
    RunExtend(t0, acts, t, WaitSleep(0), u);
  }
}
