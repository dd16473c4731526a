/** The life of one slot of the process table: which step moves it from which state to which, and
    that its times are those of its last turn and its start. */
module Lifecycle {
  import opened Common
  import opened Process
  import opened Wakeups

  /** The step is fork's last section, for the child k. */
  ghost predicate Starts(t: Table, a: Action, k: nat) {
    a.Start? && a.by_ < |t.procs| && t.procs[a.by_].making == Some(k)
  }

  /** The step is a failed fork's return of the child k. */
  ghost predicate GivesUp(t: Table, a: Action, k: nat) {
    a.Abandon? && a.by_ < |t.procs| && t.procs[a.by_].making == Some(k)
  }

  /** The step for which a slot of mode m moves on, and where to. */
  ghost function After(t: Table, a: Action, k: nat): Mode
    requires k < |t.procs|
  {
    match t.procs[k].mode
    case Unused => if a.Alloc? && a.j == k then Embryo else Unused
    case Embryo => if Starts(t, a, k) then Runnable else if GivesUp(t, a, k) then Unused else Embryo
    case Runnable => if a == Dispatch(k) then Running else Runnable
    case Running =>
      if a == Yield(k) then Runnable
      else if a == WaitSleep(k) || (a.Sleep? && a.j == k) then Sleeping
      else if a == Exit(k) then Zombie
      else Running
    case Sleeping => if Rouses(t, a, k) then Runnable else Sleeping
    case Zombie => if a.Reap? && a.k == k then Unused else Zombie
  }

  /** Every step there is moves every slot as the life of a process has it. */
  lemma LifeStep(t: Table, a: Action, u: Table, k: nat)
    requires Next(t, a) == Some(u) && k < |t.procs|
    ensures |u.procs| == |t.procs| && u.procs[k].mode == After(t, a, k)
  {
    hide Next, After, Rouses;
    if Is(t, k, Sleeping) {
      SleepEnds(t, a, u, k);
      AfterSleep(t, a, k);
    } else if a.Alloc? || a.Abandon? || a.Adopt? || a.Start? {
      ForkStep(t, a, u, k);
    } else {
      PlainStep(t, a, u, k);
    }
  }

  lemma AfterSleep(t: Table, a: Action, k: nat)
    requires Is(t, k, Sleeping)
    ensures k < |t.procs| && After(t, a, k) == if Rouses(t, a, k) then Runnable else Sleeping
  {
  }

  lemma ForkStep(t: Table, a: Action, u: Table, k: nat)
    requires Next(t, a) == Some(u) && k < |t.procs| && !Is(t, k, Sleeping)
    requires a.Alloc? || a.Abandon? || a.Adopt? || a.Start?
    ensures |u.procs| == |t.procs| && u.procs[k].mode == After(t, a, k)
  {
    hide Exited, Killed, HasChild, HasZombie, Chosen, Rouses, AllWoken;
  }

  lemma PlainStep(t: Table, a: Action, u: Table, k: nat)
    requires Next(t, a) == Some(u) && k < |t.procs| && !Is(t, k, Sleeping)
    requires !a.Alloc? && !a.Abandon? && !a.Adopt? && !a.Start?
    ensures |u.procs| == |t.procs| && u.procs[k].mode == After(t, a, k)
  {
    hide Exited, Killed, HasChild, HasZombie, Chosen, Rouses, Starts, GivesUp;
    NoFork(t, a, k);
    match a
    case Kill(pid) => KillMeans(t.procs, pid, k);
    case Exit(j) => ExitMeans(t.procs, j, k);
    case Dispatch(j) => ChosenRunnable(t.procs, t.ticks, j);
    case _ =>
  }

  lemma NoFork(t: Table, a: Action, k: nat)
    requires !a.Abandon? && !a.Start?
    ensures !Starts(t, a, k) && !GivesUp(t, a, k)
  {
  }

  lemma ChosenRunnable(procs: seq<Proc>, now: int, j: int)
    requires Chosen(procs, now, j)
    ensures 0 <= j < |procs| && procs[j].mode == Runnable
  {
  }

  /** Slot k comes to the CPU, gives it up by yielding, or is started. */
  ghost predicate Turn(t: Table, a: Action, k: nat) {
    a == Dispatch(k) || a == Yield(k) || Starts(t, a, k)
  }

  lemma TimeStep(t: Table, a: Action, u: Table, k: nat)
    requires Next(t, a) == Some(u) && k < |t.procs|
    ensures |u.procs| == |t.procs| && u.ticks == t.ticks + if a.Tick? then 1 else 0
    ensures u.procs[k].preemption == if Turn(t, a, k) then t.ticks else t.procs[k].preemption
    ensures u.procs[k].creation == if Starts(t, a, k) then t.ticks else t.procs[k].creation
  {
    hide Exited, Killed, HasChild, HasZombie, Chosen;
    match a
    case Kill(pid) => KillMeans(t.procs, pid, k);
    case Exit(j) => ExitMeans(t.procs, j, k);
    case Dispatch(j) => ChosenRunnable(t.procs, t.ticks, j);
    case _ =>
  }

  /** A slot's queue is set by allocproc, to 1 for pid 2 and else to 2, by aging, to 1, and by
      change_queue; nothing else touches it. */
  lemma QueueStep(t: Table, a: Action, u: Table, k: nat)
    requires Next(t, a) == Some(u) && k < |t.procs|
    ensures |u.procs| == |t.procs|
    ensures u.procs[k].que ==
      if a.Alloc? && a.j == k then if t.nextpid == 2 then 1 else 2
      else if a == AgeSet(k) then 1
      else if a.SetQueue? && a.j == k then a.q
      else t.procs[k].que
  {
    hide Exited, Killed, HasChild, HasZombie, Chosen;
    match a
    case Kill(pid) => KillMeans(t.procs, pid, k);
    case Exit(j) => ExitMeans(t.procs, j, k);
    case Dispatch(j) => ChosenRunnable(t.procs, t.ticks, j);
    case _ =>
  }

  /** A pid is given by allocproc, in turn, and taken by wait; a parent is set by fork, changed to
      init by the parent's exit, and taken by wait. */
  lemma KinStep(t: Table, a: Action, u: Table, k: nat)
    requires Next(t, a) == Some(u) && k < |t.procs|
    ensures |u.procs| == |t.procs| && u.nextpid == t.nextpid + if a.Alloc? then 1 else 0
    ensures u.procs[k].pid ==
      if a.Alloc? && a.j == k then t.nextpid else if a.Reap? && a.k == k then 0 else t.procs[k].pid
    ensures u.procs[k].parent ==
      if a.Adopt? && t.procs[a.by_].making == Some(k) then Some(a.by_)
      else if a.Reap? && a.k == k then None
      else if a.Exit? && t.procs[k].parent == Some(a.j) then Some(0)
      else t.procs[k].parent
  {
    hide Exited, Killed, HasChild, HasZombie, Chosen;
    match a
    case Kill(pid) => KillMeans(t.procs, pid, k);
    case Exit(j) => ExitMeans(t.procs, j, k);
    case Dispatch(j) => ChosenRunnable(t.procs, t.ticks, j);
    case _ =>
  }

  function Ticks(acts: seq<Action>): nat {
    if acts == [] then 0 else Ticks(acts[..|acts| - 1]) + if acts[|acts| - 1].Tick? then 1 else 0
  }

  ghost predicate TurnAt(t: Table, acts: seq<Action>, n: nat, k: nat) {
    n < |acts| && Run(t, acts[..n]).Some? && Turn(Run(t, acts[..n]).value, acts[n], k)
  }

  /** The clock counts the ticks of a run, and no slot is added or lost. */
  lemma {:induction false} RunClock(t: Table, acts: seq<Action>)
    requires Run(t, acts).Some?
    ensures Run(t, acts).value.ticks == t.ticks + Ticks(acts) && |Run(t, acts).value.procs| == |t.procs|
  {
    if acts != [] {
      var before, last := acts[..|acts| - 1], acts[|acts| - 1];
      RunClock(t, before);
      var u, v := Run(t, before).value, Run(t, acts).value;
      if u.procs != [] { TimeStep(u, last, v, 0); }
    }
  }

  /** In every run what round_robin compares is when the process last had a turn. */
  lemma {:induction false} LastTurn(t: Table, acts: seq<Action>, n: nat, k: nat)
    requires Run(t, acts).Some? && k < |t.procs| && TurnAt(t, acts, n, k)
    requires forall m: nat | n < m < |acts| :: !TurnAt(t, acts, m, k)
    ensures |Run(t, acts).value.procs| == |t.procs|
    ensures Run(t, acts).value.procs[k].preemption == t.ticks + Ticks(acts[..n])
    decreases |acts|
  {
    var last := |acts| - 1;
    var before := acts[..last];
    RunClock(t, acts);
    RunClock(t, before);
    TimeStep(Run(t, before).value, acts[last], Run(t, acts).value, k);
    if n < last {
      forall m: nat | n < m < |before| ensures !TurnAt(t, before, m, k) {
        assert before[..m] == acts[..m];
        assert !TurnAt(t, acts, m, k);
      }
      assert before[..n] == acts[..n];
      assert TurnAt(t, before, n, k);
      LastTurn(t, before, n, k);
      assert !TurnAt(t, acts, last, k);
    }
  }
}
