/** Who sleeps and who is woken in the process table of proc.c, and what best-job-first charges a
    process for. */
module Wakeups {
  import opened Common
  import opened Process

  /** The exit of slot j is what a sleeper on c waits for: a child of c's process is gone, or init
      inherits a zombie. */
  ghost predicate Awaits(procs: seq<Proc>, j: nat, c: Chan)
    requires j < |procs|
  {
    || (procs[j].parent.Some? && c == OnProc(procs[j].parent.value))
    || (c == OnProc(0) && exists k | 0 <= k < |procs| :: procs[k].parent == Some(j) && procs[k].mode == Zombie)
  }

  /** Exit makes j a zombie, gives its children to init, wakes whoever waits for that, and leaves
      everything else alone. */
  lemma ExitMeans(procs: seq<Proc>, j: nat, k: nat)
    requires j < |procs| && k < |procs|
    ensures var p, q := procs[k], Exited(procs, j)[k];
      && q == p.(mode := q.mode, parent := q.parent)
      && q.parent == (if p.parent == Some(j) then Some(0) else p.parent)
      && q.mode == if k == j then Zombie
                   else if p.mode == Sleeping && Awaits(procs, j, p.chan) then Runnable
                   else p.mode
  {
    assert HasZombie(procs, j) <==>
      exists i | 0 <= i < |procs| :: procs[i].parent == Some(j) && procs[i].mode == Zombie;
  }

  /** Slot k is the one kill(pid) finds. */
  ghost predicate Named(procs: seq<Proc>, pid: nat, k: nat) {
    k < |procs| && procs[k].pid == pid && forall i | 0 <= i < k :: procs[i].pid != pid
  }

  lemma KillMeans(procs: seq<Proc>, pid: nat, k: nat)
    requires k < |procs|
    ensures var p, q := procs[k], Killed(procs, pid)[k];
      q == if !Named(procs, pid, k) then p
           else if p.mode == Sleeping then p.(killed := true, mode := Runnable)
           else p.(killed := true)
  {
    if Named(procs, pid, k) { assert SlotOf(procs, pid) == k; }
  }

  /** After wakeup nobody sleeps on the channel, its sleepers are as they were but runnable, and
      nobody else has changed. */
  lemma WakeupMeans(t: Table, addr: nat, u: Table)
    requires Next(t, Wakeup(addr)) == Some(u)
    ensures |u.procs| == |t.procs| && u == t.(procs := u.procs)
    ensures forall k | 0 <= k < |t.procs| ::
      && !(u.procs[k].mode == Sleeping && u.procs[k].chan == OnAddr(addr))
      && u.procs[k] == if t.procs[k].mode == Sleeping && t.procs[k].chan == OnAddr(addr)
                       then t.procs[k].(mode := Runnable) else t.procs[k]
  {
  }

  /** What ends the sleep of slot k, given what it sleeps on. */
  ghost predicate Rouses(t: Table, a: Action, k: nat)
    requires k < |t.procs|
  {
    match a
    case Wakeup(addr) => t.procs[k].chan == OnAddr(addr)
    case WakeOne(j) => j == k
    case Kill(pid) => Named(t.procs, pid, k)
    case Exit(j) => j < |t.procs| && Awaits(t.procs, j, t.procs[k].chan)
    case _ => false
  }

  /** A process stays asleep until a step that rouses it; then it is runnable at once, and has its
      pid, channel, queue and job still. */
  lemma SleepEnds(t: Table, a: Action, u: Table, k: nat)
    requires Next(t, a) == Some(u) && Is(t, k, Sleeping)
    ensures |u.procs| == |t.procs|
    ensures u.procs[k].mode == if Rouses(t, a, k) then Runnable else Sleeping
    ensures u.procs[k].chan == t.procs[k].chan && u.procs[k].pid == t.procs[k].pid
  {
    hide Exited, Killed, HasChild, HasZombie, Rank;
    match a
    case Kill(pid) => KillMeans(t.procs, pid, k);
    case Exit(j) => ExitMeans(t.procs, j, k);
    case _ =>
  }

  /** A process falls asleep only by its own step. */
  lemma SleepBegins(t: Table, a: Action, u: Table, k: nat)
    requires Next(t, a) == Some(u) && k < |t.procs| && !Is(t, k, Sleeping)
    ensures |u.procs| == |t.procs|
    ensures u.procs[k].mode == Sleeping <==> a == WaitSleep(k) || (a.Sleep? && a.j == k)
    ensures u.procs[k].mode == Sleeping ==>
      Is(t, k, Running) && u.procs[k].chan == if a.Sleep? then OnAddr(a.addr) else OnProc(k)
  {
    hide Exited, Killed, HasChild, HasZombie, Rank;
    match a
    case Kill(pid) => KillMeans(t.procs, pid, k);
    case Exit(j) => ExitMeans(t.procs, j, k);
    case _ =>
  }

  /** Step n of the run rouses slot k. */
  ghost predicate RousedAt(t: Table, acts: seq<Action>, n: nat, k: nat) {
    && n < |acts| && Run(t, acts[..n]).Some? && k < |Run(t, acts[..n]).value.procs|
    && Rouses(Run(t, acts[..n]).value, acts[n], k)
  }

  /** Over whole runs: a sleeper sleeps on, on the same channel, as long as no step rouses it. */
  lemma {:induction false} SleepsOn(t: Table, acts: seq<Action>, k: nat)
    requires Run(t, acts).Some? && Is(t, k, Sleeping) && forall n: nat | n < |acts| :: !RousedAt(t, acts, n, k)
    ensures Is(Run(t, acts).value, k, Sleeping) && Run(t, acts).value.procs[k].chan == t.procs[k].chan
  {
    if acts != [] {
      var last := |acts| - 1;
      var before := acts[..last];
      forall n: nat | n < |before| ensures !RousedAt(t, before, n, k) {
        assert before[..n] == acts[..n];
        assert !RousedAt(t, acts, n, k);
      }
      SleepsOn(t, before, k);
      assert !RousedAt(t, acts, last, k);
      SleepEnds(Run(t, before).value, acts[last], Run(t, acts).value, k);
    }
  }

  lemma {:induction false} PrefixRuns(t: Table, acts: seq<Action>, n: nat)
    requires Run(t, acts).Some? && n <= |acts|
    ensures Run(t, acts[..n]).Some?
  {
    if n == |acts| {
      assert acts[..n] == acts;
    } else {
      var before := acts[..|acts| - 1];
      PrefixRuns(t, before, n);
      assert before[..n] == acts[..n];
    }
  }

  /** And the first step that rouses it makes it runnable. */
  lemma WakesAt(t: Table, acts: seq<Action>, n: nat, k: nat)
    requires Run(t, acts).Some? && Is(t, k, Sleeping) && RousedAt(t, acts, n, k)
    requires forall m: nat | m < n :: !RousedAt(t, acts, m, k)
    ensures Run(t, acts[..n]).Some? && Is(Run(t, acts[..n]).value, k, Sleeping)
    ensures Run(t, acts[..n + 1]).Some? && Is(Run(t, acts[..n + 1]).value, k, Runnable)
  {
    PrefixRuns(t, acts, n + 1);
    forall m: nat | m < n ensures !RousedAt(t, acts[..n], m, k) {
      assert acts[..n][..m] == acts[..m];
      assert !RousedAt(t, acts, m, k);
    }
    SleepsOn(t, acts[..n], k);
    assert acts[..n + 1][..n] == acts[..n];
    SleepEnds(Run(t, acts[..n]).value, acts[n], Run(t, acts[..n + 1]).value, k);
  }

  // ---- ranks -------------------------------------------------------------

  function Raised(p: Proc, priority: int, creation: int, cycle: real, sz: nat): Proc {
    p.(creation := p.creation + creation,
      job := p.job.(priority := p.job.priority + priority, cycle := p.job.cycle + cycle, sz := p.job.sz + sz))
  }

  lemma Scaled(a: real, b: real, x: real)
    ensures (a + b) * x == a * x + b * x
  {
  }

  /** Each attribute counts by its own ratio: the rank is 0 when all are, and grows with each in
      proportion. */
  lemma RankGrows(p: Proc, priority: int, creation: int, cycle: real, sz: nat)
    ensures Rank(Raised(p, priority, creation, cycle, sz)) == Rank(p)
      + priority as real * p.job.priorityRatio + creation as real * p.job.creationRatio
      + cycle * p.job.cycleRatio + sz as real * p.job.sizeRatio
    ensures p.creation == 0 && p.job.priority == 0 && p.job.cycle == 0.0 && p.job.sz == 0 ==> Rank(p) == 0.0
  {
    Scaled(p.job.priority as real, priority as real, p.job.priorityRatio);
    Scaled(p.creation as real, creation as real, p.job.creationRatio);
    Scaled(p.job.cycle, cycle, p.job.cycleRatio);
    Scaled(p.job.sz as real, sz as real, p.job.sizeRatio);
  }

  /** How often slot j came to the CPU or gave it up by yielding. */
  function Turns(acts: seq<Action>, j: nat): nat {
    if acts == [] then 0
    else
      var last := acts[|acts| - 1];
      Turns(acts[..|acts| - 1], j) + if last == Dispatch(j) || last == Yield(j) then 1 else 0
  }

  /** The step sets the job of slot j afresh. */
  predicate Resets(a: Action, j: nat) {
    (a.SetJob? && a.j == j) || (a.Alloc? && a.j == j)
  }

  lemma CycleStep(t: Table, a: Action, u: Table, j: nat)
    requires Next(t, a) == Some(u) && j < |t.procs| && !Resets(a, j)
    ensures j < |u.procs|
    ensures u.procs[j].job.cycle == t.procs[j].job.cycle + if a == Dispatch(j) || a == Yield(j) then 0.1 else 0.0
  {
    hide Exited, Killed, HasChild, HasZombie, Rank;
    match a
    case Kill(pid) => KillMeans(t.procs, pid, j);
    case Exit(k) => ExitMeans(t.procs, k, j);
    case _ =>
  }

  /** Over whole runs, what a job is charged for is its turns: a tenth each. */
  lemma {:induction false} CyclesCharged(t: Table, acts: seq<Action>, j: nat)
    requires Run(t, acts).Some? && j < |t.procs| && forall n | 0 <= n < |acts| :: !Resets(acts[n], j)
    ensures j < |Run(t, acts).value.procs|
    ensures Run(t, acts).value.procs[j].job.cycle == t.procs[j].job.cycle + Turns(acts, j) as real * 0.1
  {
    if acts != [] {
      var before := acts[..|acts| - 1];
      CyclesCharged(t, before, j);
      CycleStep(Run(t, before).value, acts[|acts| - 1], Run(t, acts).value, j);
    }
  }
}
