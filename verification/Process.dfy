/** The process table of proc.c as a state machine: every section run under ptable.lock, and
    every unlocked write to the table, is one step. */
module Process {
  import opened Common
  const NPROC: nat := 64
  const INIT: nat := 0            // initproc: allocproc's first slot
  const RR: int := 1
  const LCFS: int := 2
  const BJF: int := 3
  const AGING_THRS: int := 8000
  const MIN_INT: int := -10000
  const MAX_INT: real := 10000.0

  datatype Mode = Unused | Embryo | Sleeping | Runnable | Running | Zombie

  /** What a process sleeps on: wait sleeps on the process itself. */
  datatype Chan = NoChan | OnProc(slot: nat) | OnAddr(addr: nat)

  /** What best-job-first ranks by. */
  datatype Job = Job(priority: int, sz: nat, cycle: real,
                     priorityRatio: real, creationRatio: real, cycleRatio: real, sizeRatio: real)

  /** struct proc. making is the child a process inside fork has allocated. */
  datatype Proc = Proc(mode: Mode, pid: nat, parent: Option<nat>, making: Option<nat>, chan: Chan, killed: bool,
                       que: int, creation: int, preemption: int, job: Job)

  const NoJob: Job := Job(0, 0, 0.0, 0.0, 0.0, 0.0, 0.0)
  const NewJob: Job := Job(3, 0, 0.1, 1.0, 1.0, 1.0, 1.0)   // PRIORITY_DEF is 3
  const NoProc: Proc := Proc(Unused, 0, None, None, NoChan, false, 0, 0, 0, NoJob)

  /** aging holds the slots the clock interrupt has found overdue and not yet moved; reaped is
      every pid wait has returned, oldest first. */
  datatype Table = Table(procs: seq<Proc>, nextpid: nat, ticks: nat, aging: set<nat>, reaped: seq<nat>)

  /** After userinit. */
  function Initial(): Table {
    Table([Proc(Runnable, 1, None, None, NoChan, false, RR, 0, 0, NewJob)] + seq(NPROC - 1, _ => NoProc), 2, 0, {}, [])
  }

  // ---- the scheduler's choice --------------------------------------------

  /** calculate_rank */
  function Rank(p: Proc): real {
    p.job.priority as real * p.job.priorityRatio + p.creation as real * p.job.creationRatio
    + p.job.cycle * p.job.cycleRatio + p.job.sz as real * p.job.sizeRatio
  }

  predicate Queued(procs: seq<Proc>, q: int, j: int) {
    0 <= j < |procs| && procs[j].mode == Runnable && procs[j].que == q
  }

  /** round_robin considers slot j. */
  predicate InRR(procs: seq<Proc>, now: int, j: int) {
    Queued(procs, RR, j) && now - procs[j].preemption > MIN_INT
  }

  predicate InLCFS(procs: seq<Proc>, j: int) {
    Queued(procs, LCFS, j) && procs[j].creation > MIN_INT
  }

  predicate InBJF(procs: seq<Proc>, j: int) {
    Queued(procs, BJF, j) && Rank(procs[j]) < MAX_INT
  }

  /** Longest off the CPU, then lowest slot. */
  ghost predicate FirstRR(procs: seq<Proc>, now: int, i: int) {
    InRR(procs, now, i) && forall j | InRR(procs, now, j) ::
      procs[i].preemption < procs[j].preemption || (procs[i].preemption == procs[j].preemption && i <= j)
  }

  /** Latest created, then lowest slot. */
  ghost predicate FirstLCFS(procs: seq<Proc>, i: int) {
    InLCFS(procs, i) && forall j | InLCFS(procs, j) ::
      procs[i].creation > procs[j].creation || (procs[i].creation == procs[j].creation && i <= j)
  }

  /** Least rank, then lowest slot. */
  ghost predicate FirstBJF(procs: seq<Proc>, i: int) {
    InBJF(procs, i) && forall j | InBJF(procs, j) ::
      Rank(procs[i]) < Rank(procs[j]) || (Rank(procs[i]) == Rank(procs[j]) && i <= j)
  }

  /** The process the scheduler runs next. */
  ghost predicate Chosen(procs: seq<Proc>, now: int, i: int) {
    || FirstRR(procs, now, i)
    || ((forall j :: !InRR(procs, now, j)) && FirstLCFS(procs, i))
    || ((forall j :: !InRR(procs, now, j)) && (forall j :: !InLCFS(procs, j)) && FirstBJF(procs, i))
  }

  // ---- steps -------------------------------------------------------------

  datatype Action =
    | Tick                                // the clock interrupt counts
    | AgeTest(j: nat)                     // aging looks at slot j, without ptable.lock
    | AgeSet(j: nat)                      // aging moves slot j to RR
    | Dispatch(j: nat)                    // scheduler
    | Yield(j: nat)
    | Sleep(j: nat, addr: nat)            // sleep, other than in wait
    | Wakeup(addr: nat)                   // wakeup
    | WakeOne(j: nat)                     // wakeup_pl's choice
    | Kill(pid: nat)
    | Alloc(by_: nat, j: nat)             // allocproc, called by fork
    | Abandon(by_: nat)                   // fork fails after allocproc
    | Adopt(by_: nat)                     // fork makes the caller the parent
    | Start(by_: nat)                     // fork's last section
    | Exit(j: nat)
    | Reap(j: nat, k: nat)                // wait finds the zombie k
    | WaitSleep(j: nat)                   // wait finds children, none a zombie
    | SetQueue(j: nat, q: int)            // change_queue
    | SetJob(j: nat, job: Job)            // the setters of best-job-first

  predicate Is(t: Table, j: int, m: Mode) {
    0 <= j < |t.procs| && t.procs[j].mode == m
  }

  function Put(t: Table, j: nat, p: Proc): Table
    requires j < |t.procs|
  {
    t.(procs := t.procs[j := p])
  }

  predicate Overdue(t: Table, j: nat) {
    Is(t, j, Runnable) && t.procs[j].que != RR && t.ticks - t.procs[j].preemption > AGING_THRS
  }

  /** wakeup1 */
  function Woken(p: Proc, c: Chan): Proc {
    if p.mode == Sleeping && p.chan == c then p.(mode := Runnable) else p
  }

  function AllWoken(procs: seq<Proc>, c: Chan): (r: seq<Proc>)
    ensures |r| == |procs|
  {
    seq(|procs|, k requires 0 <= k < |procs| => Woken(procs[k], c))
  }

  /** Does j have a child in the table, and one that has exited? */
  predicate HasChild(procs: seq<Proc>, j: nat) {
    exists k | 0 <= k < |procs| :: procs[k].parent == Some(j)
  }

  predicate HasZombie(procs: seq<Proc>, j: nat) {
    exists k | 0 <= k < |procs| :: procs[k].parent == Some(j) && procs[k].mode == Zombie
  }

  /** exit's effect on another process: woken if it waits for the exiting one or, as init, for
      a zombie it inherits; handed to init if it is a child. */
  function Bereft(procs: seq<Proc>, j: nat, p: Proc): Proc
    requires j < |procs|
  {
    var p1 := if procs[j].parent.Some? then Woken(p, OnProc(procs[j].parent.value)) else p;
    var p2 := if HasZombie(procs, j) then Woken(p1, OnProc(INIT)) else p1;
    if p2.parent == Some(j) then p2.(parent := Some(INIT)) else p2
  }

  function Exited(procs: seq<Proc>, j: nat): (r: seq<Proc>)
    requires j < |procs|
    ensures |r| == |procs|
  {
    seq(|procs|, k requires 0 <= k < |procs| =>
      if k == j then Bereft(procs, j, procs[k]).(mode := Zombie) else Bereft(procs, j, procs[k]))
  }

  ghost function Next(t: Table, a: Action): Option<Table> {
    match a
    case Tick => Some(t.(ticks := t.ticks + 1))
    case AgeTest(j) => Some(if Overdue(t, j) then t.(aging := t.aging + {j}) else t)
    case AgeSet(j) =>
      if j in t.aging && j < |t.procs| then Some(Put(t, j, t.procs[j].(que := RR)).(aging := t.aging - {j})) else None
    case Dispatch(j) =>
      if Chosen(t.procs, t.ticks, j) then
        Some(Put(t, j, t.procs[j].(mode := Running, chan := NoChan, preemption := t.ticks,
          job := Cycled(t.procs[j].job))))
      else None
    case Yield(j) =>
      if Is(t, j, Running) then
        Some(Put(t, j, t.procs[j].(mode := Runnable, preemption := t.ticks, job := Cycled(t.procs[j].job))))
      else None
    case Sleep(j, addr) =>
      if Is(t, j, Running) then Some(Put(t, j, t.procs[j].(mode := Sleeping, chan := OnAddr(addr)))) else None
    case Wakeup(addr) => Some(t.(procs := AllWoken(t.procs, OnAddr(addr))))
    case WakeOne(j) =>
      if Is(t, j, Sleeping) && t.procs[j].chan.OnAddr? then Some(Put(t, j, t.procs[j].(mode := Runnable))) else None
    case Kill(pid) => Some(t.(procs := Killed(t.procs, pid)))
    case Alloc(b, j) =>
      if Is(t, b, Running) && t.procs[b].making == None && Is(t, j, Unused) then
        var t1 := Put(t, j, t.procs[j].(mode := Embryo, pid := t.nextpid, que := if t.nextpid == 2 then RR else LCFS,
                                        job := NewJob.(sz := t.procs[j].job.sz)));
        Some(Put(t1, b, t1.procs[b].(making := Some(j))).(nextpid := t.nextpid + 1))
      else None
    case Abandon(b) =>
      if Is(t, b, Running) && t.procs[b].making.Some? && Is(t, t.procs[b].making.value, Embryo)
         && t.procs[t.procs[b].making.value].parent == None then
        var j := t.procs[b].making.value;
        var t1 := Put(t, j, t.procs[j].(mode := Unused));
        Some(Put(t1, b, t1.procs[b].(making := None)))
      else None
    case Adopt(b) =>
      if Is(t, b, Running) && t.procs[b].making.Some? && Is(t, t.procs[b].making.value, Embryo) then
        var j := t.procs[b].making.value;
        Some(Put(t, j, t.procs[j].(parent := Some(b), job := t.procs[j].job.(sz := t.procs[b].job.sz))))
      else None
    case Start(b) =>
      if Is(t, b, Running) && t.procs[b].making.Some? && Is(t, t.procs[b].making.value, Embryo)
         && t.procs[t.procs[b].making.value].parent == Some(b) then
        var j := t.procs[b].making.value;
        var t1 := Put(t, j, t.procs[j].(mode := Runnable, creation := t.ticks, preemption := t.ticks));
        Some(Put(t1, b, t1.procs[b].(making := None)))
      else None
    case Exit(j) =>
      if Is(t, j, Running) && t.procs[j].making == None && j != INIT
      then Some(t.(procs := Exited(t.procs, j)))
      else None
    case Reap(j, k) =>
      if Is(t, j, Running) && t.procs[j].making == None && Is(t, k, Zombie) && t.procs[k].parent == Some(j) then
        Some(Put(t, k, t.procs[k].(mode := Unused, pid := 0, parent := None, killed := false))
              .(reaped := t.reaped + [t.procs[k].pid]))
      else None
    case WaitSleep(j) =>
      if && Is(t, j, Running) && t.procs[j].making == None && HasChild(t.procs, j) && !HasZombie(t.procs, j)
         && !t.procs[j].killed
      then
        Some(Put(t, j, t.procs[j].(mode := Sleeping, chan := OnProc(j))))
      else None
    case SetQueue(j, q) => if j < |t.procs| then Some(Put(t, j, t.procs[j].(que := q))) else None
    case SetJob(j, job) => if j < |t.procs| then Some(Put(t, j, t.procs[j].(job := job))) else None
  }

  /** The cycle count of a process that is given the CPU goes up by a tenth. */
  function Cycled(job: Job): Job {
    job.(cycle := job.cycle + 0.1)
  }

  /** Where pid first occurs in the table. */
  function SlotOf(procs: seq<Proc>, pid: nat): (k: nat)
    ensures k <= |procs| && (k < |procs| ==> procs[k].pid == pid) && forall i | 0 <= i < k :: procs[i].pid != pid
  {
    if procs == [] then 0 else if procs[0].pid == pid then 0 else 1 + SlotOf(procs[1..], pid)
  }

  /** kill */
  function Killed(procs: seq<Proc>, pid: nat): (r: seq<Proc>)
    ensures |r| == |procs|
  {
    var k := SlotOf(procs, pid);
    if k == |procs| then procs
    else procs[k := procs[k].(killed := true, mode := if procs[k].mode == Sleeping then Runnable else procs[k].mode)]
  }

  ghost function Run(t: Table, acts: seq<Action>): Option<Table> {
    if acts == [] then Some(t)
    else
      match Run(t, acts[..|acts| - 1])
      case None => None
      case Some(u) => Next(u, acts[|acts| - 1])
  }
}
