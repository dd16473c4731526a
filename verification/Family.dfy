/** fork, exit and wait: who is whose child, and who gets reaped, in every run. */
module Family {
  import opened Common
  import opened Process

  // ---- the invariant, slot by slot ---------------------------------------

  /** Neither free, nor half made, nor dead. */
  predicate Active(p: Proc) {
    p.mode == Sleeping || p.mode == Runnable || p.mode == Running
  }

  ghost predicate Pid(t: Table, j: int)
    requires 0 <= j < |t.procs|
  {
    t.procs[j].mode != Unused ==> 1 <= t.procs[j].pid < t.nextpid && t.procs[j].pid !in t.reaped
  }

  /** A started process other than init is the child of an older active one; init and free
      slots have no parent, and an embryo at most the process making it. */
  ghost predicate Kin(procs: seq<Proc>, j: int)
    requires 0 <= j < |procs|
  {
    var p := procs[j];
    if p.mode == Unused || j == INIT then p.parent == None
    else if p.mode == Embryo then
      p.parent.Some? ==> p.parent.value < |procs| && procs[p.parent.value].making == Some(j)
    else
      p.parent.Some? && p.parent.value < |procs| && Active(procs[p.parent.value]) && procs[p.parent.value].pid < p.pid
  }

  /** A process inside fork is active and has its own embryo in hand. */
  ghost predicate Making(procs: seq<Proc>, b: int)
    requires 0 <= b < |procs|
  {
    procs[b].making.Some? ==>
      var j := procs[b].making.value;
      Active(procs[b]) && j < |procs| && procs[j].mode == Embryo && procs[b].pid < procs[j].pid
      && (procs[j].parent.Some? ==> procs[j].parent == Some(b))
  }

  /** Whoever sleeps in wait has no child to reap. */
  ghost predicate Patient(procs: seq<Proc>, j: int)
    requires 0 <= j < |procs|
  {
    procs[j].mode == Sleeping && procs[j].chan.OnProc? ==> procs[j].chan == OnProc(j) && !HasZombie(procs, j)
  }

  datatype Order = Kept | Lost

  ghost function Pids(t: Table): Order {
    if && |t.procs| == NPROC && t.nextpid >= 2
       && (forall j | 0 <= j < |t.procs| :: Pid(t, j))
       && (forall i, j | 0 <= i < j < |t.procs| && t.procs[i].mode != Unused && t.procs[j].mode != Unused ::
             t.procs[i].pid != t.procs[j].pid)
       && (forall i | 0 <= i < |t.reaped| :: t.reaped[i] < t.nextpid)
       && (forall i, j | 0 <= i < j < |t.reaped| :: t.reaped[i] != t.reaped[j])
    then Kept else Lost
  }

  ghost function Kinship(procs: seq<Proc>): Order {
    if && |procs| == NPROC && Active(procs[INIT]) && procs[INIT].pid == 1
       && (forall j | 0 <= j < |procs| :: Kin(procs, j))
       && (forall b | 0 <= b < |procs| :: Making(procs, b))
       && (forall a, b | 0 <= a < b < |procs| && procs[a].making.Some? :: procs[a].making != procs[b].making)
    then Kept else Lost
  }

  ghost function Patience(procs: seq<Proc>): Order {
    if forall j | 0 <= j < |procs| :: Patient(procs, j) then Kept else Lost
  }

  ghost function Household(t: Table): Order {
    if Pids(t).Kept? && Kinship(t.procs).Kept? && Patience(t.procs).Kept? then Kept else Lost
  }

  lemma InitialHousehold()
    ensures Household(Initial()).Kept?
  {
  }

  // ---- steps among the active --------------------------------------------

  /** From p to q only the scheduling changed. */
  ghost predicate Shuffled(p: Proc, q: Proc) {
    && q.pid == p.pid && q.parent == p.parent && q.making == p.making
    && (q.mode == p.mode || (Active(p) && Active(q)))
    && (q.mode == Sleeping && q.chan.OnProc? ==> p.mode == Sleeping && p.chan == q.chan)
  }

  lemma ShuffleKeeps(t: Table, u: Table)
    requires Household(t).Kept? && |u.procs| == |t.procs| && u.nextpid == t.nextpid && u.reaped == t.reaped
    requires forall k | 0 <= k < |t.procs| :: Shuffled(t.procs[k], u.procs[k])
    ensures Household(u).Kept?
  {
    forall j | 0 <= j < |u.procs| ensures Pid(u, j) { assert Pid(t, j); }
    forall j | 0 <= j < |u.procs| ensures Kin(u.procs, j) { assert Kin(t.procs, j); }
    forall b | 0 <= b < |u.procs| ensures Making(u.procs, b) { assert Making(t.procs, b); }
    forall j | 0 <= j < |u.procs| ensures Patient(u.procs, j) { assert Patient(t.procs, j); }
  }

  // ---- fork --------------------------------------------------------------

  /** No new zombie and no new sleeper in wait. */
  lemma PatienceFrame(p: seq<Proc>, q: seq<Proc>)
    requires Patience(p).Kept? && |q| == |p|
    requires forall k | 0 <= k < |p| && q[k].mode == Zombie :: p[k].mode == Zombie && p[k].parent == q[k].parent
    requires forall k | 0 <= k < |p| && q[k].mode == Sleeping && q[k].chan.OnProc? ::
      p[k].mode == Sleeping && p[k].chan == q[k].chan
    ensures Patience(q).Kept?
  {
    forall j | 0 <= j < |q| ensures Patient(q, j) { assert Patient(p, j); }
  }

  lemma KinAt(procs: seq<Proc>, j: nat)
    requires Kinship(procs).Kept? && j < |procs|
    ensures Kin(procs, j) && Making(procs, j)
  {
  }

  /** Nobody is the child of a slot that is not active. */
  lemma Childless(procs: seq<Proc>, j: nat, k: nat)
    requires Kinship(procs).Kept? && j < |procs| && k < |procs| && !Active(procs[j])
    ensures procs[k].parent != Some(j) && procs[j].making == None
  {
    KinAt(procs, k);
    KinAt(procs, j);
  }

  lemma AllocPids(t: Table, b: nat, j: nat, u: Table)
    requires Pids(t).Kept? && Next(t, Alloc(b, j)) == Some(u)
    ensures Pids(u).Kept?
  {
    forall k | 0 <= k < |u.procs| ensures Pid(u, k) { assert Pid(t, k); }
    forall i, k | 0 <= i < k < |u.procs| && u.procs[i].mode != Unused && u.procs[k].mode != Unused
      ensures u.procs[i].pid != u.procs[k].pid
    {
      assert Pid(t, i) && Pid(t, k);
    }
  }

  /** p and q differ at most in slots b and j, and neither is a zombie or asleep in q. */
  ghost predicate Elsewhere(p: seq<Proc>, b: nat, j: nat, q: seq<Proc>) {
    && |q| == |p| && b < |p| && j < |p|
    && (forall i | 0 <= i < |p| && i != b && i != j :: q[i] == p[i])
    && q[b].mode != Zombie && q[j].mode != Zombie && q[b].mode != Sleeping && q[j].mode != Sleeping
  }

  lemma PatienceElsewhere(p: seq<Proc>, b: nat, j: nat, q: seq<Proc>)
    requires Patience(p).Kept? && Elsewhere(p, b, j, q)
    ensures Patience(q).Kept?
  {
    PatienceFrame(p, q);
  }

  lemma AllocKin(p: seq<Proc>, b: nat, j: nat, n: nat, q: seq<Proc>, k: nat)
    requires Kinship(p).Kept? && Elsewhere(p, b, j, q) && k < |p| && p[j].mode == Unused && p[b].mode == Running
    requires p[b].making == None
    requires q[j].mode == Embryo && q[j].pid == n > p[b].pid && q[j].parent == p[j].parent && q[j].making == p[j].making
    requires q[b].mode == p[b].mode && q[b].pid == p[b].pid && q[b].parent == p[b].parent && q[b].making == Some(j)
    ensures Kin(q, k) && Making(q, k) && (k != b ==> q[k].making != Some(j) && q[k].making == p[k].making)
  {
    KinAt(p, k);
    KinAt(p, j);
    Childless(p, j, k);
  }

  lemma AllocKeeps(t: Table, b: nat, j: nat, u: Table)
    requires Household(t).Kept? && Next(t, Alloc(b, j)) == Some(u)
    ensures Household(u).Kept?
  {
    AllocPids(t, b, j, u);
    assert Pid(t, b) && Elsewhere(t.procs, b, j, u.procs);
    forall k: nat | k < |u.procs|
      ensures Kin(u.procs, k) && Making(u.procs, k)
      ensures (k != b ==> u.procs[k].making != Some(j) && u.procs[k].making == t.procs[k].making)
    {
      AllocKin(t.procs, b, j, t.nextpid, u.procs, k);
    }
    PatienceElsewhere(t.procs, b, j, u.procs);
  }

  /** The maker lets go of its embryo, which is then free (m == Unused) or started. */
  lemma ReleaseKin(p: seq<Proc>, b: nat, j: nat, q: seq<Proc>, k: nat)
    requires Kinship(p).Kept? && Elsewhere(p, b, j, q) && k < |p| && p[b].making == Some(j) && p[b].mode == Running
    requires p[j].mode == Embryo
    requires q[j].pid == p[j].pid && q[j].parent == p[j].parent && q[j].making == p[j].making
    requires (q[j].mode == Unused && p[j].parent == None) || (q[j].mode == Runnable && p[j].parent == Some(b))
    requires q[b].mode == p[b].mode && q[b].pid == p[b].pid && q[b].parent == p[b].parent && q[b].making == None
    ensures Kin(q, k) && Making(q, k) && (k != b ==> q[k].making == p[k].making)
  {
    KinAt(p, k);
    KinAt(p, b);
    Childless(p, j, k);
  }

  lemma ReleasePids(t: Table, b: nat, j: nat, u: Table)
    requires Pids(t).Kept? && u.nextpid == t.nextpid && u.reaped == t.reaped && Elsewhere(t.procs, b, j, u.procs)
    requires t.procs[b].mode != Unused && t.procs[j].mode != Unused
    requires u.procs[j].pid == t.procs[j].pid && u.procs[b].pid == t.procs[b].pid
    ensures Pids(u).Kept?
  {
    forall k | 0 <= k < |u.procs| ensures Pid(u, k) { assert Pid(t, k); }
  }

  lemma ReleaseKeeps(t: Table, b: nat, j: nat, u: Table)
    requires Household(t).Kept? && u.nextpid == t.nextpid && u.reaped == t.reaped && Elsewhere(t.procs, b, j, u.procs)
    requires t.procs[b].making == Some(j) && t.procs[b].mode == Running && t.procs[j].mode == Embryo
    requires u.procs[j].pid == t.procs[j].pid && u.procs[j].parent == t.procs[j].parent
    requires u.procs[j].making == t.procs[j].making
    requires (u.procs[j].mode == Unused && t.procs[j].parent == None)
      || (u.procs[j].mode == Runnable && t.procs[j].parent == Some(b))
    requires u.procs[b].mode == t.procs[b].mode && u.procs[b].pid == t.procs[b].pid
    requires u.procs[b].parent == t.procs[b].parent
    requires u.procs[b].making == None
    ensures Household(u).Kept?
  {
    ReleasePids(t, b, j, u);
    forall k: nat | k < |u.procs|
      ensures Kin(u.procs, k) && Making(u.procs, k) && (k != b ==> u.procs[k].making == t.procs[k].making)
    {
      ReleaseKin(t.procs, b, j, u.procs, k);
    }
    PatienceElsewhere(t.procs, b, j, u.procs);
  }

  lemma AbandonKeeps(t: Table, b: nat, u: Table)
    requires Household(t).Kept? && Next(t, Abandon(b)) == Some(u)
    ensures Household(u).Kept?
  {
    ReleaseKeeps(t, b, t.procs[b].making.value, u);
  }

  lemma StartKeeps(t: Table, b: nat, u: Table)
    requires Household(t).Kept? && Next(t, Start(b)) == Some(u)
    ensures Household(u).Kept?
  {
    ReleaseKeeps(t, b, t.procs[b].making.value, u);
  }

  lemma AdoptKeeps(t: Table, b: nat, u: Table)
    requires Household(t).Kept? && Next(t, Adopt(b)) == Some(u)
    ensures Household(u).Kept?
  {
    var j := t.procs[b].making.value;
    forall k | 0 <= k < |u.procs|
      ensures Pid(u, k) && Kin(u.procs, k) && Making(u.procs, k)
    {
      assert Pid(t, k);
      KinAt(t.procs, k);
    }
    PatienceElsewhere(t.procs, j, j, u.procs);
  }

  // ---- exit and wait -----------------------------------------------------

  lemma ReapKin(p: seq<Proc>, k: nat, q: seq<Proc>, i: nat)
    requires Kinship(p).Kept? && Elsewhere(p, k, k, q) && i < |p| && p[k].mode == Zombie && k != INIT
    requires q[k].mode == Unused && q[k].parent == None && q[k].making == p[k].making
    ensures Kin(q, i) && Making(q, i)
  {
    KinAt(p, i);
    KinAt(p, k);
    Childless(p, k, i);
  }

  lemma ReapPids(t: Table, k: nat, u: Table)
    requires Pids(t).Kept? && Elsewhere(t.procs, k, k, u.procs) && t.procs[k].mode == Zombie
    requires u.procs[k].mode == Unused
    requires u.nextpid == t.nextpid && u.reaped == t.reaped + [t.procs[k].pid]
    ensures Pids(u).Kept?
  {
    assert Pid(t, k);
    forall i | 0 <= i < |u.procs|
      ensures Pid(u, i)
    {
      assert Pid(t, i);
    }
  }

  lemma ReapKeeps(t: Table, j: nat, k: nat, u: Table)
    requires Household(t).Kept? && Next(t, Reap(j, k)) == Some(u)
    ensures Household(u).Kept?
  {
    ReapPids(t, k, u);
    forall i: nat | i < |u.procs|
      ensures Kin(u.procs, i) && Making(u.procs, i)
    {
      ReapKin(t.procs, k, u.procs, i);
    }
    PatienceElsewhere(t.procs, k, k, u.procs);
  }

  lemma WaitSleepKeeps(t: Table, j: nat, u: Table)
    requires Household(t).Kept? && Next(t, WaitSleep(j)) == Some(u)
    ensures Household(u).Kept?
  {
    forall i | 0 <= i < |u.procs|
      ensures Pid(u, i) && Kin(u.procs, i) && Making(u.procs, i) && Patient(u.procs, i)
    {
      assert Pid(t, i) && Patient(t.procs, i);
      KinAt(t.procs, i);
    }
  }

  /** What exit leaves alone, and whom it makes the parent. */
  lemma BereftFacts(procs: seq<Proc>, j: nat, p: Proc)
    requires j < |procs|
    ensures var q := Bereft(procs, j, p);
      && q.pid == p.pid && q.making == p.making && q.chan == p.chan
      && (q.mode == p.mode || (p.mode == Sleeping && q.mode == Runnable))
      && q.parent == if p.parent == Some(j) then Some(INIT) else p.parent
  {
  }

  /** The table after exit, seen through those facts. */
  ghost predicate Left(p: seq<Proc>, j: nat, q: seq<Proc>)
    requires j < |p|
  {
    && |q| == |p|
    && forall k | 0 <= k < |p| ::
       && q[k].pid == p[k].pid && q[k].making == p[k].making && q[k].chan == p[k].chan
       && (if k == j then q[k].mode == Zombie
           else q[k].mode == p[k].mode || (p[k].mode == Sleeping && q[k].mode == Runnable))
       && q[k].parent == if p[k].parent == Some(j) then Some(INIT) else p[k].parent
  }

  lemma ExitLeft(procs: seq<Proc>, j: nat)
    requires j < |procs|
    ensures Left(procs, j, Exited(procs, j))
  {
    forall k | 0 <= k < |procs| { BereftFacts(procs, j, procs[k]); }
  }

  lemma ExitPids(t: Table, j: nat, u: Table)
    requires Pids(t).Kept? && j < |t.procs| && t.procs[j].mode == Running && Left(t.procs, j, u.procs)
    requires u.nextpid == t.nextpid && u.reaped == t.reaped
    ensures Pids(u).Kept?
  {
    forall k | 0 <= k < |u.procs| ensures Pid(u, k) { assert Pid(t, k); }
  }

  lemma ExitKin(p: seq<Proc>, j: nat, q: seq<Proc>, k: nat)
    requires Kinship(p).Kept? && j < |p| && p[j].mode == Running && p[j].making == None && j != INIT && Left(p, j, q)
    requires k < |q|
    requires forall i | 0 <= i < |p| && p[i].mode != Unused && i != INIT :: p[i].pid > 1
    ensures Kin(q, k) && Making(q, k)
  {
    KinAt(p, k);
    KinAt(p, j);
  }

  /** The parent is woken before its child is a zombie, and init before it inherits one. */
  lemma ExitPatient(t: Table, j: nat, u: Table, k: nat)
    requires Household(t).Kept? && Next(t, Exit(j)) == Some(u) && k < |u.procs|
    ensures Patient(u.procs, k)
  {
    assert Patient(t.procs, k);
    KinAt(t.procs, j);
  }

  lemma OnlyInitIsOne(t: Table, i: nat)
    requires Household(t).Kept? && i < |t.procs| && t.procs[i].mode != Unused && i != INIT
    ensures t.procs[i].pid > 1
  {
    assert Pid(t, i);
    assert t.procs[INIT].mode != Unused;
  }

  lemma ExitKeeps(t: Table, j: nat, u: Table)
    requires Household(t).Kept? && Next(t, Exit(j)) == Some(u)
    ensures Household(u).Kept?
  {
    ExitLeft(t.procs, j);
    ExitPids(t, j, u);
    forall i: nat | i < |t.procs| && t.procs[i].mode != Unused && i != INIT
      ensures t.procs[i].pid > 1
    {
      OnlyInitIsOne(t, i);
    }
    forall k: nat | k < |u.procs|
      ensures Kin(u.procs, k) && Making(u.procs, k)
    {
      ExitKin(t.procs, j, u.procs, k);
    }
    forall k: nat | k < |u.procs| ensures Patient(u.procs, k) { ExitPatient(t, j, u, k); }
  }

  // ---- every run ---------------------------------------------------------

  lemma KillShuffles(procs: seq<Proc>, pid: nat, k: nat)
    requires k < |procs|
    ensures Shuffled(procs[k], Killed(procs, pid)[k])
  {
  }

  lemma StepKeeps(t: Table, a: Action, u: Table)
    requires Household(t).Kept? && Next(t, a) == Some(u)
    ensures Household(u).Kept?
  {
    match a
    case Alloc(b, j) => AllocKeeps(t, b, j, u);
    case Abandon(b) => AbandonKeeps(t, b, u);
    case Adopt(b) => AdoptKeeps(t, b, u);
    case Start(b) => StartKeeps(t, b, u);
    case Exit(j) => ExitKeeps(t, j, u);
    case Reap(j, k) => ReapKeeps(t, j, k, u);
    case WaitSleep(j) => WaitSleepKeeps(t, j, u);
    case Kill(pid) =>
      forall k: nat | k < |t.procs| ensures Shuffled(t.procs[k], u.procs[k]) { KillShuffles(t.procs, pid, k); }
      ShuffleKeeps(t, u);
    case _ => ShuffleKeeps(t, u);
  }

  lemma {:induction false} RunKeeps(acts: seq<Action>)
    ensures Run(Initial(), acts).Some? ==> Household(Run(Initial(), acts).value).Kept?
  {
    if acts == [] {
      InitialHousehold();
    } else {
      RunKeeps(acts[..|acts| - 1]);
      match Run(Initial(), acts[..|acts| - 1])
      case None =>
      case Some(t) =>
        if Next(t, acts[|acts| - 1]).Some? { StepKeeps(t, acts[|acts| - 1], Next(t, acts[|acts| - 1]).value); }
    }
  }

  ghost predicate Reachable(t: Table) {
    exists acts :: Run(Initial(), acts) == Some(t)
  }

  lemma ReachableHousehold(t: Table)
    requires Reachable(t)
    ensures Household(t).Kept?
  {
    var acts :| Run(Initial(), acts) == Some(t);
    RunKeeps(acts);
  }

  predicate Started(t: Table, j: int) {
    0 <= j < |t.procs| && t.procs[j].mode != Unused && t.procs[j].mode != Embryo
  }

  /** No two processes in the table have the same pid, and none has the pid of one that was
      waited for; wait never returns the same pid twice. */
  lemma PidsDistinct(t: Table)
    requires Reachable(t)
    ensures forall i, j | 0 <= i < j < |t.procs| && t.procs[i].mode != Unused && t.procs[j].mode != Unused ::
      t.procs[i].pid != t.procs[j].pid
    ensures forall i, j | 0 <= i < j < |t.reaped| :: t.reaped[i] != t.reaped[j]
    ensures forall j | 0 <= j < |t.procs| && t.procs[j].mode != Unused :: t.procs[j].pid !in t.reaped
  {
    ReachableHousehold(t);
    forall j | 0 <= j < |t.procs| && t.procs[j].mode != Unused
      ensures t.procs[j].pid !in t.reaped
    {
      assert Pid(t, j);
    }
  }

  /** A started process has a parent that is neither dead nor half made, and older. */
  lemma ParentAlive(t: Table, j: nat)
    requires Reachable(t) && Started(t, j) && j != INIT
    ensures t.procs[j].parent.Some? && t.procs[j].parent.value < |t.procs|
    ensures Active(t.procs[t.procs[j].parent.value]) && t.procs[t.procs[j].parent.value].pid < t.procs[j].pid
  {
    ReachableHousehold(t);
    KinAt(t.procs, j);
  }

  /** The k-th ancestor of the process in slot j, if there is one. */
  function Ancestor(procs: seq<Proc>, j: nat, k: nat): Option<nat>
    decreases k
  {
    if k == 0 then Some(j)
    else if j < |procs| && procs[j].parent.Some? then Ancestor(procs, procs[j].parent.value, k - 1)
    else None
  }

  /** Parent links form a tree rooted at init: going from parent to parent, every started process
      comes to init, and from no process back to itself. */
  lemma Rooted(t: Table, j: nat) returns (k: nat)
    requires Reachable(t) && Started(t, j)
    ensures Ancestor(t.procs, j, k) == Some(INIT)
    ensures forall m | m > 0 :: Ancestor(t.procs, j, m) != Some(j)
  {
    ReachableHousehold(t);
    k := RootedIn(t, j);
    forall m | m > 0 ensures Ancestor(t.procs, j, m) != Some(j) { Older(t, j, m); }
  }

  lemma {:induction false} RootedIn(t: Table, j: nat) returns (k: nat)
    requires Household(t).Kept? && Started(t, j)
    ensures Ancestor(t.procs, j, k) == Some(INIT)
    decreases t.procs[j].pid
  {
    if j == INIT {
      k := 0;
    } else {
      KinAt(t.procs, j);
      k := RootedIn(t, t.procs[j].parent.value);
      k := k + 1;
    }
  }

  /** Ancestors are older. */
  lemma {:induction false} Older(t: Table, j: nat, m: nat)
    requires Household(t).Kept? && Started(t, j) && m > 0
    ensures var a := Ancestor(t.procs, j, m); a.Some? ==> Started(t, a.value) && t.procs[a.value].pid < t.procs[j].pid
    decreases m
  {
    KinAt(t.procs, j);
    if t.procs[j].parent.Some? && m > 1 { Older(t, t.procs[j].parent.value, m - 1); }
  }

  /** A process asleep in wait has no child that has exited. */
  lemma WaitMissesNothing(t: Table, j: nat, k: nat)
    requires Reachable(t) && Is(t, j, Sleeping) && t.procs[j].chan == OnProc(j) && k < |t.procs|
    requires t.procs[k].parent == Some(j)
    ensures t.procs[k].mode != Zombie
  {
    ReachableHousehold(t);
    assert Patient(t.procs, j);
  }

  /** Every zombie's parent is there to wait for it and not asleep doing so. */
  lemma ZombieWillBeReaped(t: Table, k: nat)
    requires Reachable(t) && Is(t, k, Zombie)
    ensures k != INIT && t.procs[k].parent.Some? && t.procs[k].parent.value < |t.procs|
    ensures var p := t.procs[t.procs[k].parent.value]; Active(p) && !(p.mode == Sleeping && p.chan.OnProc?)
  {
    ReachableHousehold(t);
    KinAt(t.procs, k);
    assert Patient(t.procs, t.procs[k].parent.value);
  }
}
