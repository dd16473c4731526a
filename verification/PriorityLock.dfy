/** priority_lock.c over sleep and wakeup_pl of proc.c: the lock's own spinlock lk and
    ptable.lock are taken and dropped in separate steps of any number of processes, killed
    ones included. */
module PriorityLock {
  import opened Common
  type Pid = nat

  /** Where a process is in acquir_priority or release_priority. */
  datatype Pc =
    | Away                // in neither, and not holding the lock
    | Trying              // about to take the lock's spinlock
    | Testing             // holds the spinlock, about to test locked
    | Falling             // holds lk, in sleep before acquire(&ptable.lock)
    | Both                // holds lk and ptable.lock
    | Dozing              // holds ptable.lock, about to be SLEEPING
    | Asleep              // SLEEPING on the lock
    | Awake               // RUNNABLE again, not yet back from sleep
    | Got                 // has set locked, holds lk
    | Holding             // back from acquir_priority
    | Leaving             // in release_priority, about to take the spinlock
    | Clearing            // holds lk, about to clear locked
    | Waking              // holds lk, in wakeup_pl before acquire(&ptable.lock)
    | Done                // holds lk, wakeup_pl is over

  /** lk and pt are the owners of the two spinlocks. */
  datatype Lock = Lock(locked: bool, pid: Pid, lk: Option<Pid>, pt: Option<Pid>, pcs: map<Pid, Pc>)

  datatype Action =
    | Want(p: Pid) | TakeLk(p: Pid) | Test(p: Pid) | TakePt(p: Pid) | DropLk(p: Pid)
    | Doze(p: Pid) | Rouse(p: Pid) | Resume(p: Pid)
    | Leave(p: Pid) | Clear(p: Pid) | Wake(p: Pid)

  predicate At(s: Lock, p: Pid, c: Pc) {
    p in s.pcs && s.pcs[p] == c
  }

  function Go(s: Lock, p: Pid, c: Pc): Lock {
    s.(pcs := s.pcs[p := c])
  }

  /** The sleeper with the highest pid. */
  ghost predicate HighestAsleep(s: Lock, q: Pid) {
    At(s, q, Asleep) && forall r: Pid | At(s, r, Asleep) :: r <= q
  }

  /** wakeup_pl, which runs entirely under ptable.lock. */
  ghost function Woken(s: Lock): (t: Lock)
    ensures (exists q: Pid :: HighestAsleep(s, q)) ==> exists q: Pid :: HighestAsleep(s, q) && t == Go(s, q, Awake)
    ensures !(exists q: Pid :: HighestAsleep(s, q)) ==> t == s
  {
    if q: Pid :| HighestAsleep(s, q) then Go(s, q, Awake) else s
  }

  /** A release is only called by the holder; kill may rouse a sleeper at any time. */
  ghost function Next(s: Lock, a: Action): Option<Lock> {
    match a
    case Want(p) => if At(s, p, Away) then Some(Go(s, p, Trying)) else None
    case TakeLk(p) =>
      if s.lk == None && At(s, p, Trying) then Some(Go(s, p, Testing).(lk := Some(p)))
      else if s.lk == None && At(s, p, Leaving) then Some(Go(s, p, Clearing).(lk := Some(p)))
      else None
    case Test(p) =>
      if At(s, p, Testing)
      then Some(if s.locked then Go(s, p, Falling) else Go(s, p, Got).(locked := true, pid := p))
      else None
    case TakePt(p) => if s.pt == None && At(s, p, Falling) then Some(Go(s, p, Both).(pt := Some(p))) else None
    case DropLk(p) =>
      if At(s, p, Both) then Some(Go(s, p, Dozing).(lk := None))
      else if At(s, p, Got) then Some(Go(s, p, Holding).(lk := None))
      else if At(s, p, Done) then Some(Go(s, p, Away).(lk := None))
      else None
    case Doze(p) => if At(s, p, Dozing) then Some(Go(s, p, Asleep).(pt := None)) else None
    case Rouse(p) => if s.pt == None && At(s, p, Asleep) then Some(Go(s, p, Awake)) else None
    case Resume(p) => if s.pt == None && At(s, p, Awake) then Some(Go(s, p, Trying)) else None
    case Leave(p) => if At(s, p, Holding) then Some(Go(s, p, Leaving)) else None
    case Clear(p) => if At(s, p, Clearing) then Some(Go(s, p, Waking).(locked := false, pid := 0)) else None
    case Wake(p) => if s.pt == None && At(s, p, Waking) then Some(Go(Woken(s), p, Done)) else None
  }

  ghost predicate Initial(s: Lock) {
    !s.locked && s.pid == 0 && 0 !in s.pcs && s.lk == None && s.pt == None && forall p | p in s.pcs :: s.pcs[p] == Away
  }

  ghost function Run(s: Lock, acts: seq<Action>): Option<Lock> {
    if acts == [] then Some(s)
    else
      match Run(s, acts[..|acts| - 1])
      case None => None
      case Some(t) => Next(t, acts[|acts| - 1])
  }

  // ---- the invariant -----------------------------------------------------

  predicate HoldsLk(c: Pc) {
    c.Testing? || c.Falling? || c.Both? || c.Got? || c.Clearing? || c.Waking? || c.Done?
  }

  predicate HoldsPt(c: Pc) {
    c.Both? || c.Dozing?
  }

  /** In the critical section, or on the way in or out of it. */
  predicate Inside(c: Pc) {
    c.Got? || c.Holding? || c.Leaving? || c.Clearing?
  }

  /** In acquir_priority's loop and not asleep or falling asleep. */
  predicate Alert(c: Pc) {
    c.Trying? || c.Testing? || c.Awake?
  }

  datatype Verdict = Good | Bad

  /** The spinlocks' owners are where the program counters say. */
  ghost predicate Owner(s: Lock, p: Pid)
    requires p in s.pcs
  {
    (HoldsLk(s.pcs[p]) <==> s.lk == Some(p)) && (HoldsPt(s.pcs[p]) <==> s.pt == Some(p))
  }

  ghost function Owners(s: Lock): Verdict {
    if && (forall p | p in s.pcs :: Owner(s, p))
       && (s.lk.Some? ==> s.lk.value in s.pcs) && (s.pt.Some? ==> s.pt.value in s.pcs)
    then Good else Bad
  }

  /** locked is set exactly while someone is inside, and pid names that one. */
  ghost function Exclusive(s: Lock): Verdict {
    if && (forall p | p in s.pcs && Inside(s.pcs[p]) :: s.locked && s.pid == p)
       && (s.locked ==> s.pid in s.pcs && Inside(s.pcs[s.pid]))
    then Good else Bad
  }

  ghost predicate Releasing(s: Lock) {
    exists p: Pid :: At(s, p, Waking)
  }

  ghost predicate SomeoneAlert(s: Lock) {
    exists p: Pid :: p in s.pcs && Alert(s.pcs[p])
  }

  /** Whoever is falling asleep has the lock held against it, or a wakeup coming; and
      whoever is asleep then has someone awake to pass the lock on to it. */
  ghost predicate Calm(s: Lock, p: Pid)
    requires p in s.pcs
  {
    match s.pcs[p]
    case Falling => s.locked
    case Both => s.locked
    case Dozing => s.locked || Releasing(s)
    case Asleep => s.locked || Releasing(s) || SomeoneAlert(s)
    case _ => true
  }

  ghost function NoLoss(s: Lock): Verdict {
    if forall p | p in s.pcs :: Calm(s, p) then Good else Bad
  }

  ghost function Sane(s: Lock): Verdict {
    if Owners(s).Good? && Exclusive(s).Good? && NoLoss(s).Good? then Good else Bad
  }

  // ---- the highest sleeper -----------------------------------------------

  /** If anyone sleeps, some sleeper has the highest pid. */
  lemma HighestExists(s: Lock, p: Pid) returns (q: Pid)
    requires At(s, p, Asleep)
    ensures HighestAsleep(s, q)
  {
    var rest := set r | r in s.pcs && s.pcs[r] == Asleep;
    q := p;
    while rest != {}
      invariant At(s, q, Asleep) && forall r: Pid | At(s, r, Asleep) && r !in rest :: r <= q
      decreases rest
    {
      var r :| r in rest;
      rest := rest - {r};
      if At(s, r, Asleep) && r > q { q := r; }
    }
  }

  /** What wakeup_pl does: it wakes the sleeper with the highest pid, or nobody if none
      sleeps, and touches nothing else. */
  lemma WokenIs(s: Lock) returns (q: Option<Pid>)
    ensures q.None? ==> Woken(s) == s && forall r: Pid :: !At(s, r, Asleep)
    ensures q.Some? ==> HighestAsleep(s, q.value) && Woken(s) == Go(s, q.value, Awake)
  {
    if p: Pid :| At(s, p, Asleep) {
      var r := HighestExists(s, p);
      var x: Pid :| HighestAsleep(s, x) && Woken(s) == Go(s, x, Awake);
      q := Some(x);
    } else {
      q := None;
    }
  }

  // ---- every step keeps it -----------------------------------------------

  /** A step other than wakeup_pl's: one process moves on. */
  lemma OwnersMove(s: Lock, a: Action, t: Lock)
    requires Owners(s).Good? && !a.Wake? && Next(s, a) == Some(t)
    ensures Owners(t).Good?
  {
    forall p | p in t.pcs ensures Owner(t, p) { OwnerMove(s, a, t, p); }
  }

  lemma OwnerMove(s: Lock, a: Action, t: Lock, p: Pid)
    requires Owners(s).Good? && !a.Wake? && Next(s, a) == Some(t) && p in t.pcs
    ensures p in s.pcs && Owner(t, p)
  {
    assert Owner(s, a.p) && (p in s.pcs ==> Owner(s, p));
  }

  lemma ExclusiveMove(s: Lock, a: Action, t: Lock)
    requires Owners(s).Good? && Exclusive(s).Good? && !a.Wake? && Next(s, a) == Some(t)
    ensures Exclusive(t).Good?
  {
    assert Owner(s, a.p);
  }

  /** The two existence claims survive, or the lock is taken. */
  lemma ReleasingMoves(s: Lock, a: Action, t: Lock)
    requires Owners(s).Good? && !a.Wake? && Next(s, a) == Some(t) && Releasing(s)
    ensures Releasing(t)
  {
    var w: Pid :| At(s, w, Waking);
    assert At(t, w, Waking);
  }

  lemma AlertMoves(s: Lock, a: Action, t: Lock)
    requires Owners(s).Good? && !a.Wake? && Next(s, a) == Some(t) && SomeoneAlert(s)
    ensures SomeoneAlert(t) || t.locked
  {
    var w: Pid :| w in s.pcs && Alert(s.pcs[w]);
    assert Alert(t.pcs[w]) || t.locked;
  }

  lemma HopeMoves(s: Lock, a: Action, t: Lock)
    requires Owners(s).Good? && !a.Wake? && Next(s, a) == Some(t)
    ensures Releasing(s) ==> Releasing(t)
    ensures SomeoneAlert(s) ==> SomeoneAlert(t) || t.locked
  {
    if Releasing(s) { ReleasingMoves(s, a, t); }
    if SomeoneAlert(s) { AlertMoves(s, a, t); }
  }

  lemma CalmMove(s: Lock, a: Action, t: Lock, p: Pid)
    requires Owners(s).Good? && Exclusive(s).Good? && !a.Wake? && Next(s, a) == Some(t) && p in s.pcs && Calm(s, p)
    ensures p in t.pcs && Calm(t, p)
  {
    HopeMoves(s, a, t);
    assert Owner(s, p) && Owner(s, a.p);
    if a.Clear? { assert At(t, a.p, Waking); }
    if a.Doze? && a.p == p { assert Calm(s, p); }
  }

  lemma NoLossMove(s: Lock, a: Action, t: Lock)
    requires Owners(s).Good? && Exclusive(s).Good? && NoLoss(s).Good? && !a.Wake? && Next(s, a) == Some(t)
    ensures NoLoss(t).Good?
  {
    forall p | p in t.pcs
      ensures Calm(t, p)
    {
      assert p in s.pcs && Calm(s, p);
      CalmMove(s, a, t, p);
    }
  }

  lemma WakeCalm(s: Lock, p: Pid, q: Option<Pid>, t: Lock, r: Pid)
    requires Owners(s).Good? && s.pt == None && At(s, p, Waking) && r in s.pcs
    requires q.None? ==> (forall x: Pid :: !At(s, x, Asleep)) && t == Go(s, p, Done)
    requires q.Some? ==> At(s, q.value, Asleep) && t == Go(Go(s, q.value, Awake), p, Done)
    ensures Calm(t, r)
  {
    assert Owner(s, r) && Owner(s, p);
    if q.Some? { assert q.value in t.pcs && Alert(t.pcs[q.value]); }
    if q.None? { assert !At(s, r, Asleep); }
  }

  /** wakeup_pl, for one sleeper woken or none. */
  lemma WakeKeeps(s: Lock, p: Pid, q: Option<Pid>, t: Lock)
    requires Sane(s).Good? && s.pt == None && At(s, p, Waking)
    requires q.None? ==> (forall r: Pid :: !At(s, r, Asleep)) && t == Go(s, p, Done)
    requires q.Some? ==> At(s, q.value, Asleep) && t == Go(Go(s, q.value, Awake), p, Done)
    ensures Sane(t).Good?
  {
    forall r | r in t.pcs ensures Calm(t, r) { WakeCalm(s, p, q, t, r); }
    forall r | r in t.pcs ensures Owner(t, r) { assert Owner(s, r); }
    assert Exclusive(t).Good?;
  }

  lemma StepSane(s: Lock, a: Action, t: Lock)
    requires Sane(s).Good? && Next(s, a) == Some(t)
    ensures Sane(t).Good?
  {
    if a.Wake? {
      var q := WokenIs(s);
      WakeKeeps(s, a.p, q, t);
    } else {
      OwnersMove(s, a, t);
      ExclusiveMove(s, a, t);
      NoLossMove(s, a, t);
    }
  }

  lemma {:induction false} RunSane(s: Lock, acts: seq<Action>, t: Lock)
    requires Initial(s) && Run(s, acts) == Some(t)
    ensures Sane(t).Good?
  {
    if acts != [] {
      var u := Run(s, acts[..|acts| - 1]).value;
      RunSane(s, acts[..|acts| - 1], u);
      StepSane(u, acts[|acts| - 1], t);
    }
  }

  // ---- what the lock promises --------------------------------------------

  ghost predicate Reachable(t: Lock) {
    exists s, acts :: Initial(s) && Run(s, acts) == Some(t)
  }

  lemma ReachableSane(t: Lock)
    requires Reachable(t)
    ensures Sane(t).Good?
  {
    var s, acts :| Initial(s) && Run(s, acts) == Some(t);
    RunSane(s, acts, t);
  }

  /** At most one process is inside, and the lock's fields say which. */
  lemma MutualExclusion(t: Lock, p: Pid, q: Pid)
    requires Reachable(t) && p in t.pcs && q in t.pcs && Inside(t.pcs[p]) && Inside(t.pcs[q])
    ensures p == q && t.locked && t.pid == p
  {
    ReachableSane(t);
  }

  /** If the lock is free and no release is still to wake someone, a sleeper on the lock has a
      process awake in the acquire loop, and nobody is on the way to sleep. */
  lemma NoLostWakeup(t: Lock, p: Pid)
    requires Reachable(t) && !t.locked && !Releasing(t) && p in t.pcs
    ensures t.pcs[p] == Asleep ==> SomeoneAlert(t)
    ensures !t.pcs[p].Falling? && !t.pcs[p].Both? && !t.pcs[p].Dozing?
  {
    ReachableSane(t);
    assert Calm(t, p);
  }

  /** A release wakes exactly the sleeper with the highest pid, if anyone sleeps. */
  lemma ReleaseWakesHighest(s: Lock, p: Pid, t: Lock, q: Pid)
    requires Next(s, Wake(p)) == Some(t) && q in s.pcs && q != p
    ensures t.pcs.Keys == s.pcs.Keys
    ensures t.pcs[q] == if s.pcs[q] == Asleep && forall r | r in s.pcs && s.pcs[r] == Asleep :: r <= q
      then Awake else s.pcs[q]
  {
    var w := WokenIs(s);
    if s.pcs[q] == Asleep && forall r | r in s.pcs && s.pcs[r] == Asleep :: r <= q {
      assert HighestAsleep(s, q);
    } else {
      assert !HighestAsleep(s, q) by {
        if HighestAsleep(s, q) {
          forall r | r in s.pcs && s.pcs[r] == Asleep ensures r <= q { assert At(s, r, Asleep); }
        }
      }
    }
  }
}
