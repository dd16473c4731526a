/** proc.c's loops over ptable.proc, each under ptable.lock, against the steps of Process. */
module Ptable {
  import opened Common
  import opened Process

  /** aging's effect on one slot, when nothing intervenes. */
  function Aged(p: Proc, time: int): Proc {
    if p.mode == Runnable && p.que != RR && time - p.preemption > AGING_THRS then p.(que := RR) else p
  }

  /** The sleeper on c with the highest pid, and of those the lowest slot. */
  ghost predicate Highest(procs: seq<Proc>, c: Chan, i: int) {
    && 0 <= i < |procs| && Asleep(procs[i], c)
    && forall j | 0 <= j < |procs| && Asleep(procs[j], c) ::
         procs[j].pid < procs[i].pid || (procs[j].pid == procs[i].pid && i <= j)
  }

  predicate Asleep(p: Proc, c: Chan) {
    p.mode == Sleeping && p.chan == c && p.pid > 0
  }

  /** exit's second loop, part way: z says whether it has woken init, passed whether it has
      passed this slot. */
  function Handed(p: Proc, cur: nat, passed: bool, z: bool): Proc {
    var q := if z then Woken(p, OnProc(INIT)) else p;
    if passed && q.parent == Some(cur) then q.(parent := Some(INIT)) else q
  }

  /** What wait's scan comes to. */
  datatype Scan = Reaped(slot: nat, pid: nat) | NoPoint | MustSleep

  class Ptable {
    const proc: array<Proc>

    constructor ()
      ensures fresh(proc) && proc.Length == NPROC && proc[..] == seq(NPROC, _ => NoProc)
    {
      proc := new Proc[NPROC](_ => NoProc);
      new;
      assert proc[..] == seq(NPROC, _ => NoProc);
    }

    // ---- choosing --------------------------------------------------------

    method RoundRobin(now: int) returns (res: Option<nat>)
      ensures res.Some? ==> FirstRR(proc[..], now, res.value)
      ensures res.None? ==> forall j :: !InRR(proc[..], now, j)
    {
      res := None;
      var maxDiff := MIN_INT;
      for p := 0 to proc.Length
        invariant res.None? ==> maxDiff == MIN_INT && forall j | j < p :: !InRR(proc[..], now, j)
        invariant res.Some? ==>
          res.value < p && InRR(proc[..], now, res.value) && maxDiff == now - proc[res.value].preemption
        invariant res.Some? ==> forall j | j < p && InRR(proc[..], now, j) ::
          proc[res.value].preemption < proc[j].preemption
            || (proc[res.value].preemption == proc[j].preemption && res.value <= j)
      {
        if proc[p].mode != Runnable || proc[p].que != RR { continue; }
        if now - proc[p].preemption > maxDiff {
          maxDiff := now - proc[p].preemption;
          res := Some(p);
        }
      }
    }

    method LastComeFirstServe() returns (res: Option<nat>)
      ensures res.Some? ==> FirstLCFS(proc[..], res.value)
      ensures res.None? ==> forall j :: !InLCFS(proc[..], j)
    {
      res := None;
      var latest := MIN_INT;
      for p := 0 to proc.Length
        invariant res.None? ==> latest == MIN_INT && forall j | j < p :: !InLCFS(proc[..], j)
        invariant res.Some? ==> res.value < p && InLCFS(proc[..], res.value) && latest == proc[res.value].creation
        invariant res.Some? ==> forall j | j < p && InLCFS(proc[..], j) ::
          proc[res.value].creation > proc[j].creation
            || (proc[res.value].creation == proc[j].creation && res.value <= j)
      {
        if proc[p].mode != Runnable || proc[p].que != LCFS { continue; }
        if proc[p].creation > latest {
          latest := proc[p].creation;
          res := Some(p);
        }
      }
    }

    method BestJobFirst() returns (res: Option<nat>)
      ensures res.Some? ==> FirstBJF(proc[..], res.value)
      ensures res.None? ==> forall j :: !InBJF(proc[..], j)
    {
      res := None;
      var minRank := MAX_INT;
      for p := 0 to proc.Length
        invariant res.None? ==> minRank == MAX_INT && forall j | j < p :: !InBJF(proc[..], j)
        invariant res.Some? ==> res.value < p && InBJF(proc[..], res.value) && minRank == Rank(proc[res.value])
        invariant res.Some? ==> forall j | j < p && InBJF(proc[..], j) ::
          Rank(proc[res.value]) < Rank(proc[j]) || (Rank(proc[res.value]) == Rank(proc[j]) && res.value <= j)
      {
        if proc[p].mode != Runnable || proc[p].que != BJF { continue; }
        var rank := Rank(proc[p]);
        if rank < minRank {
          minRank := rank;
          res := Some(p);
        }
      }
    }

    /** scheduler's choice: it idles exactly when nobody is in the running. */
    method Pick(now: int) returns (res: Option<nat>)
      ensures res.Some? ==> Chosen(proc[..], now, res.value)
      ensures res.None? <==> forall j :: !InRR(proc[..], now, j) && !InLCFS(proc[..], j) && !InBJF(proc[..], j)
    {
      res := RoundRobin(now);
      if res.None? { res := LastComeFirstServe(); }
      if res.None? { res := BestJobFirst(); }
    }

    // ---- changing the table ----------------------------------------------

    /** aging. Afterwards no runnable process outside RR has waited longer than AGING_THRS. */
    method Aging(time: int)
      modifies proc
      ensures forall k | 0 <= k < proc.Length :: proc[k] == Aged(old(proc[k]), time)
      ensures forall k | 0 <= k < proc.Length && proc[k].mode == Runnable && time - proc[k].preemption > 8000 ::
        proc[k].que == 1
      ensures forall k | 0 <= k < proc.Length :: proc[k] == old(proc[k]).(que := proc[k].que)
      ensures forall k | 0 <= k < proc.Length && proc[k].que != old(proc[k]).que ::
        proc[k].que == 1 && proc[k].mode == Runnable && time - proc[k].preemption > 8000
    {
      for p := 0 to proc.Length
        invariant forall k | 0 <= k < p :: proc[k] == Aged(old(proc[k]), time)
        invariant forall k | p <= k < proc.Length :: proc[k] == old(proc[k])
      {
        if proc[p].mode == Runnable && proc[p].que != RR {
          if time - proc[p].preemption > AGING_THRS { proc[p] := proc[p].(que := RR); }
        }
      }
    }

    method Wakeup1(c: Chan)
      modifies proc
      ensures proc[..] == AllWoken(old(proc[..]), c)
      ensures forall k | 0 <= k < proc.Length :: !(proc[k].mode == Sleeping && proc[k].chan == c)
      ensures forall k | 0 <= k < proc.Length ::
        if old(proc[k]).mode == Sleeping && old(proc[k]).chan == c then proc[k] == old(proc[k]).(mode := Runnable)
        else proc[k] == old(proc[k])
    {
      for p := 0 to proc.Length
        invariant forall k | 0 <= k < p :: proc[k] == Woken(old(proc[k]), c)
        invariant forall k | p <= k < proc.Length :: proc[k] == old(proc[k])
      {
        if proc[p].mode == Sleeping && proc[p].chan == c { proc[p] := proc[p].(mode := Runnable); }
      }
    }

    /** wakeup_pl: exactly the sleeper with the highest pid, if there is one. */
    method WakeupPl(c: Chan) returns (res: Option<nat>)
      modifies proc
      ensures res.Some? ==> Highest(old(proc[..]), c, res.value)
      ensures res.Some? ==> proc[..] == old(proc[..])[res.value := old(proc[..])[res.value].(mode := Runnable)]
      ensures res.None? ==> proc[..] == old(proc[..]) && forall j | 0 <= j < proc.Length :: !Asleep(proc[j], c)
    {
      var maxPid := 0;
      var chosen: Option<nat> := None;
      for p := 0 to proc.Length
        invariant chosen.None? ==> maxPid == 0 && forall j | 0 <= j < p :: !Asleep(proc[j], c)
        invariant chosen.Some? ==> chosen.value < p && Asleep(proc[chosen.value], c) && maxPid == proc[chosen.value].pid
        invariant chosen.Some? ==> forall j | 0 <= j < p && Asleep(proc[j], c) ::
          proc[j].pid < maxPid || (proc[j].pid == maxPid && chosen.value <= j)
      {
        if proc[p].chan == c && proc[p].pid > maxPid && proc[p].mode == Sleeping {
          maxPid := proc[p].pid;
          chosen := Some(p);
        }
      }
      if maxPid != 0 { proc[chosen.value] := proc[chosen.value].(mode := Runnable); }
      res := chosen;
    }

    method Kill(pid: nat) returns (ok: bool)
      modifies proc
      ensures proc[..] == Killed(old(proc[..]), pid)
      ensures ok <==> exists k | 0 <= k < proc.Length :: old(proc[k]).pid == pid
      ensures forall k | 0 <= k < proc.Length ::
        proc[k] == if old(proc[k]).pid == pid && (forall i | 0 <= i < k :: old(proc[i]).pid != pid)
          then old(proc[k]).(killed := true,
            mode := if old(proc[k]).mode == Sleeping then Runnable else old(proc[k]).mode)
          else old(proc[k])
    {
      for p := 0 to proc.Length
        invariant proc[..] == old(proc[..])
        invariant forall k | 0 <= k < p :: proc[k].pid != pid
      {
        if proc[p].pid == pid {
          assert SlotOf(proc[..], pid) == p;
          proc[p] := proc[p].(killed := true);
          if proc[p].mode == Sleeping { proc[p] := proc[p].(mode := Runnable); }
          return true;
        }
      }
      ok := false;
    }

    /** allocproc's search. */
    method FindUnused() returns (res: Option<nat>)
      ensures res.Some? ==> res.value < proc.Length && proc[res.value].mode == Unused
      ensures res.Some? ==> forall k | 0 <= k < res.value :: proc[k].mode != Unused
      ensures res.None? ==> forall k | 0 <= k < proc.Length :: proc[k].mode != Unused
    {
      for p := 0 to proc.Length
        invariant forall k | 0 <= k < p :: proc[k].mode != Unused
      {
        if proc[p].mode == Unused { return Some(p); }
      }
      res := None;
    }

    /** One scan of wait, which reaps the first zombie child it comes to. */
    method WaitScan(cur: nat) returns (r: Scan)
      requires cur < proc.Length
      modifies proc
      ensures r.Reaped? <==> HasZombie(old(proc[..]), cur)
      ensures r.Reaped? ==>
        && r.slot < proc.Length && old(proc[..])[r.slot].parent == Some(cur) && old(proc[..])[r.slot].mode == Zombie
        && r.pid == old(proc[..])[r.slot].pid
        && proc[..] == old(proc[..])[r.slot := old(proc[..])[r.slot].(mode := Unused, pid := 0, parent := None,
          killed := false)]
      ensures !r.Reaped? ==> proc[..] == old(proc[..]) && (r.NoPoint? <==> !HasChild(proc[..], cur) || proc[cur].killed)
    {
      var havekids := false;
      for p := 0 to proc.Length
        invariant proc[..] == old(proc[..])
        invariant havekids <==> exists k | 0 <= k < p :: proc[k].parent == Some(cur)
        invariant forall k | 0 <= k < p :: !(proc[k].parent == Some(cur) && proc[k].mode == Zombie)
      {
        if proc[p].parent != Some(cur) { continue; }
        havekids := true;
        if proc[p].mode == Zombie {
          var pid := proc[p].pid;
          proc[p] := proc[p].(pid := 0, parent := None, killed := false, mode := Unused);
          return Reaped(p, pid);
        }
      }
      r := if !havekids || proc[cur].killed then NoPoint else MustSleep;
    }

    /** exit's second loop: children go to init, which is woken if one is a zombie. */
    method HandOver(cur: nat)
      requires cur < proc.Length
      modifies proc
      ensures forall k | 0 <= k < proc.Length ::
        proc[k] == Handed(old(proc[k]), cur, true, HasZombie(old(proc[..]), cur))
    {
      var z := false;
      for p := 0 to proc.Length
        invariant z <==> exists k | 0 <= k < p :: old(proc[k]).parent == Some(cur) && old(proc[k]).mode == Zombie
        invariant forall k | 0 <= k < proc.Length :: proc[k] == Handed(old(proc[k]), cur, k < p, z)
      {
        if proc[p].parent == Some(cur) {
          proc[p] := proc[p].(parent := Some(INIT));
          if proc[p].mode == Zombie {
            ghost var before := proc[..];
            Wakeup1(OnProc(INIT));
            z := true;
            forall k | 0 <= k < proc.Length
              ensures proc[k] == Handed(old(proc[k]), cur, k < p + 1, z)
            {
              assert proc[..][k] == Woken(before[k], OnProc(INIT));
            }
          }
        }
      }
    }

    /** exit, from taking ptable.lock to sched. */
    method Exit(cur: nat)
      requires cur < proc.Length && cur != INIT
      modifies proc
      ensures proc[..] == Exited(old(proc[..]), cur)
    {
      ghost var was := proc[..];
      if proc[cur].parent.Some? { Wakeup1(OnProc(proc[cur].parent.value)); }
      ghost var mid := proc[..];
      assert HasZombie(mid, cur) == HasZombie(was, cur) by { SameZombies(was, mid, cur); }
      HandOver(cur);
      proc[cur] := proc[cur].(mode := Zombie);
      forall k | 0 <= k < proc.Length
        ensures proc[k] == Exited(was, cur)[k]
      {
        assert mid[k] == if was[cur].parent.Some? then Woken(was[k], OnProc(was[cur].parent.value)) else was[k];
      }
    }
  }

  lemma SameZombies(p: seq<Proc>, q: seq<Proc>, j: nat)
    requires |q| == |p|
    requires forall k | 0 <= k < |p| ::
      q[k].parent == p[k].parent && (q[k].mode == Zombie <==> p[k].mode == Zombie)
    ensures HasZombie(p, j) == HasZombie(q, j)
  {
  }
}
