/** bio.c: the buffers threaded on a doubly linked ring in order of last use. */
module BufferCache {
  import opened Common
  import opened Blocks
  import opened Journal

  const HEAD: nat := NBUF   // the list head, one past the buffers

  /** The ring read from the head, most recently released first, and back to the head. */
  function Cycle(order: seq<nat>): seq<nat> {
    [HEAD] + order + [HEAD]
  }

  predicate Indices(order: seq<nat>) {
    && (forall k | 0 <= k < |order| :: order[k] < NBUF)
    && (forall j, k | 0 <= j < k < |order| :: order[j] != order[k])
  }

  /** next and prev are each other's inverse and thread exactly the buffers of order. */
  ghost predicate Ring(prev: seq<nat>, next: seq<nat>, order: seq<nat>) {
    && |prev| == |next| == NBUF + 1
    && Indices(order)
    && forall k | 0 <= k <= |order| ::
         next[Cycle(order)[k]] == Cycle(order)[k + 1] && prev[Cycle(order)[k + 1]] == Cycle(order)[k]
  }

  /** Buffer b taken out of the list: its neighbours point at each other. */
  lemma Unlink(prev: seq<nat>, next: seq<nat>, front: seq<nat>, b: nat, back: seq<nat>)
    requires Ring(prev, next, front + [b] + back) && b < NBUF
    ensures prev[b] <= NBUF && next[b] <= NBUF
    ensures Ring(prev[next[b] := prev[b]], next[prev[b] := next[b]], front + back)
  {
    var order := front + [b] + back;
    var f := |front|;
    assert order[f] == b;
    var old_, new_ := Cycle(order), Cycle(front + back);
    assert old_[f + 1] == b;
    var p, n := prev[b], next[b];
    assert p == old_[f] && n == old_[f + 2];
    forall j, k | 0 <= j < |front + back| && 0 <= k < |front + back|
      ensures (front + back)[j] < NBUF && (j < k ==> (front + back)[j] != (front + back)[k])
    {
      assert (front + back)[j] == order[if j < f then j else j + 1];
      assert (front + back)[k] == order[if k < f then k else k + 1];
    }
    forall k | 0 <= k <= |front + back|
      ensures next[p := n][new_[k]] == new_[k + 1] && prev[n := p][new_[k + 1]] == new_[k]
    {
      var k' := if k <= f then k else k + 1;
      assert new_[k] == old_[k'];
      assert k != f ==> new_[k + 1] == old_[k' + 1];
      assert next[old_[k']] == old_[k' + 1] && prev[old_[k' + 1]] == old_[k'];
    }
  }

  /** Linking buffer b in right after the head. */
  lemma PushFront(prev: seq<nat>, next: seq<nat>, order: seq<nat>, b: nat)
    requires Ring(prev, next, order) && b < NBUF && b !in order
    ensures next[HEAD] <= NBUF
    ensures Ring(prev[b := HEAD][next[HEAD] := b], next[b := next[HEAD]][HEAD := b], [b] + order)
  {
    var n := next[HEAD];
    var old_, new_ := Cycle(order), Cycle([b] + order);
    assert old_[0] == HEAD && n == old_[1];
    forall k | 0 <= k <= |order| + 1
      ensures next[b := n][HEAD := b][new_[k]] == new_[k + 1]
      ensures prev[b := HEAD][n := b][new_[k + 1]] == new_[k]
    {
      if k >= 2 {
        assert new_[k] == old_[k - 1] && new_[k + 1] == old_[k];
        assert next[old_[k - 1]] == old_[k] && prev[old_[k]] == old_[k - 1];
      }
    }
  }

  /** Where b stands in order. */
  ghost function Position(order: seq<nat>, b: nat): (k: nat)
    requires b in order
    ensures k < |order| && order[k] == b
  {
    var k: nat :| k < |order| && order[k] == b;
    k
  }

  /** The ring after buffer b is released: b first, the others in their old order. */
  ghost function Front(order: seq<nat>, b: nat): seq<nat>
    requires b in order
  {
    var k := Position(order, b);
    [b] + (order[..k] + order[k + 1..])
  }

  /** order lists every buffer, the one released last first. */
  ghost predicate Recency(order: seq<nat>, stamp: seq<nat>, clock: nat) {
    && |stamp| == |order| == NBUF && Indices(order)
    && (forall i | 0 <= i < NBUF :: i in order && stamp[i] < clock)
    && (forall j, k | 0 <= j < k < NBUF :: stamp[order[j]] > stamp[order[k]])
  }

  lemma FrontAt(order: seq<nat>, b: nat, k: nat, j: nat)
    requires b in order && k == Position(order, b) && 1 <= j < |order|
    ensures |Front(order, b)| == |order| && Front(order, b)[j] == order[if j <= k then j - 1 else j]
    ensures Front(order, b)[0] == b
  {
  }

  lemma FrontAll(order: seq<nat>, b: nat, i: nat)
    requires |order| == NBUF && b in order && i in order
    ensures i in Front(order, b)
  {
    var k, j := Position(order, b), Position(order, i);
    if j < k { FrontAt(order, b, k, j + 1); }
    else if j > k { FrontAt(order, b, k, j); }
    assert if j < k then Front(order, b)[j + 1] == i
           else if j > k then Front(order, b)[j] == i
           else Front(order, b)[0] == i;
  }

  lemma FrontOrder(order: seq<nat>, stamp: seq<nat>, clock: nat, b: nat, j: nat, k: nat)
    requires Recency(order, stamp, clock) && b < NBUF && 0 <= j < k < NBUF
    ensures var o := Front(order, b);
      |o| == NBUF && o[j] < NBUF && o[k] < NBUF && stamp[b := clock][o[j]] > stamp[b := clock][o[k]]
  {
    var p := Position(order, b);
    FrontAt(order, b, p, k);
    if j > 0 { FrontAt(order, b, p, j); }
    var k0 := if k <= p then k - 1 else k;
    assert k0 != p && stamp[order[k0]] < clock && order[k0] != b;
    if j > 0 {
      var j0 := if j <= p then j - 1 else j;
      assert j0 < k0 && j0 != p && stamp[order[j0]] > stamp[order[k0]] && order[j0] != b;
    }
  }

  lemma RecencyFront(order: seq<nat>, stamp: seq<nat>, clock: nat, b: nat)
    requires Recency(order, stamp, clock) && b < NBUF
    ensures Indices(Front(order, b)) ==> Recency(Front(order, b), stamp[b := clock], clock + 1)
  {
    var o := Front(order, b);
    FrontOrder(order, stamp, clock, b, 0, 1);
    forall i: nat | i < NBUF ensures i in o { FrontAll(order, b, i); }
    forall j: nat, k: nat | j < k < NBUF
      ensures o[j] < NBUF && o[k] < NBUF && stamp[b := clock][o[j]] > stamp[b := clock][o[k]]
    {
      FrontOrder(order, stamp, clock, b, j, k);
    }
  }

  /** A buffer bget may take over (bio.c:82). */
  predicate Free(x: Buf) {
    x.users == {} && !x.dirty
  }

  class Bcache {
    var disk: Disk
    var bufs: seq<Buf>
    var prev: seq<nat>
    var next: seq<nat>
    ghost var order: seq<nat>
    ghost var stamp: seq<nat>  // when each buffer last dropped to no references
    ghost var clock: nat

    ghost predicate Valid()
      reads this
    {
      |bufs| == NBUF && Ring(prev, next, order) && Recency(order, stamp, clock)
    }

    /** binit */
    constructor (d: Disk)
      ensures Valid()
      ensures disk == d && bufs == seq(NBUF, _ => FreshBuf)
    {
      disk := d;
      bufs := seq(NBUF, _ => FreshBuf);
      var pr: seq<nat> := seq(NBUF + 1, _ => HEAD);
      var nx: seq<nat> := seq(NBUF + 1, _ => HEAD);
      ghost var ord: seq<nat> := [];
      var b := 0;
      while b < NBUF
        invariant b <= NBUF && |ord| == b
        invariant Ring(pr, nx, ord)
        invariant forall k | 0 <= k < b :: ord[k] == b - 1 - k
      {
        PushFront(pr, nx, ord, b);
        var n := nx[HEAD];
        pr, nx := pr[b := HEAD][n := b], nx[b := n][HEAD := b];
        ord := [b] + ord;
        b := b + 1;
      }
      prev, next, order := pr, nx, ord;
      stamp := seq(NBUF, i => i);
      clock := NBUF;
      new;
      forall i | 0 <= i < NBUF
        ensures i in order
      {
        assert order[NBUF - 1 - i] == i;
      }
    }

    /** The position of a node met while walking the ring. */
    lemma Walk(k: nat)
      requires Valid() && k < NBUF
      ensures Cycle(order)[k + 1] == order[k] < NBUF
      ensures next[order[k]] == Cycle(order)[k + 2] && prev[order[k]] == Cycle(order)[k]
      ensures next[HEAD] == order[0] && prev[HEAD] == order[NBUF - 1]
    {
      assert next[Cycle(order)[k + 1]] == Cycle(order)[k + 2];
      assert prev[Cycle(order)[k + 1]] == Cycle(order)[k];
      assert next[Cycle(order)[0]] == Cycle(order)[1];
      assert prev[Cycle(order)[NBUF + 1]] == Cycle(order)[NBUF];
    }

    /** bget's first loop: is the block cached? */
    method Lookup(b: nat) returns (r: Option<nat>)
      requires Valid()
      ensures r.Some? ==> r.value < NBUF && bufs[r.value].dev == ROOTDEV && bufs[r.value].blockno == b
      ensures r.None? ==> forall i | 0 <= i < NBUF :: !(bufs[i].dev == ROOTDEV && bufs[i].blockno == b)
    {
      Walk(0);
      var i := next[HEAD];
      ghost var k := 0;
      while i != HEAD
        invariant k <= NBUF && i == Cycle(order)[k + 1]
        invariant forall j | 0 <= j < k :: !(bufs[order[j]].dev == ROOTDEV && bufs[order[j]].blockno == b)
        decreases NBUF - k
      {
        Walk(k);
        if bufs[i].dev == ROOTDEV && bufs[i].blockno == b {
          return Some(i);
        }
        i := next[i];
        k := k + 1;
      }
      forall j | 0 <= j < NBUF
        ensures !(bufs[j].dev == ROOTDEV && bufs[j].blockno == b)
      {
        assert order[Position(order, j)] == j;
      }
      return None;
    }

    lemma OldestFree(k: nat)
      requires Valid() && k < NBUF
      requires forall j | k < j < NBUF :: !Free(bufs[order[j]])
      ensures forall j | 0 <= j < NBUF && Free(bufs[j]) :: stamp[order[k]] <= stamp[j]
    {
      forall j | 0 <= j < NBUF && Free(bufs[j])
        ensures stamp[order[k]] <= stamp[j]
      {
        assert order[Position(order, j)] == j;
      }
    }

    lemma NoneFree()
      requires Valid()
      requires forall j | 0 <= j < NBUF :: !Free(bufs[order[j]])
      ensures forall j | 0 <= j < NBUF :: !Free(bufs[j])
    {
      forall j | 0 <= j < NBUF
        ensures !Free(bufs[j])
      {
        assert order[Position(order, j)] == j;
      }
    }

    /** bget's second loop: the free buffer whose last release is the oldest. */
    method Victim() returns (r: Option<nat>)
      requires Valid()
      ensures r.Some? ==> r.value < NBUF && Free(bufs[r.value])
      ensures r.Some? ==> forall i | 0 <= i < NBUF && Free(bufs[i]) :: stamp[r.value] <= stamp[i]
      ensures r.None? ==> forall i | 0 <= i < NBUF :: !Free(bufs[i])
    {
      Walk(NBUF - 1);
      var i := prev[HEAD];
      ghost var k := NBUF;
      while i != HEAD
        invariant 0 <= k <= NBUF && i == Cycle(order)[k]
        invariant forall j | k <= j < NBUF :: !Free(bufs[order[j]])
        decreases k
      {
        Walk(k - 1);
        if bufs[i].users == {} && !bufs[i].dirty {
          OldestFree(k - 1);
          return Some(i);
        }
        i := prev[i];
        k := k - 1;
      }
      NoneFree();
      return None;
    }

    /** bget for process p, when the block's buffer is not locked by someone else (else
        acquiresleep waits). None is panic("bget: no buffers"). */
    method BGet(p: Pid, b: nat) returns (r: Option<nat>)
      requires Valid()
      requires forall i | 0 <= i < NBUF && bufs[i].dev == ROOTDEV && bufs[i].blockno == b ::
                 p !in bufs[i].users && bufs[i].holder == None
      requires forall i | 0 <= i < NBUF && bufs[i].users == {} :: bufs[i].holder == None
      modifies this`bufs
      ensures Valid()
      ensures r.Some? ==> r.value < NBUF
      ensures r.Some? && old(bufs[r.value].dev == ROOTDEV && bufs[r.value].blockno == b) ==>
        var x := old(bufs)[r.value];
        bufs == old(bufs)[r.value := x.(users := x.users + {p}, holder := Some(p))]
      ensures r.Some? && !old(bufs[r.value].dev == ROOTDEV && bufs[r.value].blockno == b) ==>
        var x := old(bufs)[r.value];
        && bufs == old(bufs)[r.value := x.(dev := ROOTDEV, blockno := b, valid := false, dirty := false, users := {p},
          holder := Some(p))]
        && (forall i | 0 <= i < NBUF :: !old(bufs[i].dev == ROOTDEV && bufs[i].blockno == b))
        && Free(x) && forall i | 0 <= i < NBUF && Free(old(bufs)[i]) :: stamp[r.value] <= stamp[i]
      ensures r.None? ==> bufs == old(bufs) && forall i | 0 <= i < NBUF ::
        !old(bufs[i].dev == ROOTDEV && bufs[i].blockno == b) && !Free(old(bufs)[i])
    {
      r := Lookup(b);
      if r.Some? {
        var i := r.value;
        bufs := bufs[i := bufs[i].(users := bufs[i].users + {p})];
        bufs := bufs[i := bufs[i].(holder := Some(p))];
        return;
      }
      r := Victim();
      if r.Some? {
        var i := r.value;
        bufs := bufs[i := bufs[i].(dev := ROOTDEV, blockno := b, valid := false, dirty := false, users := {p})];
        bufs := bufs[i := bufs[i].(holder := Some(p))];
      }
    }

    /** Unlink buffer i and link it in after the head (bio.c:132-137). */
    method Relink(i: nat)
      requires Valid() && i < NBUF
      modifies this`prev, this`next
      ensures Ring(prev, next, Front(order, i))
    {
      ghost var k := Position(order, i);
      ghost var front, back := order[..k], order[k + 1..];
      assert order == front + [i] + back;
      Unlink(prev, next, front, i, back);
      prev := prev[next[i] := prev[i]];
      next := next[prev[i] := next[i]];
      PushFront(prev, next, front + back, i);
      var n := next[HEAD];
      next := next[i := n];
      prev := prev[i := HEAD];
      prev := prev[n := i];
      next := next[HEAD := i];
    }

    method MoveToFront(i: nat)
      requires Valid() && i < NBUF
      modifies this`prev, this`next, this`order, this`stamp, this`clock
      ensures Valid()
      ensures order == Front(old(order), i)
      ensures stamp == old(stamp)[i := old(clock)]
    {
      Relink(i);
      ghost var o, st := Front(order, i), stamp[i := clock];
      assert Recency(o, st, clock + 1) by { RecencyFront(order, stamp, clock, i); }
      order, stamp, clock := o, st, clock + 1;
    }

    /** brelse: unlock, drop the reference, and move an unreferenced buffer to the front. */
    method BRelse(p: Pid, i: nat)
      requires Valid() && i < NBUF
      requires bufs[i].holder == Some(p)
      modifies this`bufs, this`prev, this`next, this`order, this`stamp, this`clock
      ensures Valid()
      ensures var x := old(bufs)[i]; bufs == old(bufs)[i := x.(holder := None, users := x.users - {p})]
      ensures bufs[i].users != {} ==> order == old(order) && stamp == old(stamp)
      ensures bufs[i].users == {} ==>
        && order == Front(old(order), i)
        && stamp == old(stamp)[i := stamp[i]] && forall j | 0 <= j < NBUF && j != i :: stamp[i] > stamp[j]
    {
      bufs := bufs[i := bufs[i].(holder := None)];
      bufs := bufs[i := bufs[i].(users := bufs[i].users - {p})];
      if bufs[i].users == {} {
        MoveToFront(i);
      }
    }

    /** iderw on a locked buffer, with B_VALID clear: read it in. */
    method ReadBlock(i: nat)
      requires Valid() && i < NBUF && bufs[i].blockno < |disk| && !bufs[i].valid && !bufs[i].dirty
      modifies this`bufs
      ensures Valid()
      ensures bufs == old(bufs)[i := old(bufs)[i].(data := disk[old(bufs)[i].blockno], valid := true)]
    {
      bufs := bufs[i := bufs[i].(data := disk[bufs[i].blockno])];
      bufs := bufs[i := bufs[i].(valid := true)];
    }

    /** bwrite: the only way a block reaches the disk. */
    method BWrite(p: Pid, i: nat)
      requires Valid() && i < NBUF && bufs[i].holder == Some(p) && bufs[i].blockno < |disk|
      modifies this`bufs, this`disk
      ensures Valid()
      ensures disk == old(disk)[old(bufs)[i].blockno := old(bufs)[i].data]
      ensures bufs == old(bufs)[i := old(bufs)[i].(dirty := false, valid := true)]
    {
      bufs := bufs[i := bufs[i].(dirty := true)];
      disk := disk[bufs[i].blockno := bufs[i].data];
      bufs := bufs[i := bufs[i].(dirty := false)];
      bufs := bufs[i := bufs[i].(valid := true)];
    }
  }
}
