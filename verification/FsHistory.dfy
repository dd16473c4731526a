/** What the file system has handed to the log, and what each operation left behind. */
module FsHistory {
  import opened Blocks
  import opened FsLayout
  import opened FsOwnership
  import opened FsInode

  /** One log_write: block b with these contents. */
  datatype Entered = Entered(b: nat, data: Block)

  /** d with everything in trail stored, in order. */
  function Replay(d: Disk, trail: seq<Entered>): (r: Disk)
    ensures |r| == |d|
  {
    if trail == [] then d
    else
      var e, x := Replay(d, trail[..|trail| - 1]), trail[|trail| - 1];
      if x.b < |d| then e[x.b := x.data] else e
  }

  /** What has been logged since origin: everything in trail, oldest first, of which cuts[i] was
      there when the i-th operation ended and left views[i]. */
  datatype Tale = Tale(origin: Disk, trail: seq<Entered>, cuts: seq<nat>, views: seq<View>)

  ghost predicate Leaf(sb: Superblock, t: Tale, cut: nat, v: View) {
    cut <= |t.trail| && State(sb, v).Sound? && v.d == Replay(t.origin, t.trail[..cut])
  }

  /** Every operation left what the tale says. */
  ghost predicate Accounted(sb: Superblock, t: Tale) {
    && |t.views| == |t.cuts| > 0 && t.cuts[0] == 0
    && (forall i, j | 0 <= i < j < |t.cuts| :: t.cuts[i] <= t.cuts[j])
    && (forall i | 0 <= i < |t.cuts| :: Leaf(sb, t, t.cuts[i], t.views[i]))
  }

  datatype Record = Kept | Lost

  /** The tale is true and ends with this disk. */
  ghost function History(sb: Superblock, t: Tale, disk: Disk): Record {
    if Accounted(sb, t) && disk == Replay(t.origin, t.trail) then Kept else Lost
  }

  function Grown(t: Tale, b: nat, data: Block): Tale { t.(trail := t.trail + [Entered(b, data)]) }

  function Ended(t: Tale, v: View): Tale { t.(cuts := t.cuts + [|t.trail|], views := t.views + [v]) }

  lemma HistoryStart(sb: Superblock, v: View)
    requires State(sb, v).Sound?
    ensures History(sb, Tale(v.d, [], [0], [v]), v.d).Kept?
  {
  }

  lemma HistoryMore(sb: Superblock, t: Tale, disk: Disk, b: nat, data: Block)
    requires History(sb, t, disk).Kept? && b < |disk|
    ensures History(sb, Grown(t, b, data), disk[b := data]).Kept?
  {
    var u := Grown(t, b, data);
    assert u.trail[..|u.trail| - 1] == t.trail;
    forall i | 0 <= i < |t.cuts|
      ensures Leaf(sb, u, u.cuts[i], u.views[i])
    {
      assert Leaf(sb, t, t.cuts[i], t.views[i]);
      assert u.trail[..t.cuts[i]] == t.trail[..t.cuts[i]];
    }
  }

  lemma HistoryEnd(sb: Superblock, t: Tale, v: View)
    requires History(sb, t, v.d).Kept? && State(sb, v).Sound?
    ensures History(sb, Ended(t, v), v.d).Kept?
  {
    var u := Ended(t, v);
    assert t.trail[..|t.trail|] == t.trail;
    forall i | 0 <= i < |u.cuts|
      ensures Leaf(sb, u, u.cuts[i], u.views[i])
    {
      if i < |t.cuts| { assert Leaf(sb, t, t.cuts[i], t.views[i]); }
    }
    forall i, j | 0 <= i < j < |u.cuts|
      ensures u.cuts[i] <= u.cuts[j]
    {
      if j == |t.cuts| { assert Leaf(sb, t, t.cuts[i], t.views[i]); }
    }
  }
}
