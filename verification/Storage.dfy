/** The file system on top of the log: after a crash at any point, recovery leaves a disk on
    which the file system is sound and every file is as some whole number of operations left it. */
module Storage {
  import opened Common
  import opened Blocks
  import opened FsLayout
  import opened FsOwnership
  import opened FsInode
  import opened FsHistory
  import J = Journal
  import T = JournalTheorems
  import R = JournalRace
  import C = JournalCode
  import L = Log

  // ---- blocks the file system does not look at ---------------------------

  /** d and e hold the same inodes, free map and data. */
  ghost predicate SameAbove(sb: Superblock, d: Disk, e: Disk) {
    |e| == |d| && forall b: nat | sb.inodestart <= b < |d| :: e[b] == d[b]
  }

  /** Pointers and bytes of the files depend on no block below the inodes. */
  lemma SameFiles(sb: Superblock, d: Disk, e: Disk, ips: seq<Inode>, ow: Owners, i: nat)
    requires Owned(sb, d, ips, ow) && sb.inodestart <= sb.bmapstart && SameAbove(sb, d, e) && i < |ips|
    ensures forall s: nat :: Ptr(e, ips[i], s) == Ptr(d, ips[i], s)
    ensures forall k: nat :: FileByte(e, ips[i], k) == FileByte(d, ips[i], k)
  {
    forall s: nat
      ensures Ptr(e, ips[i], s) == Ptr(d, ips[i], s)
    {
      var ind := Ptr(d, ips[i], NDIRECT);
      if ind != 0 { assert ind in ow && sb.inodestart <= ind; }
    }
    forall k: nat
      ensures FileByte(e, ips[i], k) == FileByte(d, ips[i], k)
    {
      var b := Ptr(d, ips[i], Slot(k / 512));
      if b != 0 { assert b in ow && sb.inodestart <= b; }
    }
  }

  lemma SameOwned(sb: Superblock, d: Disk, e: Disk, ips: seq<Inode>, ow: Owners)
    requires Owned(sb, d, ips, ow) && sb.inodestart <= sb.bmapstart && SameAbove(sb, d, e)
    ensures Owned(sb, e, ips, ow)
  {
    forall i: nat | i < |ips|
      ensures forall s: nat ::
        Ptr(e, ips[i], s) == Ptr(d, ips[i], s)
    {
      SameFiles(sb, d, e, ips, ow, i);
    }
  }

  lemma SameMap(sb: Superblock, d: Disk, e: Disk, ow: Owners)
    requires ValidSb(sb) && |d| >= sb.size && SameAbove(sb, d, e) && sb.inodestart <= sb.bmapstart
    requires MapExact(sb, d, ow, {})
    ensures MapExact(sb, e, ow, {})
  {
    forall b: nat | b < sb.size
      ensures Used(sb, e, b) <==> b < DataStart(sb) || b in ow || b in {}
    {
      assert Used(sb, e, b) == Used(sb, d, b);
    }
  }

  lemma SameInode(sb: Superblock, d: Disk, e: Disk, ips: seq<Inode>, j: nat)
    requires SameAbove(sb, d, e)
    ensures DiskCopy(sb, e, ips, j) == DiskCopy(sb, d, ips, j)
  {
    if InodeBlock(sb, j) < |d| { assert Loaded(sb, e, j) == Loaded(sb, d, j); }
  }

  /** A sound file system is sound on any disk that agrees from the inodes up, with the same
      files in it. */
  lemma SameState(sb: Superblock, v: View, e: Disk)
    requires State(sb, v).Sound? && sb.inodestart <= sb.bmapstart && SameAbove(sb, v.d, e)
    ensures State(sb, v.(d := e)).Sound?
    ensures forall i: nat | i < |v.ips| :: Content(e, v.ips[i]) == Content(v.d, v.ips[i])
  {
    SameOwned(sb, v.d, e, v.ips, v.ow);
    SameMap(sb, v.d, e, v.ow);
    forall j: nat | j < |v.ips|
      ensures DiskCopy(sb, e, v.ips, j).Current? && Mapped(e, v.ips[j])
      ensures Content(e, v.ips[j]) == Content(v.d, v.ips[j])
    {
      StateFacts(sb, v, j);
      SameInode(sb, v.d, e, v.ips, j);
      SameFiles(sb, v.d, e, v.ips, v.ow, j);
    }
  }

  // ---- operations and what they log --------------------------------------

  /** The log region lies below the inodes, as mkfs lays the disk out. */
  ghost predicate Layout(c: J.Config, sb: Superblock) {
    J.ValidConfig(c) && c.start + c.size <= sb.inodestart <= sb.bmapstart
  }

  /** The log was handed what the tale tells, each operation under a number of its own; what
      comes after the last operation that ended is the work of operations still running. */
  ghost predicate Logged(t: Tale, s: J.State) {
    && |s.writes| == |t.trail|
    && (forall j | 0 <= j < |t.trail| :: s.writes[j].bno == t.trail[j].b && s.writes[j].data == t.trail[j].data)
    && |t.cuts| > 0 && (forall i | 0 <= i < |t.cuts| - 1 :: OneOp(s.writes, t.cuts[i], t.cuts[i + 1]))
    && forall j | t.cuts[|t.cuts| - 1] <= j < |s.writes| :: Running(s, s.writes[j].op)
  }

  predicate OneOp(ws: seq<J.Write>, from: nat, to: nat) {
    forall i, j | from <= i < j < to && j < |ws| :: ws[i].op == ws[j].op
  }

  ghost predicate Running(s: J.State, id: nat) {
    exists p :: p in s.ops && s.ops[p].id == id
  }

  /** The journal's view of what was written is the file system's. */
  lemma {:induction false} Replayed(base: Disk, ws: seq<J.Write>, trail: seq<Entered>, b: nat)
    requires b < |base| && |ws| == |trail|
    requires forall j | 0 <= j < |ws| ::
      ws[j].bno == trail[j].b && ws[j].data == trail[j].data
    ensures J.Current(base, ws, b) == Replay(base, trail)[b]
    decreases |ws|
  {
    if ws != [] { Replayed(base, ws[..|ws| - 1], trail[..|trail| - 1], b); }
  }

  lemma {:induction false} LastCut(cuts: seq<nat>, x: nat, n: nat) returns (k: nat)
    requires 0 < n <= |cuts| && cuts[0] <= x
    ensures k < n && cuts[k] <= x && (k + 1 < n ==> x < cuts[k + 1])
  {
    k := 0;
    while k + 1 < n && cuts[k + 1] <= x
      invariant k < n && cuts[k] <= x
    {
      k := k + 1;
    }
  }

  /** What is durable is a whole number of operations. */
  lemma WholeOperations(c: J.Config, s: J.State, t: Tale) returns (k: nat)
    requires T.CrashAtomic(c, s) && Logged(t, s) && t.cuts[0] == 0
    requires forall i | 0 <= i < |t.cuts| ::
      t.cuts[i] <= |s.writes|
    ensures k < |t.cuts| && s.durable == t.cuts[k]
  {
    k := LastCut(t.cuts, s.durable, |t.cuts|);
    var d := s.durable;
    if k + 1 < |t.cuts| {
      assert OneOp(s.writes, t.cuts[k], t.cuts[k + 1]);
      if d > 0 { assert s.writes[d - 1].op != s.writes[d].op; }
    } else if d > 0 {
      assert !Running(s, s.writes[d - 1].op);
    }
  }

  /** The disk recovery makes of d. */
  function Recovered(c: J.Config, d: Disk): (r: Disk)
    requires |d| == |c.base| && c.start < |d|
    ensures |r| == |d|
  {
    seq(|d|, b requires 0 <= b < |d| => if J.Home(c, b) then J.RecoveredAt(c, d, b) else d[b])
  }

  /** Wherever the power fails in any run of the code, on the log mkfs makes or a larger one,
      recovery leaves a sound file system: the one the first k operations left, with their files. */
  lemma CrashLeavesSound(c: J.Config, sb: Superblock, s: J.State, t: Tale, disk: Disk) returns (k: nat)
    requires Layout(c, sb) && c.size >= J.LOGSIZE && R.UntestedReachable(c, s)
    requires History(sb, t, disk).Kept? && t.origin == c.base && Logged(t, s)
    ensures k < |t.cuts| == |t.views| && s.durable == t.cuts[k] && |s.disk| == |c.base| && c.start < |s.disk|
    ensures State(sb, t.views[k].(d := Recovered(c, s.disk))).Sound?
    ensures forall i: nat | i < |t.views[k].ips| ::
      sb.inodestart + i / 8 < |s.disk| && Loaded(sb, Recovered(c, s.disk), i) == t.views[k].ips[i]
    ensures forall i: nat | i < |t.views[k].ips| ::
      Content(Recovered(c, s.disk), t.views[k].ips[i]) == Content(t.views[k].d, t.views[k].ips[i])
  {
    C.CodeCrashAtomic(c, s);
    forall i | 0 <= i < |t.cuts| ensures t.cuts[i] <= |s.writes| { assert Leaf(sb, t, t.cuts[i], t.views[i]); }
    k := WholeOperations(c, s, t);
    RecoveredAbove(c, sb, s, t, k);
    assert Leaf(sb, t, t.cuts[k], t.views[k]);
    SameState(sb, t.views[k], Recovered(c, s.disk));
    forall i: nat | i < |t.views[k].ips|
      ensures sb.inodestart + i / 8 < |s.disk| && Loaded(sb, Recovered(c, s.disk), i) == t.views[k].ips[i]
    {
      StateFacts(sb, t.views[k].(d := Recovered(c, s.disk)), i);
    }
  }

  lemma RecoveredAbove(c: J.Config, sb: Superblock, s: J.State, t: Tale, k: nat)
    requires Layout(c, sb) && T.CrashAtomic(c, s) && Accounted(sb, t) && t.origin == c.base && Logged(t, s)
    requires k < |t.cuts| && s.durable == t.cuts[k]
    ensures SameAbove(sb, t.views[k].d, Recovered(c, s.disk))
  {
    var e, v := Recovered(c, s.disk), t.views[k];
    assert Leaf(sb, t, t.cuts[k], v);
    forall b: nat | sb.inodestart <= b < |v.d|
      ensures e[b] == v.d[b]
    {
      assert J.Home(c, b);
      Replayed(c.base, s.writes[..s.durable], t.trail[..t.cuts[k]], b);
    }
  }

  // ---- the log can be handed any tale ------------------------------------

  /** The blocks a stretch of the trail writes. */
  ghost function BlocksOf(es: seq<Entered>): set<nat> {
    set i | 0 <= i < |es| :: es[i].b
  }

  lemma OneMoreBlock(es: seq<Entered>, e: Entered)
    ensures BlocksOf(es + [e]) == BlocksOf(es) + {e.b}
  {
    forall b | b in BlocksOf(es) + {e.b}
      ensures b in BlocksOf(es + [e])
    {
      if b == e.b {
        assert (es + [e])[|es|].b == b;
      } else {
        var i :| 0 <= i < |es| && es[i].b == b;
        assert (es + [e])[i].b == b;
      }
    }
  }

  /** What operation id logs when it writes es. */
  ghost function Stamped(id: nat, es: seq<Entered>): (ws: seq<J.Write>)
    ensures |ws| == |es|
  {
    seq(|es|, i requires 0 <= i < |es| => J.Write(id, es[i].b, es[i].data))
  }

  /** Different home blocks, no more of them than begin_op reserves for. */
  ghost predicate Affordable(c: J.Config, es: seq<Entered>) {
    |BlocksOf(es)| <= MAXOPBLOCKS && forall i | 0 <= i < |es| :: J.Home(c, es[i].b)
  }

  lemma PrefixAffordable(c: J.Config, es: seq<Entered>, k: nat)
    requires Affordable(c, es) && k < |es|
    ensures BlocksOf(es[..k + 1]) == BlocksOf(es[..k]) + {es[k].b} && |BlocksOf(es[..k + 1])| <= MAXOPBLOCKS
    ensures J.Home(c, es[k].b)
  {
    assert es[..k] + [es[k]] == es[..k + 1];
    OneMoreBlock(es[..k], es[k]);
    forall b | b in BlocksOf(es[..k + 1])
      ensures b in BlocksOf(es)
    {
      var i :| 0 <= i < k + 1 && es[..k + 1][i].b == b;
      assert es[i].b == b;
    }
    SubsetSize(BlocksOf(es[..k + 1]), BlocksOf(es));
  }

  lemma StampedMore(id: nat, es: seq<Entered>, k: nat)
    requires k < |es|
    ensures Stamped(id, es[..k]) + [J.Write(id, es[k].b, es[k].data)] == Stamped(id, es[..k + 1])
  {
  }

  /** Between operations, with nothing logged and no buffer in use. */
  ghost predicate Resting(log: L.Log)
    reads log, log.bc
  {
    && log.Valid() && !log.st.booting && log.st.phase == J.Idle && L.Quiescent(log.st)
    && log.st.ops == map[] && log.n == 0
  }

  /** Operation id of process me has written part, on top of ws. */
  ghost predicate Entering(s: J.State, me: nat, id: nat, ws: seq<J.Write>, part: seq<Entered>) {
    && L.Alone(s, me) && s.ops[me].id == id && s.writes == ws + Stamped(id, part)
    && s.ops[me].used == |s.lh| == |BlocksOf(part)| <= MAXOPBLOCKS
    && forall b: nat :: b in s.lh <==> b in BlocksOf(part)
  }

  /** One of its blocks. */
  method EnterOne(log: L.Log, me: nat, es: seq<Entered>, k: nat, ghost id: nat, ghost ws: seq<J.Write>)
    requires log.Valid() && log.c.size >= J.LOGSIZE && Affordable(log.c, es) && k < |es|
    requires Entering(log.st, me, id, ws, es[..k])
    modifies log, log.bc
    ensures log.Valid() && old(log.acts) <= log.acts && Entering(log.st, me, id, ws, es[..k + 1])
  {
    hide Affordable, Stamped, BlocksOf;
    PrefixAffordable(log.c, es, k);
    MayEnter(log.st, me, id, ws, es, k);
    ghost var s := log.st;
    var _ := log.Replace(me, es[k].b, es[k].data);
    EnteredOne(s, log.st, me, id, ws, es, k);
  }

  lemma MayEnter(s: J.State, me: nat, id: nat, ws: seq<J.Write>, es: seq<Entered>, k: nat)
    requires k < |es| && Entering(s, me, id, ws, es[..k]) && |BlocksOf(es[..k + 1])| <= MAXOPBLOCKS
    requires BlocksOf(es[..k + 1]) == BlocksOf(es[..k]) + {es[k].b}
    ensures L.Alone(s, me) && |s.lh| <= MAXOPBLOCKS && (es[k].b in s.lh || s.ops[me].used < MAXOPBLOCKS)
  {
  }

  lemma EnteredOne(s: J.State, t: J.State, me: nat, id: nat, ws: seq<J.Write>, es: seq<Entered>, k: nat)
    requires k < |es| && Entering(s, me, id, ws, es[..k]) && |BlocksOf(es[..k + 1])| <= MAXOPBLOCKS
    requires BlocksOf(es[..k + 1]) == BlocksOf(es[..k]) + {es[k].b}
    requires L.Alone(t, me) && t.ops[me].id == id && t.writes == s.writes + [J.Write(id, es[k].b, es[k].data)]
    requires t.lh == if es[k].b in s.lh then s.lh else s.lh + [es[k].b]
    requires t.ops[me].used == s.ops[me].used + if es[k].b in s.lh then 0 else 1
    ensures Entering(t, me, id, ws, es[..k + 1])
  {
    StampedMore(id, es, k);
    var more := J.Write(id, es[k].b, es[k].data);
    assert ws + Stamped(id, es[..k]) + [more] == ws + (Stamped(id, es[..k]) + [more]);
  }

  /** The writes of one operation, block by block. */
  method Enter(log: L.Log, me: nat, es: seq<Entered>)
    requires log.Valid() && L.Alone(log.st, me) && log.n == 0 && log.st.ops[me].used == 0
    requires log.c.size >= J.LOGSIZE && Affordable(log.c, es)
    modifies log, log.bc
    ensures log.Valid() && old(log.acts) <= log.acts && L.Alone(log.st, me) && log.n <= MAXOPBLOCKS
    ensures log.st.writes == old(log.st).writes + Stamped(old(log.st).ops[me].id, es)
    ensures log.st.ops[me].id == old(log.st).ops[me].id
  {
    hide Affordable;
    ghost var id, ws := log.st.ops[me].id, log.st.writes;
    var k := 0;
    assert Entering(log.st, me, id, ws, es[..0]) by {
      assert BlocksOf(es[..0]) == {} && ws + Stamped(id, es[..0]) == ws;
    }
    while k < |es|
      invariant k <= |es| && log.Valid() && old(log.acts) <= log.acts && Entering(log.st, me, id, ws, es[..k])
    {
      EnterOne(log, me, es, k, id, ws);
      k := k + 1;
    }
    assert es[..k] == es;
  }

  method Begin(log: L.Log, me: nat)
    requires Resting(log)
    modifies log
    ensures log.Valid() && old(log.acts) <= log.acts && L.Alone(log.st, me) && log.n == 0 && log.st.ops[me].used == 0
    ensures log.st.writes == old(log.st).writes
  {
    log.AtRest();
    var _ := log.BeginOp(me);
  }

  /** A whole operation. */
  method Operation(log: L.Log, me: nat, es: seq<Entered>)
    requires Resting(log) && log.c.size >= J.LOGSIZE && Affordable(log.c, es)
    modifies log, log.bc
    ensures Resting(log) && old(log.acts) <= log.acts
    ensures exists id :: log.st.writes == old(log.st).writes + Stamped(id, es)
  {
    Begin(log, me);
    ghost var id := log.st.ops[me].id;
    Enter(log, me, es);
    log.QuietReady(me, 0);
    var _ := log.EndOp(me);
    assert log.st.writes == old(log.st).writes + Stamped(id, es);
  }

  ghost predicate Part(c: J.Config, t: Tale, i: nat) {
    i + 1 < |t.cuts| && t.cuts[i] <= t.cuts[i + 1] <= |t.trail| && Affordable(c, t.trail[t.cuts[i]..t.cuts[i + 1]])
  }

  /** Each operation of the tale, and the one still running at its end, writes no more than begin_op
      reserves for. */
  ghost predicate WithinBudget(c: J.Config, t: Tale) {
    && |t.cuts| > 0 && t.cuts[0] == 0 && (forall i: nat | i + 1 < |t.cuts| :: Part(c, t, i))
    && t.cuts[|t.cuts| - 1] <= |t.trail| && Affordable(c, t.trail[t.cuts[|t.cuts| - 1]..])
  }

  ghost predicate Ran(t: Tale, ws: seq<J.Write>, i: nat) {
    i + 1 < |t.cuts| && t.cuts[i + 1] <= |ws| && OneOp(ws, t.cuts[i], t.cuts[i + 1])
  }

  /** ws is the first m entries of the trail, and each of the first k operations is one. */
  ghost predicate Handed(t: Tale, ws: seq<J.Write>, m: nat, k: nat) {
    && |ws| == m <= |t.trail| && k < |t.cuts|
    && (forall j | 0 <= j < m :: ws[j].bno == t.trail[j].b && ws[j].data == t.trail[j].data)
    && (forall i: nat | i < k :: Ran(t, ws, i))
  }

  lemma HandedMore(t: Tale, ws: seq<J.Write>, ws': seq<J.Write>, m: nat, m': nat, k: nat, id: nat, es: seq<Entered>)
    requires Handed(t, ws, m, k) && m <= m' <= |t.trail| && es == t.trail[m..m'] && ws' == ws + Stamped(id, es)
    ensures Handed(t, ws', m', k) && OneOp(ws', m, m') && forall j | m <= j < m' :: ws'[j].op == id
  {
    forall i: nat | i < k ensures Ran(t, ws', i) { assert Ran(t, ws, i); }
  }

  lemma HandedAll(t: Tale, s: J.State, k: nat, id: nat)
    requires Handed(t, s.writes, |t.trail|, k) && k + 1 == |t.cuts| && Running(s, id)
    requires forall j | t.cuts[k] <= j < |s.writes| :: s.writes[j].op == id
    ensures Logged(t, s)
  {
    forall i: nat | i < |t.cuts| - 1 ensures OneOp(s.writes, t.cuts[i], t.cuts[i + 1]) { assert Ran(t, s.writes, i); }
  }

  /** The k-th operation of the tale. */
  method Retell(log: L.Log, me: nat, t: Tale, k: nat)
    requires Resting(log) && log.c.size >= J.LOGSIZE && Part(log.c, t, k) && Handed(t, log.st.writes, t.cuts[k], k)
    modifies log, log.bc
    ensures Resting(log) && k + 1 < |t.cuts| && Handed(t, log.st.writes, t.cuts[k + 1], k + 1)
  {
    hide Resting, Affordable;
    var es := t.trail[t.cuts[k]..t.cuts[k + 1]];
    ghost var ws := log.st.writes;
    Operation(log, me, es);
    ghost var id :| log.st.writes == ws + Stamped(id, es);
    HandedMore(t, ws, log.st.writes, t.cuts[k], t.cuts[k + 1], k, id, es);
  }

  /** What the tale tells after its last operation ended. */
  method Leave(log: L.Log, me: nat, t: Tale, k: nat)
    requires Resting(log) && log.c.size >= J.LOGSIZE && k + 1 == |t.cuts| && t.cuts[k] <= |t.trail|
    requires Affordable(log.c, t.trail[t.cuts[k]..]) && Handed(t, log.st.writes, t.cuts[k], k)
    modifies log, log.bc
    ensures log.Valid() && Logged(t, log.st)
  {
    hide Resting, Affordable, Logged;
    var es := t.trail[t.cuts[k]..];
    ghost var ws := log.st.writes;
    Begin(log, me);
    Enter(log, me, es);
    ghost var id := log.st.ops[me].id;
    assert es == t.trail[t.cuts[k]..|t.trail|];
    HandedMore(t, ws, log.st.writes, t.cuts[k], |t.trail|, k, id, es);
    HandedAll(t, log.st, k, id);
  }

  /** Power-on with the disk the tale starts from, and recovery of its empty log. */
  method PowerOn(c: J.Config, me: nat) returns (log: L.Log)
    requires J.ValidConfig(c)
    ensures fresh(log) && fresh(log.bc) && Resting(log) && log.c == c && log.st.writes == []
  {
    ghost var prev := J.Initial(c, me);
    assert J.Run(c, prev, []) == Some(prev);
    log := new L.Log(c, c.base, me, [], prev, me);
    log.RecoverFromLog(me);
  }

  lemma HandedNone(c: J.Config, t: Tale)
    requires WithinBudget(c, t)
    ensures |t.cuts| > 0 && t.cuts[0] == 0 && Handed(t, [], 0, 0)
  {
  }

  lemma PartAt(c: J.Config, t: Tale, k: nat)
    requires WithinBudget(c, t) && k + 1 < |t.cuts|
    ensures Part(c, t, k)
  {
  }

  lemma LastPart(c: J.Config, t: Tale, k: nat)
    requires WithinBudget(c, t) && k + 1 == |t.cuts|
    ensures t.cuts[k] <= |t.trail| && Affordable(c, t.trail[t.cuts[k]..])
  {
  }

  /** The whole tale, operation by operation. */
  method Tell(log: L.Log, me: nat, t: Tale)
    requires Resting(log) && log.st.writes == [] && log.c.size >= J.LOGSIZE && WithinBudget(log.c, t)
    modifies log, log.bc
    ensures log.Valid() && Logged(t, log.st)
  {
    hide Resting, Affordable, Logged, Handed, Part, WithinBudget;
    HandedNone(log.c, t);
    var k := 0;
    while k < |t.cuts| - 1
      invariant k < |t.cuts| && Resting(log) && Handed(t, log.st.writes, t.cuts[k], k)
    {
      PartAt(log.c, t, k);
      Retell(log, me, t, k);
      k := k + 1;
    }
    LastPart(log.c, t, k);
    Leave(log, me, t, k);
  }

  /** Any tale whose operations keep to their budgets is one the log can be handed: these calls
      of begin_op, log_write and end_op lead to a state in which it was. */
  method Perform(c: J.Config, me: nat, t: Tale) returns (log: L.Log)
    requires J.ValidConfig(c) && c.size >= J.LOGSIZE && WithinBudget(c, t)
    ensures fresh(log) && fresh(log.bc) && log.Valid() && log.c == c
    ensures R.UntestedReachable(c, log.st) && Logged(t, log.st)
  {
    hide Resting, Logged, WithinBudget;
    log := PowerOn(c, me);
    Tell(log, me, t);
    log.Known();
    R.TestedReachable(c, log.st);
  }
}
