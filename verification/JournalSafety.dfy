/** What every step of the storage protocol keeps, and what follows for every run:
    crash atomicity, cache transparency, write-ahead order and log reservations. */
module JournalSafety {
  import opened Common
  import opened Blocks
  import opened Journal

  // ---- reservations as a sum over the outstanding operations -------------

  /** Header entries the outstanding operations may still claim. */
  ghost function Unused(ops: map<Pid, Op>): int {
    if ops == map[] then 0
    else
      var p :| p in ops;
      MAXOPBLOCKS - ops[p].used + Unused(ops - {p})
  }

  lemma {:induction false} UnusedSplit(ops: map<Pid, Op>, p: Pid)
    requires p in ops
    ensures Unused(ops) == MAXOPBLOCKS - ops[p].used + Unused(ops - {p})
    decreases |ops|
  {
    var q :| q in ops && Unused(ops) == MAXOPBLOCKS - ops[q].used + Unused(ops - {q});
    if q != p {
      UnusedSplit(ops - {q}, p);
      UnusedSplit(ops - {p}, q);
      assert ops - {p} - {q} == ops - {q} - {p};
    }
  }

  lemma UnusedPut(ops: map<Pid, Op>, p: Pid, op: Op)
    ensures Unused(ops[p := op]) == Unused(ops - {p}) + MAXOPBLOCKS - op.used
  {
    UnusedSplit(ops[p := op], p);
    assert ops[p := op] - {p} == ops - {p};
  }

  ghost predicate Budgets(ops: map<Pid, Op>) {
    forall p | p in ops :: ops[p].used <= MAXOPBLOCKS
  }

  lemma {:induction false} UnusedBounds(ops: map<Pid, Op>)
    requires Budgets(ops)
    ensures 0 <= Unused(ops) <= 10 * |ops|
    decreases |ops|
  {
    if ops != map[] {
      var p :| p in ops && Unused(ops) == MAXOPBLOCKS - ops[p].used + Unused(ops - {p});
      UnusedBounds(ops - {p});
    }
  }

  // ---- the invariant -----------------------------------------------------

  ghost function View(c: Config, s: State, b: nat): Block
    requires b < |c.base|
  {
    Current(c.base, s.writes, b)
  }

  ghost function Committed(c: Config, s: State, b: nat): Block
    requires b < |c.base| && s.durable <= |s.writes|
  {
    Current(c.base, s.writes[..s.durable], b)
  }

  /** Home blocks whose disk copy may be behind the logged contents. */
  ghost function Pending(c: Config, s: State): seq<nat>
    requires c.start < |s.disk|
    requires s.phase.Install? ==> s.phase.k <= |s.lh|
  {
    match s.phase
    case Idle => s.lh
    case Copy(_) => s.lh
    case Install(k) => s.lh[k..]
    case Boot => Head(s.disk[c.start])
    case Clear => []
    case Done => []
  }

  ghost predicate AllHome(c: Config, h: seq<nat>) {
    forall i | 0 <= i < |h| :: Home(c, h[i])
  }

  ghost predicate Shape(c: Config, s: State) {
    && ValidConfig(c)
    && |s.disk| == |c.base| && |s.bufs| == NBUF
    && s.durable <= |s.writes|
    && AllHome(c, s.lh) && Distinct(s.lh) && |s.lh| <= Cap(c)
    && (s.phase.Copy? ==> s.phase.k <= |s.lh|)
    && (s.phase.Install? ==> s.phase.k <= |s.lh|)
    && (s.phase in {Clear, Done, Boot} ==> s.lh == [])
    && (s.booting ==> s.phase.Boot? || s.phase.Install? || s.phase.Clear? || s.phase.Done?)
    && (s.phase.Boot? ==> s.booting)
  }

  ghost predicate BufOk(c: Config, s: State, i: nat)
    requires i < |s.bufs|
  {
    var x := s.bufs[i];
    && (x.dev == ROOTDEV ==> x.blockno < |c.base|)
    && (x.valid || x.users != {} ==> x.dev == ROOTDEV)
    && (x.dirty ==> x.valid && Home(c, x.blockno))
    && (x.holder.Some? ==> x.holder.value in x.users)
    && (s.booting ==> !x.dirty && x.users <= {s.owner})
    && (i in s.touched ==> x.valid && x.holder.Some? && x.holder.value in s.ops && Home(c, x.blockno))
  }

  /** No block has two buffers (dev >= 1; fresh buffers all say device 0, block 0). */
  ghost predicate UniqueKeys(s: State) {
    forall i, j | 0 <= i < j < |s.bufs| && s.bufs[i].dev == ROOTDEV && s.bufs[j].dev == ROOTDEV ::
      s.bufs[i].blockno != s.bufs[j].blockno
  }

  ghost predicate Buffers(c: Config, s: State) {
    && UniqueKeys(s)
    && (forall i: nat | i < |s.bufs| :: BufOk(c, s, i))
    && (forall i | i in s.touched :: i < |s.bufs|)
  }

  ghost predicate Pinned(s: State, b: nat) {
    exists i :: 0 <= i < |s.bufs| && Cached(s, i, b) && s.bufs[i].dirty
  }

  /** A dirty buffer holds the latest logged contents, a clean one what is on disk. */
  ghost predicate UpToDate(c: Config, s: State, i: nat)
    requires i < |s.bufs|
  {
    var x := s.bufs[i];
    && x.blockno < |c.base| && x.blockno < |s.disk|
    && x.data == if x.dirty then View(c, s, x.blockno) else s.disk[x.blockno]
  }

  ghost predicate AllUpToDate(c: Config, s: State) {
    forall i: nat | i < |s.bufs| && i !in s.touched && s.bufs[i].valid :: UpToDate(c, s, i)
  }

  /** Off the pending blocks, the disk holds the latest logged contents. */
  ghost predicate Settled(c: Config, s: State)
    requires Shape(c, s)
  {
    forall b: nat | Home(c, b) && b !in Pending(c, s) :: s.disk[b] == View(c, s, b)
  }

  /** The dirty buffers are those of the pending blocks. */
  ghost predicate PinsExact(c: Config, s: State)
    requires Shape(c, s)
  {
    && (forall i: nat | i < |s.bufs| && s.bufs[i].dirty :: s.bufs[i].blockno in Pending(c, s))
    && (!s.booting ==> forall b | b in Pending(c, s) :: Pinned(s, b))
  }

  ghost predicate Coherent(c: Config, s: State)
    requires Shape(c, s)
  {
    AllUpToDate(c, s) && PinsExact(c, s) && Settled(c, s)
  }

  /** The log blocks hold the logged contents of the first n blocks of h. */
  ghost predicate Copied(c: Config, s: State, h: seq<nat>, n: nat)
    requires Shape(c, s) && AllHome(c, h) && n <= |h| < c.size
  {
    forall j: nat | j < n :: LogBlock(c, s.disk, j) == View(c, s, h[j])
  }

  ghost predicate LogArea(c: Config, s: State)
    requires Shape(c, s)
  {
    var hb := s.disk[c.start];
    if s.phase in {Idle, Done} || s.phase.Copy? then
      && HeadCount(hb) == 0
      && (forall b: nat | Home(c, b) :: s.disk[b] == Committed(c, s, b))
      && (s.phase.Copy? ==> Copied(c, s, s.lh, s.phase.k))
      && (s.phase == Done ==> s.durable == |s.writes|)
      && (forall j | s.durable <= j < |s.writes| :: s.writes[j].bno in s.lh)
      && (s.lh == [] ==> s.durable == |s.writes|)
    else
      && HeadCount(hb) <= Cap(c) && AllHome(c, Head(hb)) && Distinct(Head(hb))
      && Copied(c, s, Head(hb), HeadCount(hb))
      && (forall b: nat | Home(c, b) && b !in Head(hb) :: s.disk[b] == View(c, s, b))
      && s.durable == |s.writes|
      && (s.phase.Install? ==> s.lh == Head(hb))
  }

  ghost predicate Reserved(s: State) {
    && Budgets(s.ops)
    && |s.lh| + Unused(s.ops) <= LOGSIZE
    && (s.phase != Idle ==> s.ops == map[])
  }

  /** Serial numbers: no operation has writes on both sides of the commit mark. */
  ghost predicate Whole(s: State) {
    && s.mark <= s.nextOp && s.durable <= |s.writes|
    && (forall j | 0 <= j < s.durable :: s.writes[j].op < s.mark)
    && (forall j | s.durable <= j < |s.writes| :: s.mark <= s.writes[j].op < s.nextOp)
    && (forall p | p in s.ops :: s.mark <= s.ops[p].id < s.nextOp)
  }

  ghost predicate Inv(c: Config, s: State) {
    && Shape(c, s) && Buffers(c, s) && Coherent(c, s) && LogArea(c, s)
    && Reserved(s) && Whole(s)
  }

  lemma InitialInv(c: Config, p: Pid)
    requires ValidConfig(c)
    ensures Inv(c, Initial(c, p))
  {
  }

  // ---- steps that leave disk, log and history alone ----------------------

  lemma FrameLog(c: Config, s: State, t: State)
    requires Shape(c, s) && LogArea(c, s) && Settled(c, s)
    requires |t.bufs| == NBUF
    requires t.disk == s.disk && t.lh == s.lh && t.phase == s.phase && t.booting == s.booting
    requires t.writes == s.writes && t.durable == s.durable
    ensures Shape(c, t) && LogArea(c, t) && Settled(c, t) && Pending(c, t) == Pending(c, s)
  {
  }

  lemma FrameBuffers(c: Config, s: State, t: State)
    requires Buffers(c, s)
    requires t.bufs == s.bufs && t.touched == s.touched
    requires forall i | i in s.touched && i < |s.bufs| && s.bufs[i].holder.Some? :: s.bufs[i].holder.value in t.ops
    requires t.booting ==> s.booting && t.owner == s.owner
    ensures Buffers(c, t)
  {
    forall j: nat | j < |s.bufs|
      ensures BufOk(c, t, j)
    {
      assert BufOk(c, s, j);
    }
  }

  lemma FrameUpToDate(c: Config, s: State, t: State)
    requires AllUpToDate(c, s)
    requires t.bufs == s.bufs && t.touched == s.touched && t.disk == s.disk && t.writes == s.writes
    ensures AllUpToDate(c, t)
  {
    forall j: nat | j < |t.bufs| && j !in t.touched && t.bufs[j].valid
      ensures UpToDate(c, t, j)
    {
      assert UpToDate(c, s, j);
    }
  }

  /** Every dirty buffer of s is still there, dirty, in t. */
  ghost predicate DirtyKept(s: State, t: State) {
    && |t.bufs| == |s.bufs|
    && forall i | 0 <= i < |s.bufs| && s.bufs[i].dirty ::
         t.bufs[i].dirty && t.bufs[i].dev == s.bufs[i].dev && t.bufs[i].blockno == s.bufs[i].blockno
  }

  lemma PinsKept(s: State, t: State)
    requires DirtyKept(s, t)
    ensures forall b: nat | Pinned(s, b) :: Pinned(t, b)
  {
    forall b: nat | Pinned(s, b)
      ensures Pinned(t, b)
    {
      var i :| 0 <= i < |s.bufs| && Cached(s, i, b) && s.bufs[i].dirty;
      assert Cached(t, i, b) && t.bufs[i].dirty;
    }
  }

  lemma FramePins(c: Config, s: State, t: State)
    requires Shape(c, s) && Shape(c, t) && PinsExact(c, s)
    requires DirtyKept(s, t) && DirtyKept(t, s)
    requires Pending(c, t) == Pending(c, s) && t.booting == s.booting
    ensures PinsExact(c, t)
  {
    PinsKept(s, t);
  }

  /** x may take the place of buffer i. */
  ghost predicate Replaceable(c: Config, s: State, i: nat, x: Buf)
    requires Inv(c, s) && i < NBUF
  {
    var t := s.(bufs := s.bufs[i := x]);
    && x.dirty == s.bufs[i].dirty
    && BufOk(c, t, i)
    && (i !in s.touched && x.valid ==> UpToDate(c, t, i))
    && (|| (x.dev == s.bufs[i].dev && x.blockno == s.bufs[i].blockno)
        || (!x.dirty && forall j | 0 <= j < NBUF :: !Cached(s, j, x.blockno)))
  }

  lemma OneBufBuffers(c: Config, s: State, i: nat, x: Buf)
    requires Inv(c, s) && i < NBUF && Replaceable(c, s, i, x)
    ensures Buffers(c, s.(bufs := s.bufs[i := x]))
  {
    var t := s.(bufs := s.bufs[i := x]);
    forall j: nat | j < NBUF
      ensures BufOk(c, t, j)
    {
      assert BufOk(c, s, j);
    }
    forall j, k | 0 <= j < k < NBUF && t.bufs[j].dev == ROOTDEV && t.bufs[k].dev == ROOTDEV
      ensures t.bufs[j].blockno != t.bufs[k].blockno
    {
      if x.dev != s.bufs[i].dev || x.blockno != s.bufs[i].blockno {
        assert !Cached(s, j, x.blockno) && !Cached(s, k, x.blockno);
      } else {
        assert s.bufs[j].blockno != s.bufs[k].blockno;
      }
    }
  }

  /** Replacing one buffer by a good one keeps the invariant. */
  lemma InvOneBuf(c: Config, s: State, i: nat, x: Buf)
    requires Inv(c, s) && i < NBUF && Replaceable(c, s, i, x)
    ensures Inv(c, s.(bufs := s.bufs[i := x]))
  {
    var t := s.(bufs := s.bufs[i := x]);
    OneBufBuffers(c, s, i, x);
    FrameLog(c, s, t);
    FramePins(c, s, t);
    forall j: nat | j < NBUF && j !in t.touched && t.bufs[j].valid
      ensures UpToDate(c, t, j)
    {
      assert j != i ==> UpToDate(c, s, j);
    }
  }

  lemma InvHit(c: Config, s: State, p: Pid, i: nat, b: nat)
    requires Inv(c, s) && CanHit(s, p, i, b)
    ensures Inv(c, DoHit(s, p, i))
  {
    assert BufOk(c, s, i);
    assert i !in s.touched && s.bufs[i].valid ==> UpToDate(c, s, i);
    InvOneBuf(c, s, i, s.bufs[i].(users := s.bufs[i].users + {p}));
  }

  lemma InvRecycle(c: Config, s: State, p: Pid, i: nat, b: nat)
    requires Inv(c, s) && CanRecycle(c, s, p, i, b)
    ensures Inv(c, DoRecycle(s, p, i, b))
  {
    assert BufOk(c, s, i);
    InvOneBuf(c, s, i, s.bufs[i].(dev := ROOTDEV, blockno := b, valid := false, dirty := false, users := {p}));
  }

  lemma InvLock(c: Config, s: State, p: Pid, i: nat)
    requires Inv(c, s) && CanLock(s, p, i)
    ensures Inv(c, DoLock(s, p, i))
  {
    assert BufOk(c, s, i);
    assert i !in s.touched && s.bufs[i].valid ==> UpToDate(c, s, i);
    InvOneBuf(c, s, i, s.bufs[i].(holder := Some(p)));
  }

  lemma InvReadIn(c: Config, s: State, p: Pid, i: nat)
    requires Inv(c, s) && CanReadIn(s, p, i)
    ensures Inv(c, DoReadIn(s, i))
  {
    assert BufOk(c, s, i);
    InvOneBuf(c, s, i, s.bufs[i].(data := s.disk[s.bufs[i].blockno], valid := true));
  }

  lemma InvUnlock(c: Config, s: State, p: Pid, i: nat)
    requires Inv(c, s) && CanUnlock(s, p, i)
    ensures Inv(c, DoUnlock(s, i))
  {
    assert BufOk(c, s, i);
    assert i !in s.touched && s.bufs[i].valid ==> UpToDate(c, s, i);
    InvOneBuf(c, s, i, s.bufs[i].(holder := None));
  }

  lemma InvPut(c: Config, s: State, p: Pid, i: nat)
    requires Inv(c, s) && CanPut(s, p, i)
    ensures Inv(c, DoPut(s, p, i))
  {
    assert BufOk(c, s, i);
    assert i !in s.touched && s.bufs[i].valid ==> UpToDate(c, s, i);
    InvOneBuf(c, s, i, s.bufs[i].(users := s.bufs[i].users - {p}));
  }

  // ---- operations --------------------------------------------------------

  lemma InvEdit(c: Config, s: State, p: Pid, i: nat, data: Block)
    requires Inv(c, s) && CanEdit(c, s, p, i)
    ensures Inv(c, DoEdit(s, i, data))
  {
    var t := DoEdit(s, i, data);
    FrameLog(c, s, t);
    FramePins(c, s, t);
    forall j: nat | j < NBUF
      ensures BufOk(c, t, j)
      ensures j !in t.touched && t.bufs[j].valid ==> UpToDate(c, t, j)
    {
      assert BufOk(c, s, j);
      assert j !in s.touched && s.bufs[j].valid ==> UpToDate(c, s, j);
    }
  }

  /** Changing only the operation table, with no process that has an edited buffer
      dropped from it. */
  lemma InvOps(c: Config, s: State, ops: map<Pid, Op>, nextOp: nat)
    requires Inv(c, s) && s.phase == Idle
    requires Budgets(ops) && |s.lh| + Unused(ops) <= LOGSIZE && nextOp >= s.nextOp
    requires forall p | p in ops :: s.mark <= ops[p].id < nextOp
    requires forall i | i in s.touched && i < |s.bufs| && s.bufs[i].holder.Some? :: s.bufs[i].holder.value in ops
    ensures Inv(c, s.(ops := ops, nextOp := nextOp))
  {
    var t := s.(ops := ops, nextOp := nextOp);
    FrameLog(c, s, t);
    FrameBuffers(c, s, t);
    FrameUpToDate(c, s, t);
    FramePins(c, s, t);
  }

  lemma EditorsKnown(c: Config, s: State)
    requires Inv(c, s)
    ensures forall i | i in s.touched ::
      i < |s.bufs| && s.bufs[i].holder.Some? && s.bufs[i].holder.value in s.ops
  {
    forall i | i in s.touched
      ensures i < |s.bufs| && s.bufs[i].holder.Some? && s.bufs[i].holder.value in s.ops
    {
      assert BufOk(c, s, i);
    }
  }

  lemma BeginReserves(s: State, p: Pid)
    requires Reserved(s) && CanBegin(s, p)
    ensures var ops := s.ops[p := Op(s.nextOp, 0, false)];
      Budgets(ops) && |s.lh| + Unused(ops) <= LOGSIZE
  {
    UnusedPut(s.ops, p, Op(s.nextOp, 0, false));
    assert s.ops - {p} == s.ops;
    UnusedBounds(s.ops);
  }

  lemma InvBegin(c: Config, s: State, p: Pid)
    requires Inv(c, s) && CanBegin(s, p)
    ensures Inv(c, DoBegin(s, p))
  {
    var t := DoBegin(s, p);
    BeginReserves(s, p);
    EditorsKnown(c, s);
    FrameLog(c, s, t);
    FrameBuffers(c, s, t);
    FrameUpToDate(c, s, t);
    FramePins(c, s, t);
  }

  lemma InvLogCheck(c: Config, s: State, p: Pid)
    requires Inv(c, s) && CanCheck(c, s, p)
    ensures Inv(c, DoCheck(s, p))
  {
    var op := s.ops[p].(checked := true);
    UnusedPut(s.ops, p, op);
    UnusedSplit(s.ops, p);
    EditorsKnown(c, s);
    InvOps(c, s, s.ops[p := op], s.nextOp);
  }

  lemma CurrentAppend(base: Disk, ws: seq<Write>, w: Write, b: nat)
    requires b < |base|
    ensures Current(base, ws + [w], b) == if w.bno == b then w.data else Current(base, ws, b)
  {
    assert (ws + [w])[..|ws|] == ws;
  }

  lemma AppendView(c: Config, s: State, p: Pid, i: nat)
    requires Inv(c, s) && CanAppend(c, s, p, i)
    ensures var t := DoAppend(s, p, i);
      && (forall b: nat | b < |c.base| ::
            View(c, t, b) == if b == s.bufs[i].blockno then s.bufs[i].data else View(c, s, b))
      && t.writes[..t.durable] == s.writes[..s.durable]
  {
    var t := DoAppend(s, p, i);
    var w := Write(s.ops[p].id, s.bufs[i].blockno, s.bufs[i].data);
    forall b: nat | b < |c.base|
      ensures View(c, t, b) == if b == w.bno then w.data else View(c, s, b)
    {
      CurrentAppend(c.base, s.writes, w, b);
    }
  }

  lemma InvLogAppendBufs(c: Config, s: State, p: Pid, i: nat)
    requires Inv(c, s) && CanAppend(c, s, p, i)
    ensures var t := DoAppend(s, p, i);
      && Shape(c, t) && Buffers(c, t)
      && (forall j: nat | j < |t.bufs| && j !in t.touched && t.bufs[j].valid :: UpToDate(c, t, j))
      && (forall j: nat | j < |t.bufs| && t.bufs[j].dirty :: t.bufs[j].blockno in t.lh)
  {
    var t := DoAppend(s, p, i);
    AppendView(c, s, p, i);
    assert s.bufs[i].blockno in t.lh;
    forall j: nat | j < NBUF
      ensures BufOk(c, t, j)
      ensures j !in t.touched && t.bufs[j].valid ==> UpToDate(c, t, j)
      ensures t.bufs[j].dirty ==> t.bufs[j].blockno in t.lh
    {
      assert BufOk(c, s, j) && BufOk(c, s, i);
      assert j !in s.touched && s.bufs[j].valid ==> UpToDate(c, s, j);
    }
  }

  lemma InvLogAppendArea(c: Config, s: State, p: Pid, i: nat)
    requires Inv(c, s) && CanAppend(c, s, p, i)
    requires Shape(c, DoAppend(s, p, i))
    ensures LogArea(c, DoAppend(s, p, i))
  {
    AppendView(c, s, p, i);
  }

  lemma InvLogAppend(c: Config, s: State, p: Pid, i: nat)
    requires Inv(c, s) && CanAppend(c, s, p, i)
    ensures Inv(c, DoAppend(s, p, i))
  {
    AppendView(c, s, p, i);
    InvLogAppendBufs(c, s, p, i);
    InvLogAppendArea(c, s, p, i);
    InvLogAppendPins(c, s, p, i);
    InvLogAppendBudget(c, s, p, i);
  }

  lemma InvLogAppendPins(c: Config, s: State, p: Pid, i: nat)
    requires Inv(c, s) && CanAppend(c, s, p, i)
    ensures var t := DoAppend(s, p, i); forall b | b in t.lh :: Pinned(t, b)
  {
    var t := DoAppend(s, p, i);
    assert BufOk(c, s, i);
    forall b | b in t.lh
      ensures Pinned(t, b)
    {
      if b == s.bufs[i].blockno {
        assert Cached(t, i, b) && t.bufs[i].dirty;
      } else {
        assert b in Pending(c, s) && Pinned(s, b);
        var j :| 0 <= j < NBUF && Cached(s, j, b) && s.bufs[j].dirty;
        assert Cached(t, j, b) && t.bufs[j].dirty;
      }
    }
  }

  lemma InvLogAppendBudget(c: Config, s: State, p: Pid, i: nat)
    requires Inv(c, s) && CanAppend(c, s, p, i)
    ensures Reserved(DoAppend(s, p, i))
  {
    var t := DoAppend(s, p, i);
    UnusedSplit(s.ops, p);
    UnusedPut(s.ops, p, t.ops[p]);
  }

  lemma InvEnd(c: Config, s: State, p: Pid)
    requires Inv(c, s) && CanEnd(s, p)
    ensures Inv(c, DoEnd(s, p))
  {
    var rest := s.ops - {p};
    UnusedSplit(s.ops, p);
    EditorsKnown(c, s);
    InvOps(c, s, rest, s.nextOp);
    if rest == map[] {
      InvCommitStart(c, s.(ops := rest), p);
    }
  }

  lemma InvCommitStart(c: Config, s: State, p: Pid)
    requires Inv(c, s) && s.phase == Idle && s.ops == map[]
    ensures Inv(c, s.(owner := p, phase := if |s.lh| > 0 then Copy(0) else Done))
  {
    var t := s.(owner := p, phase := if |s.lh| > 0 then Copy(0) else Done);
    assert Pending(c, t) == s.lh;
    EditorsKnown(c, s);
    FrameBuffers(c, s, t);
    FrameUpToDate(c, s, t);
    FramePins(c, s, t);
  }

  // ---- commit and recovery -----------------------------------------------

  /** A disk write by the committing process, to a block of the log region. */
  lemma LogWriteKeepsBuffers(c: Config, s: State, i: nat, data: Block)
    requires Inv(c, s) && s.phase != Idle && Holds(s, s.owner, i)
    requires s.bufs[i].dev == ROOTDEV && c.start <= s.bufs[i].blockno < c.start + c.size
    ensures var t := DiskWrite(s, i, data);
      && Buffers(c, t) && DirtyKept(s, t) && DirtyKept(t, s) && AllUpToDate(c, t)
      && (forall b: nat | Home(c, b) :: t.disk[b] == s.disk[b])
  {
    var t := DiskWrite(s, i, data);
    forall j: nat | j < NBUF
      ensures BufOk(c, t, j)
      ensures j !in t.touched && t.bufs[j].valid ==> UpToDate(c, t, j)
      ensures t.bufs[j].dirty == s.bufs[j].dirty
    {
      assert BufOk(c, s, j) && BufOk(c, s, i);
      assert j !in s.touched && s.bufs[j].valid ==> UpToDate(c, s, j);
    }
  }

  /** While no operation is outstanding there are no edited buffers. */
  lemma Quiet(c: Config, s: State)
    requires Inv(c, s) && s.phase != Idle
    ensures s.touched == {}
  {
    EditorsKnown(c, s);
  }

  lemma PinnedIsDirty(c: Config, s: State, i: nat)
    requires Inv(c, s) && !s.booting && i < NBUF
    requires s.bufs[i].dev == ROOTDEV && s.bufs[i].blockno in Pending(c, s)
    ensures s.bufs[i].dirty
  {
    assert Pinned(s, s.bufs[i].blockno);
    var j :| 0 <= j < |s.bufs| && Cached(s, j, s.bufs[i].blockno) && s.bufs[j].dirty;
  }

  lemma CopyArea(c: Config, s: State, to: nat, from: nat)
    requires Inv(c, s) && CanCopy(c, s, to, from)
    ensures var t := DoCopy(c, s, to, from); Shape(c, t) && LogArea(c, t)
  {
    hide Buffers, Reserved, Whole, Settled;
    PinnedIsDirty(c, s, from);
    Quiet(c, s);
    assert UpToDate(c, s, from);
    assert s.bufs[from].data == View(c, s, s.lh[s.phase.k]);
  }

  lemma LoggedPinned(c: Config, s: State, k: nat)
    requires Shape(c, s) && PinsExact(c, s) && !s.booting && k < |s.lh|
    requires s.phase.Copy? || (s.phase.Install? && s.phase.k <= k)
    ensures Pinned(s, s.lh[k])
  {
    var pending := Pending(c, s);
    var j := if s.phase.Install? then k - s.phase.k else k;
    assert pending[j] == s.lh[k];
    assert pending[j] in pending;
  }

  lemma InvCopy(c: Config, s: State, to: nat, from: nat)
    requires Inv(c, s) && CanCopy(c, s, to, from)
    ensures Inv(c, DoCopy(c, s, to, from))
  {
    var u := DiskWrite(s, to, s.bufs[from].data);
    var t := DoCopy(c, s, to, from);
    CopyArea(c, s, to, from);
    LogWriteKeepsBuffers(c, s, to, s.bufs[from].data);
    Quiet(c, s);
    FrameBuffers(c, u, t);
    FrameUpToDate(c, u, t);
    FramePins(c, s, t);
  }

  lemma InvCommit(c: Config, s: State, i: nat, data: Block)
    requires Inv(c, s) && CanCommit(c, s, i, data)
    ensures Inv(c, DoCommit(c, s, i, data))
  {
    var u := DiskWrite(s, i, data);
    var t := DoCommit(c, s, i, data);
    LogWriteKeepsBuffers(c, s, i, data);
    Quiet(c, s);
    FrameBuffers(c, u, t);
    FrameUpToDate(c, u, t);
    FramePins(c, s, t);
    assert t.writes[..t.durable] == s.writes;
  }

  lemma InvReset(c: Config, s: State)
    requires Inv(c, s) && CanReset(s)
    ensures Inv(c, DoReset(s))
  {
    var t := DoReset(s);
    Quiet(c, s);
    FrameBuffers(c, s, t);
    FrameUpToDate(c, s, t);
    FramePins(c, s, t);
  }

  lemma InvClear(c: Config, s: State, i: nat, data: Block)
    requires Inv(c, s) && CanClear(c, s, i, data)
    ensures Inv(c, DoClear(c, s, i, data))
  {
    var u := DiskWrite(s, i, data);
    var t := DoClear(c, s, i, data);
    LogWriteKeepsBuffers(c, s, i, data);
    Quiet(c, s);
    FrameBuffers(c, u, t);
    FrameUpToDate(c, u, t);
    FramePins(c, s, t);
    assert t.writes[..t.durable] == t.writes;
  }

  lemma InvFinish(c: Config, s: State)
    requires Inv(c, s) && s.phase == Done
    ensures Inv(c, DoFinish(s))
  {
    var t := DoFinish(s);
    Quiet(c, s);
    FrameBuffers(c, s, t);
    FrameUpToDate(c, s, t);
  }

  lemma InvReadHead(c: Config, s: State, i: nat)
    requires Inv(c, s) && CanReadHead(c, s, i)
    ensures Inv(c, DoReadHead(s, i))
  {
    var t := DoReadHead(s, i);
    Quiet(c, s);
    assert BufOk(c, s, i) && UpToDate(c, s, i);
    FrameBuffers(c, s, t);
    FrameUpToDate(c, s, t);
    assert Pending(c, t) == Pending(c, s);
  }

  lemma CrashArea(c: Config, s: State, p: Pid)
    requires Shape(c, s) && LogArea(c, s)
    ensures var t := DoCrash(s, p); Shape(c, t) && LogArea(c, t) && Settled(c, t)
  {
    var t := DoCrash(s, p);
    var hb := s.disk[c.start];
    assert Shape(c, t);
    if s.phase in {Idle, Done} || s.phase.Copy? {
      assert Head(hb) == [];
      forall b: nat | Home(c, b)
        ensures t.disk[b] == View(c, t, b)
      {
        assert View(c, t, b) == Committed(c, s, b);
      }
    } else {
      assert t.writes == s.writes;
    }
  }

  lemma InvCrash(c: Config, s: State, p: Pid)
    requires Inv(c, s)
    ensures Inv(c, DoCrash(s, p))
  {
    var t := DoCrash(s, p);
    CrashArea(c, s, p);
    assert forall j: nat | j < NBUF :: t.bufs[j] == FreshBuf;
  }

  /** install_trans writes the logged contents of the block it names. */
  lemma InstallData(c: Config, s: State, from: nat, to: nat)
    requires Inv(c, s) && CanInstall(c, s, from, to)
    ensures s.bufs[from].data == View(c, s, s.lh[s.phase.k])
    ensures s.touched == {}
  {
    Quiet(c, s);
    assert BufOk(c, s, from) && UpToDate(c, s, from);
    assert LogBlock(c, s.disk, s.phase.k) == View(c, s, s.lh[s.phase.k]);
  }

  lemma InstallArea(c: Config, s: State, from: nat, to: nat)
    requires Inv(c, s) && CanInstall(c, s, from, to)
    ensures var t := DoInstall(c, s, from, to); Shape(c, t) && LogArea(c, t)
  {
    hide Coherent, Reserved, Holds, Distinct, HeadCount, Head;
    InstallData(c, s, from, to);
  }

  lemma InstallBuffers(c: Config, s: State, from: nat, to: nat)
    requires Inv(c, s) && CanInstall(c, s, from, to)
    ensures var t := DoInstall(c, s, from, to); Buffers(c, t) && AllUpToDate(c, t)
  {
    var t := DoInstall(c, s, from, to);
    InstallData(c, s, from, to);
    forall j: nat | j < NBUF
      ensures BufOk(c, t, j)
      ensures t.bufs[j].valid ==> UpToDate(c, t, j)
    {
      assert BufOk(c, s, j) && BufOk(c, s, to);
      assert s.bufs[j].valid ==> UpToDate(c, s, j);
    }
  }

  /** Installing a block takes it off the list of those still to be installed. */
  lemma InstallPending(c: Config, s: State, from: nat, to: nat)
    requires Inv(c, s) && CanInstall(c, s, from, to)
    ensures var t := DoInstall(c, s, from, to); Shape(c, t) && Pending(c, s) == [s.lh[s.phase.k]] + Pending(c, t)
    ensures forall b | b in Pending(c, DoInstall(c, s, from, to)) :: b in Pending(c, s) && b != s.lh[s.phase.k]
  {
    hide Inv, LogArea;
    InstallArea(c, s, from, to);
    var t := DoInstall(c, s, from, to);
    assert Pending(c, s) == [s.lh[s.phase.k]] + Pending(c, t);
  }

  lemma InstallSettled(c: Config, s: State, from: nat, to: nat)
    requires Inv(c, s) && CanInstall(c, s, from, to)
    ensures var t := DoInstall(c, s, from, to); Shape(c, t) && Settled(c, t)
  {
    var t := DoInstall(c, s, from, to);
    InstallData(c, s, from, to);
    InstallPending(c, s, from, to);
    var k := s.phase.k;
    assert Home(c, s.lh[k]);
    forall b: nat | Home(c, b) && b !in Pending(c, t)
      ensures t.disk[b] == View(c, t, b)
    {
      if b != s.lh[k] { assert b !in Pending(c, s); }
    }
  }

  lemma InstallPinned(c: Config, s: State, from: nat, to: nat)
    requires Inv(c, s) && CanInstall(c, s, from, to)
    ensures var t := DoInstall(c, s, from, to); Shape(c, t) && forall b | b in Pending(c, t) && !t.booting ::
      Pinned(t, b)
  {
    InstallPending(c, s, from, to);
    var t := DoInstall(c, s, from, to);
    forall b | b in Pending(c, t) && !t.booting
      ensures Pinned(t, b)
    {
      assert Pinned(s, b);
      var j :| 0 <= j < NBUF && Cached(s, j, b) && s.bufs[j].dirty;
      assert Cached(t, j, b) && t.bufs[j].dirty;
    }
  }

  lemma InstallPins(c: Config, s: State, from: nat, to: nat)
    requires Inv(c, s) && CanInstall(c, s, from, to)
    ensures var t := DoInstall(c, s, from, to); Shape(c, t) && forall i: nat | i < NBUF && t.bufs[i].dirty ::
      t.bufs[i].blockno in Pending(c, t)
  {
    InstallPending(c, s, from, to);
    var t := DoInstall(c, s, from, to);
    forall i: nat | i < NBUF && t.bufs[i].dirty
      ensures t.bufs[i].blockno in Pending(c, t)
    {
      assert BufOk(c, s, i);
      assert t.bufs[i].blockno in Pending(c, s);
    }
  }

  lemma InvInstall(c: Config, s: State, from: nat, to: nat)
    requires Inv(c, s) && CanInstall(c, s, from, to)
    ensures Inv(c, DoInstall(c, s, from, to))
  {
    InstallArea(c, s, from, to);
    InstallSettled(c, s, from, to);
    InstallBuffers(c, s, from, to);
    InstallPinned(c, s, from, to);
    InstallPins(c, s, from, to);
  }

  // ---- how many buffers a transaction pins --------------------------------

  ghost function BlockNos(bufs: seq<Buf>): (r: seq<nat>)
    ensures |r| == |bufs| && forall i | 0 <= i < |r| :: r[i] == bufs[i].blockno
  {
    seq(|bufs|, i requires 0 <= i < |bufs| => bufs[i].blockno)
  }

  /** The blocks pinned in the first n buffers. */
  ghost function DirtyNos(bufs: seq<Buf>, n: nat): seq<nat>
    requires n <= |bufs|
  {
    if n == 0 then []
    else DirtyNos(bufs, n - 1) + if bufs[n - 1].dirty then [bufs[n - 1].blockno] else []
  }

  /** The clean ones among the first n buffers that somebody has a reference to. */
  ghost function Referenced(bufs: seq<Buf>, n: nat): set<nat> {
    set i: nat | i < n && i < |bufs| && !bufs[i].dirty && bufs[i].users != {}
  }

  /** The clean buffers somebody has a reference to, such as a reader outside any operation. */
  ghost function Borrowed(s: State): set<nat> {
    Referenced(s.bufs, |s.bufs|)
  }

  /** A buffer is pinned, referenced or free. */
  lemma {:induction false} NoneOver(bufs: seq<Buf>, n: nat)
    requires n <= |bufs|
    ensures |DirtyNos(bufs, n)| + |Referenced(bufs, n)| <= n
    ensures |DirtyNos(bufs, n)| + |Referenced(bufs, n)| == n
      <==> forall i | 0 <= i < n :: bufs[i].dirty || bufs[i].users != {}
  {
    if n == 0 {
      assert Referenced(bufs, 0) == {};
    } else {
      NoneOver(bufs, n - 1);
      if !bufs[n - 1].dirty && bufs[n - 1].users != {} {
        assert Referenced(bufs, n) == Referenced(bufs, n - 1) + {n - 1};
      } else {
        assert Referenced(bufs, n) == Referenced(bufs, n - 1);
      }
    }
  }

  lemma {:induction false} DirtyAmong(bufs: seq<Buf>, n: nat, b: nat)
    requires n <= |bufs|
    ensures b in DirtyNos(bufs, n) <==> exists i :: 0 <= i < n && bufs[i].dirty && bufs[i].blockno == b
  {
    if n > 0 { DirtyAmong(bufs, n - 1, b); }
  }

  lemma {:induction false} DirtyDistinct(bufs: seq<Buf>, n: nat)
    requires n <= |bufs|
    requires forall i, j | 0 <= i < j < n && bufs[i].dirty && bufs[j].dirty :: bufs[i].blockno != bufs[j].blockno
    ensures Distinct(DirtyNos(bufs, n))
  {
    if n > 0 {
      DirtyDistinct(bufs, n - 1);
      if bufs[n - 1].dirty { DirtyAmong(bufs, n - 1, bufs[n - 1].blockno); }
    }
  }

  /** As many buffers are pinned as blocks are still to reach their homes. */
  lemma PinnedCount(c: Config, s: State)
    requires Shape(c, s) && Buffers(c, s) && PinsExact(c, s) && !s.booting && Distinct(Pending(c, s))
    ensures |DirtyNos(s.bufs, |s.bufs|)| == |Pending(c, s)|
  {
    var nos := DirtyNos(s.bufs, |s.bufs|);
    forall i: nat | i < |s.bufs| && s.bufs[i].dirty ensures s.bufs[i].dev == ROOTDEV { assert BufOk(c, s, i); }
    DirtyDistinct(s.bufs, |s.bufs|);
    forall k | 0 <= k < |nos|
      ensures nos[k] in Pending(c, s)
    {
      DirtyAmong(s.bufs, |s.bufs|, nos[k]);
    }
    forall k | 0 <= k < |Pending(c, s)|
      ensures Pending(c, s)[k] in nos
    {
      assert Pinned(s, Pending(c, s)[k]);
      DirtyAmong(s.bufs, |s.bufs|, Pending(c, s)[k]);
    }
    DistinctWithin(nos, Pending(c, s));
    DistinctWithin(Pending(c, s), nos);
  }

  /** A buffer is free exactly when the blocks still to be installed and the clean buffers in use
      are fewer than NBUF together. */
  lemma FreeCount(c: Config, s: State)
    requires Shape(c, s) && Buffers(c, s) && PinsExact(c, s) && !s.booting
    ensures |Pending(c, s)| + |Borrowed(s)| <= NBUF
    ensures |Pending(c, s)| + |Borrowed(s)| < NBUF
      <==> exists i :: 0 <= i < |s.bufs| && !s.bufs[i].dirty && s.bufs[i].users == {}
  {
    PinnedCount(c, s);
    NoneOver(s.bufs, |s.bufs|);
  }

  predicate OnBuffers(a: Action) {
    a.Hit? || a.Recycle? || a.Lock? || a.ReadIn? || a.Unlock? || a.Put? || a.Edit? || a.ReadHead? || a.Crash?
  }

  lemma BufferStepInv(c: Config, s: State, a: Action)
    requires Inv(c, s) && Enabled(c, s, a) && OnBuffers(a)
    ensures Inv(c, Apply(c, s, a))
  {
    match a
    case Hit(p, i, b) => InvHit(c, s, p, i, b);
    case Recycle(p, i, b) => InvRecycle(c, s, p, i, b);
    case Lock(p, i) => InvLock(c, s, p, i);
    case ReadIn(p, i) => InvReadIn(c, s, p, i);
    case Unlock(p, i) => InvUnlock(c, s, p, i);
    case Put(p, i) => InvPut(c, s, p, i);
    case Edit(p, i, data) => InvEdit(c, s, p, i, data);
    case ReadHead(i) => InvReadHead(c, s, i);
    case Crash(p) => InvCrash(c, s, p);
  }

  /** Every step, by any process or by a power failure, keeps the invariant. */
  lemma StepInv(c: Config, s: State, a: Action)
    requires Inv(c, s) && Enabled(c, s, a)
    ensures Inv(c, Apply(c, s, a))
  {
    hide Inv;
    match a
    case Begin(p) => InvBegin(c, s, p);
    case LogCheck(p) => InvLogCheck(c, s, p);
    case LogAppend(p, i) => InvLogAppend(c, s, p, i);
    case End(p) => InvEnd(c, s, p);
    case CopyBlock(to, from) => InvCopy(c, s, to, from);
    case WriteHead(i, data) => InvCommit(c, s, i, data);
    case InstallBlock(from, to) => InvInstall(c, s, from, to);
    case Reset => InvReset(c, s);
    case ClearHead(i, data) => InvClear(c, s, i, data);
    case Finish => InvFinish(c, s);
    case _ => BufferStepInv(c, s, a);
  }

  lemma {:induction false} RunInv(c: Config, s: State, acts: seq<Action>)
    requires Inv(c, s) && Run(c, s, acts).Some?
    ensures Inv(c, Run(c, s, acts).value)
  {
    if acts != [] {
      RunInv(c, s, acts[..|acts| - 1]);
      StepInv(c, Run(c, s, acts[..|acts| - 1]).value, acts[|acts| - 1]);
    }
  }
}
