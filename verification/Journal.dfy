/** The crash-safe storage protocol of log.c over bio.c: buffers, the in-memory log
    header and the disk as one state, and every atomic step any process (or a power
    failure) can take as an action on it. */
module Journal {
  import opened Common
  import opened Blocks

  const LOGSIZE: nat := 30      // param.h: MAXOPBLOCKS*3
  const NBUF: nat := 30         // param.h: MAXOPBLOCKS*3
  const ROOTDEV: nat := 1

  type Pid = nat

  /** The log region is [start, start+size); base is the disk before the first boot. */
  datatype Config = Config(start: nat, size: nat, base: Disk)

  ghost predicate ValidConfig(c: Config) {
    && 1 <= c.size
    && c.start + c.size <= |c.base| < 0x8000_0000
    && HeadCount(c.base[c.start]) == 0
  }

  /** Blocks that files and metadata live in: everything outside the log region. */
  predicate Home(c: Config, b: int) {
    0 <= b < |c.base| && !(c.start <= b < c.start + c.size)
  }

  /** The largest transaction log_write accepts (log.c:218). */
  function Cap(c: Config): int {
    if LOGSIZE < c.size - 1 then LOGSIZE else c.size - 1
  }

  // ---- the on-disk header ------------------------------------------------

  function HeadCount(b: Block): nat { Word(b, 0) }

  /** The block numbers a header block names. */
  function Head(b: Block): seq<nat> {
    if HeadCount(b) <= LOGSIZE then seq(HeadCount(b), i requires 0 <= i < HeadCount(b) <= LOGSIZE => Word(b, i + 1))
    else []
  }

  /** Where in h the block b occurs last, or -1. */
  function LastIndex(h: seq<nat>, b: nat): (i: int)
    ensures -1 <= i < |h|
    ensures i >= 0 ==> h[i] == b
    ensures forall j | i < j < |h| :: h[j] != b
  {
    if h == [] then -1
    else if h[|h| - 1] == b then |h| - 1
    else LastIndex(h[..|h| - 1], b)
  }

  /** The j-th block of the log proper, after the header. */
  function LogBlock(c: Config, d: Disk, j: nat): Block
    requires c.start + 1 + j < |d|
  {
    d[c.start + 1 + j]
  }

  /** What home block b holds once recovery has run on disk d: the log's copy if the
      header names b, and what is on disk otherwise. */
  function RecoveredAt(c: Config, d: Disk, b: nat): Block
    requires |d| == |c.base| && c.start < |d| && b < |d|
  {
    var i := LastIndex(Head(d[c.start]), b);
    if i >= 0 && c.start + 1 + i < |d| then LogBlock(c, d, i) else d[b]
  }

  // ---- state -------------------------------------------------------------

  /** struct buf. The set of processes with a reference stands for refcnt (its size);
      holder is the owner of the buffer's sleep lock. */
  datatype Buf = Buf(dev: nat, blockno: nat, valid: bool, dirty: bool,
                     users: set<Pid>, holder: Option<Pid>, data: Block)

  const FreshBuf: Buf := Buf(0, 0, false, false, {}, None, ZeroBlock())

  /** Where commit() or recover_from_log() stands: k blocks copied to the log, or
      k blocks installed. Idle is log.committing == 0. */
  datatype Phase = Idle | Copy(k: nat) | Install(k: nat) | Clear | Done | Boot

  /** An FS system call between begin_op and end_op: its serial number, how many new
      header entries it has made, and whether it is inside log_write past the size test. */
  datatype Op = Op(id: nat, used: nat, checked: bool)

  /** One logged block write of one operation. */
  datatype Write = Write(op: nat, bno: nat, data: Block)

  datatype State = State(
    disk: Disk, bufs: seq<Buf>, lh: seq<nat>, phase: Phase,
    booting: bool, owner: Pid,        // owner runs the commit or the recovery
    ops: map<Pid, Op>, nextOp: nat,   // |ops| is log.outstanding
    touched: set<nat>,                // buffers edited and not yet logged
    writes: seq<Write>,               // every write logged, oldest first
    durable: nat, mark: nat)          // writes[..durable] is committed; its ops are < mark

  function PowerOn(d: Disk, p: Pid, nextOp: nat, writes: seq<Write>, mark: nat): State {
    State(d, seq(NBUF, _ => FreshBuf), [], Boot, true, p, map[], nextOp, {}, writes, |writes|, mark)
  }

  function Initial(c: Config, p: Pid): State {
    PowerOn(c.base, p, 0, [], 0)
  }

  /** Contents of block b after the given writes. */
  function Current(base: Disk, ws: seq<Write>, b: nat): Block
    requires b < |base|
  {
    if ws == [] then base[b]
    else if ws[|ws| - 1].bno == b then ws[|ws| - 1].data
    else Current(base, ws[..|ws| - 1], b)
  }

  // ---- actions -----------------------------------------------------------

  datatype Action =
    | Hit(p: Pid, i: nat, b: nat)       // bget finds block b in buffer i
    | Recycle(p: Pid, i: nat, b: nat)   // bget takes buffer i over for block b
    | Lock(p: Pid, i: nat)              // acquiresleep
    | ReadIn(p: Pid, i: nat)            // iderw, reading
    | Unlock(p: Pid, i: nat)            // releasesleep
    | Put(p: Pid, i: nat)               // refcnt--
    | Edit(p: Pid, i: nat, data: Block) // the caller changes the data
    | Begin(p: Pid)                     // begin_op gets past its loop
    | LogCheck(p: Pid)                  // log_write's tests, made without log.lock
    | LogAppend(p: Pid, i: nat)         // log_write's locked part
    | End(p: Pid)                       // end_op, up to the call of commit
    | CopyBlock(to: nat, from: nat)     // one round of write_log
    | WriteHead(i: nat, data: Block)    // write_head: the commit point
    | InstallBlock(from: nat, to: nat)  // one round of install_trans
    | Reset                             // the header in memory is emptied
    | ClearHead(i: nat, data: Block)    // write_head with an empty header
    | Finish                            // the commit is over, or recovery returns
    | ReadHead(i: nat)                  // read_head
    | Crash(p: Pid)                     // power failure; p is the next boot's process

  predicate Cached(s: State, i: int, b: int) {
    0 <= i < |s.bufs| && s.bufs[i].dev == ROOTDEV && s.bufs[i].blockno == b
  }

  /** The process p has buffer i locked and filled. */
  predicate Holds(s: State, p: Pid, i: int) {
    0 <= i < |s.bufs| && s.bufs[i].holder == Some(p) && s.bufs[i].valid
  }

  /** Until recovery returns, only the recovering process runs (proc.c:639-656). */
  predicate MayRun(s: State, p: Pid) {
    s.booting ==> p == s.owner
  }

  // bio.c

  predicate CanHit(s: State, p: Pid, i: nat, b: nat) {
    MayRun(s, p) && Cached(s, i, b) && p !in s.bufs[i].users
  }

  function DoHit(s: State, p: Pid, i: nat): State
    requires i < |s.bufs|
  {
    s.(bufs := s.bufs[i := s.bufs[i].(users := s.bufs[i].users + {p})])
  }

  predicate CanRecycle(c: Config, s: State, p: Pid, i: nat, b: nat) {
    && MayRun(s, p) && i < |s.bufs| && b < |c.base|
    && (forall j | 0 <= j < |s.bufs| :: !Cached(s, j, b))
    && s.bufs[i].users == {} && !s.bufs[i].dirty
  }

  function DoRecycle(s: State, p: Pid, i: nat, b: nat): State
    requires i < |s.bufs|
  {
    s.(bufs := s.bufs[i := s.bufs[i].(dev := ROOTDEV, blockno := b, valid := false, dirty := false, users := {p})])
  }

  predicate CanLock(s: State, p: Pid, i: nat) {
    i < |s.bufs| && p in s.bufs[i].users && s.bufs[i].holder == None
  }

  function DoLock(s: State, p: Pid, i: nat): State
    requires i < |s.bufs|
  {
    s.(bufs := s.bufs[i := s.bufs[i].(holder := Some(p))])
  }

  predicate CanReadIn(s: State, p: Pid, i: nat) {
    i < |s.bufs| && s.bufs[i].holder == Some(p) && !s.bufs[i].valid && s.bufs[i].blockno < |s.disk|
  }

  function DoReadIn(s: State, i: nat): State
    requires i < |s.bufs| && s.bufs[i].blockno < |s.disk|
  {
    s.(bufs := s.bufs[i := s.bufs[i].(data := s.disk[s.bufs[i].blockno], valid := true)])
  }

  predicate CanUnlock(s: State, p: Pid, i: nat) {
    i < |s.bufs| && s.bufs[i].holder == Some(p) && i !in s.touched
  }

  function DoUnlock(s: State, i: nat): State
    requires i < |s.bufs|
  {
    s.(bufs := s.bufs[i := s.bufs[i].(holder := None)])
  }

  predicate CanPut(s: State, p: Pid, i: nat) {
    i < |s.bufs| && p in s.bufs[i].users && s.bufs[i].holder != Some(p)
  }

  function DoPut(s: State, p: Pid, i: nat): State
    requires i < |s.bufs|
  {
    s.(bufs := s.bufs[i := s.bufs[i].(users := s.bufs[i].users - {p})])
  }

  /** bwrite on a locked buffer: the data reaches the disk and the buffer is clean. */
  function DiskWrite(s: State, i: nat, data: Block): State
    requires i < |s.bufs| && s.bufs[i].blockno < |s.disk|
  {
    s.(disk := s.disk[s.bufs[i].blockno := data],
       bufs := s.bufs[i := s.bufs[i].(data := data, dirty := false)])
  }

  // operations

  predicate CanEdit(c: Config, s: State, p: Pid, i: nat) {
    p in s.ops && Holds(s, p, i) && Home(c, s.bufs[i].blockno)
  }

  function DoEdit(s: State, i: nat, data: Block): State
    requires i < |s.bufs|
  {
    s.(bufs := s.bufs[i := s.bufs[i].(data := data)], touched := s.touched + {i})
  }

  predicate CanBegin(s: State, p: Pid) {
    s.phase == Idle && p !in s.ops && |s.lh| + (|s.ops| + 1) * 10 <= LOGSIZE  // 10 is MAXOPBLOCKS
  }

  function DoBegin(s: State, p: Pid): State {
    s.(ops := s.ops[p := Op(s.nextOp, 0, false)], nextOp := s.nextOp + 1)
  }

  predicate CanCheck(c: Config, s: State, p: Pid) {
    p in s.ops && !(|s.lh| >= LOGSIZE || |s.lh| >= c.size - 1)
  }

  function DoCheck(s: State, p: Pid): State
    requires p in s.ops
  {
    s.(ops := s.ops[p := s.ops[p].(checked := true)])
  }

  /** The caller keeps to its reservation, and the size test still holds under the lock. */
  predicate CanAppend(c: Config, s: State, p: Pid, i: nat) {
    && p in s.ops && s.ops[p].checked && Holds(s, p, i) && Home(c, s.bufs[i].blockno)
    && (s.bufs[i].blockno in s.lh || (s.ops[p].used < MAXOPBLOCKS && |s.lh| < Cap(c)))
  }

  function DoAppend(s: State, p: Pid, i: nat): State
    requires p in s.ops && i < |s.bufs|
  {
    var b := s.bufs[i].blockno;
    var op := s.ops[p];
    s.(lh := if b in s.lh then s.lh else s.lh + [b],
       bufs := s.bufs[i := s.bufs[i].(dirty := true)],
       touched := s.touched - {i},
       ops := s.ops[p := op.(checked := false, used := if b in s.lh then op.used else op.used + 1)],
       writes := s.writes + [Write(op.id, b, s.bufs[i].data)])
  }

  /** The caller is out of log_write and has logged every buffer it edited. */
  predicate CanEnd(s: State, p: Pid) {
    && p in s.ops && s.phase == Idle && !s.ops[p].checked
    && forall i | i in s.touched && i < |s.bufs| :: s.bufs[i].holder != Some(p)
  }

  function DoEnd(s: State, p: Pid): State {
    var rest := s.ops - {p};
    if rest == map[] then
      s.(ops := rest, owner := p, phase := if |s.lh| > 0 then Copy(0) else Done)
    else s.(ops := rest)
  }

  // commit and recovery

  predicate CanCopy(c: Config, s: State, to: nat, from: nat) {
    && s.phase.Copy? && s.phase.k < |s.lh|
    && Holds(s, s.owner, to) && Cached(s, to, c.start + 1 + s.phase.k) && c.start + 1 + s.phase.k < |s.disk|
    && Holds(s, s.owner, from) && Cached(s, from, s.lh[s.phase.k])
  }

  function DoCopy(c: Config, s: State, to: nat, from: nat): State
    requires CanCopy(c, s, to, from)
  {
    DiskWrite(s, to, s.bufs[from].data).(phase := Copy(s.phase.k + 1))
  }

  predicate CanCommit(c: Config, s: State, i: nat, data: Block) {
    && s.phase.Copy? && s.phase.k == |s.lh|
    && Holds(s, s.owner, i) && Cached(s, i, c.start) && c.start < |s.disk|
    && HeadCount(data) == |s.lh| && Head(data) == s.lh
  }

  function DoCommit(c: Config, s: State, i: nat, data: Block): State
    requires CanCommit(c, s, i, data)
  {
    DiskWrite(s, i, data).(phase := Install(0), durable := |s.writes|, mark := s.nextOp)
  }

  predicate CanInstall(c: Config, s: State, from: nat, to: nat) {
    && s.phase.Install? && s.phase.k < |s.lh|
    && Holds(s, s.owner, from) && Cached(s, from, c.start + 1 + s.phase.k)
    && Holds(s, s.owner, to) && Cached(s, to, s.lh[s.phase.k]) && s.lh[s.phase.k] < |s.disk|
  }

  function DoInstall(c: Config, s: State, from: nat, to: nat): State
    requires CanInstall(c, s, from, to)
  {
    DiskWrite(s, to, s.bufs[from].data).(phase := Install(s.phase.k + 1))
  }

  predicate CanReset(s: State) {
    s.phase.Install? && s.phase.k == |s.lh|
  }

  function DoReset(s: State): State {
    s.(lh := [], phase := Clear)
  }

  predicate CanClear(c: Config, s: State, i: nat, data: Block) {
    && s.phase == Clear
    && Holds(s, s.owner, i) && Cached(s, i, c.start) && c.start < |s.disk|
    && HeadCount(data) == 0
  }

  function DoClear(c: Config, s: State, i: nat, data: Block): State
    requires CanClear(c, s, i, data)
  {
    DiskWrite(s, i, data).(phase := Done)
  }

  function DoFinish(s: State): State {
    s.(phase := Idle, booting := false)
  }

  predicate CanReadHead(c: Config, s: State, i: nat) {
    s.phase == Boot && Holds(s, s.owner, i) && Cached(s, i, c.start)
  }

  function DoReadHead(s: State, i: nat): State
    requires i < |s.bufs|
  {
    s.(lh := Head(s.bufs[i].data), phase := Install(0))
  }

  function DoCrash(s: State, p: Pid): State
    requires s.durable <= |s.writes|
  {
    PowerOn(s.disk, p, s.nextOp, s.writes[..s.durable], s.mark)
  }

  /** The step a takes from s, if its guard holds. */
  function Next(c: Config, s: State, a: Action): Option<State> {
    match a
    case Hit(p, i, b) => if CanHit(s, p, i, b) then Some(DoHit(s, p, i)) else None
    case Recycle(p, i, b) => if CanRecycle(c, s, p, i, b) then Some(DoRecycle(s, p, i, b)) else None
    case Lock(p, i) => if CanLock(s, p, i) then Some(DoLock(s, p, i)) else None
    case ReadIn(p, i) => if CanReadIn(s, p, i) then Some(DoReadIn(s, i)) else None
    case Unlock(p, i) => if CanUnlock(s, p, i) then Some(DoUnlock(s, i)) else None
    case Put(p, i) => if CanPut(s, p, i) then Some(DoPut(s, p, i)) else None
    case Edit(p, i, data) => if CanEdit(c, s, p, i) then Some(DoEdit(s, i, data)) else None
    case Begin(p) => if CanBegin(s, p) then Some(DoBegin(s, p)) else None
    case LogCheck(p) => if CanCheck(c, s, p) then Some(DoCheck(s, p)) else None
    case LogAppend(p, i) => if CanAppend(c, s, p, i) then Some(DoAppend(s, p, i)) else None
    case End(p) => if CanEnd(s, p) then Some(DoEnd(s, p)) else None
    case CopyBlock(to, from) => if CanCopy(c, s, to, from) then Some(DoCopy(c, s, to, from)) else None
    case WriteHead(i, data) => if CanCommit(c, s, i, data) then Some(DoCommit(c, s, i, data)) else None
    case InstallBlock(from, to) => if CanInstall(c, s, from, to) then Some(DoInstall(c, s, from, to)) else None
    case Reset => if CanReset(s) then Some(DoReset(s)) else None
    case ClearHead(i, data) => if CanClear(c, s, i, data) then Some(DoClear(c, s, i, data)) else None
    case Finish => if s.phase == Done then Some(DoFinish(s)) else None
    case ReadHead(i) => if CanReadHead(c, s, i) then Some(DoReadHead(s, i)) else None
    case Crash(p) => if s.durable <= |s.writes| then Some(DoCrash(s, p)) else None
  }

  predicate Enabled(c: Config, s: State, a: Action) {
    Next(c, s, a).Some?
  }

  function Apply(c: Config, s: State, a: Action): State
    requires Enabled(c, s, a)
  {
    Next(c, s, a).value
  }

  /** The state a sequence of actions leads to, if each is enabled in turn. */
  function Run(c: Config, s: State, acts: seq<Action>): Option<State> {
    if acts == [] then Some(s)
    else
      match Run(c, s, acts[..|acts| - 1])
      case None => None
      case Some(t) => Next(c, t, acts[|acts| - 1])
  }
}
