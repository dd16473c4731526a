/** pipe.c: the ring buffer, with 32-bit counters that wrap, and the sleeping and waking of
    readers and writers around it. */
module Pipe {
  import opened Blocks

  // ---- the ring ----------------------------------------------------------

  lemma WrapSum(a: nat, b: nat)
    ensures (a % 0x1_0000_0000 + b) % 0x1_0000_0000 == (a + b) % 0x1_0000_0000
  {
  }

  lemma WrapSlot(a: nat)
    ensures (a % 0x1_0000_0000) % 512 == a % 512
  {
  }

  /** The counters tell full from other occupancies although they wrap. */
  lemma WrapFull(r: nat, w: nat)
    requires r <= w <= r + 512
    ensures w % 0x1_0000_0000 == (r % 0x1_0000_0000 + 512) % 0x1_0000_0000 <==> w == r + 512
    ensures w % 0x1_0000_0000 == r % 0x1_0000_0000 <==> w == r
  {
  }

  lemma SlotsApart(r: nat, k: nat, w: nat)
    requires r <= k < w < r + 512
    ensures k % 512 != w % 512
  {
  }

  class Ring {
    const data: array<Byte>
    var nread: Uint
    var nwrite: Uint
    ghost var stored: seq<Byte>   // every byte ever written
    ghost var taken: nat          // how many of them were read

    ghost predicate Valid()
      reads this, data
    {
      && data.Length == 512
      && taken <= |stored| <= taken + 512
      && nread == taken % 0x1_0000_0000 && nwrite == |stored| % 0x1_0000_0000
      && forall k | taken <= k < |stored| :: data[k % 512] == stored[k]
    }

    /** What is in the pipe. */
    ghost function Queue(): (q: seq<Byte>)
      requires Valid()
      reads this, data
      ensures |q| <= 512
    {
      stored[taken..]
    }

    predicate Empty()
      requires Valid()
      reads this, data
      ensures Empty() <==> Queue() == []
    {
      WrapFull(taken, |stored|);
      nread == nwrite
    }

    constructor ()
      ensures Valid() && Queue() == [] && stored == [] && taken == 0 && fresh(data)
    {
      data := new Byte[512](_ => 0);
      nread, nwrite := 0, 0;
      stored, taken := [], 0;
    }

    /** Store one byte at the write position and move it on. */
    method Put(b: Byte)
      requires Valid() && |Queue()| < 512
      modifies this`nwrite, this`stored, data
      ensures Valid() && stored == old(stored) + [b] && Queue() == old(Queue()) + [b]
    {
      WrapSlot(|stored|);
      WrapSum(|stored|, 1);
      forall k | taken <= k < |stored| ensures k % 512 != |stored| % 512 { SlotsApart(taken, k, |stored|); }
      data[nwrite % 512] := b;
      nwrite := (nwrite + 1) % 0x1_0000_0000;
      stored := stored + [b];
    }

    /** Fetch one byte from the read position and move it on. */
    method Get() returns (b: Byte)
      requires Valid() && Queue() != []
      modifies this`nread, this`taken
      ensures Valid() && old(Queue()) == [b] + Queue() && taken == old(taken) + 1
    {
      WrapSlot(taken);
      WrapSum(taken, 1);
      b := data[nread % 512];
      nread := (nread + 1) % 0x1_0000_0000;
      taken := taken + 1;
    }

    /** pipewrite's loop up to the point where it is done or has to sleep: i bytes fit. */
    method Fill(addr: seq<Byte>) returns (i: nat)
      requires Valid()
      modifies this`nwrite, this`stored, data
      ensures Valid() && i <= |addr| && stored == old(stored) + addr[..i] && Queue() == old(Queue()) + addr[..i]
      ensures i < |addr| ==> |Queue()| == 512
    {
      i := 0;
      while i < |addr|
        invariant Valid() && i <= |addr| && stored == old(stored) + addr[..i] && Queue() == old(Queue()) + addr[..i]
        decreases |addr| - i
      {
        WrapFull(taken, |stored|);
        if nwrite == (nread + 512) % 0x1_0000_0000 { return; }
        Put(addr[i]);
        i := i + 1;
        assert addr[..i] == addr[..i - 1] + [addr[i - 1]];
      }
    }

    /** piperead's copying loop. */
    method Drain(n: nat) returns (dst: seq<Byte>)
      requires Valid()
      modifies this`nread, this`taken
      ensures Valid() && old(Queue()) == dst + Queue() && |dst| == if |old(Queue())| < n then |old(Queue())| else n
      ensures taken == old(taken) + |dst|
    {
      hide Valid, Queue;
      dst := [];
      ghost var all := Queue();
      while |dst| < n
        invariant Valid() && all == dst + Queue() && |dst| <= n && taken == old(taken) + |dst|
        decreases n - |dst|
      {
        if Empty() { return; }
        var b := Get();
        assert dst + ([b] + Queue()) == (dst + [b]) + Queue();
        dst := dst + [b];
      }
    }
  }

  // ---- sleeping and waking -----------------------------------------------

  /** A process, by its slot in the process table. */
  type Pid = nat

  /** What a process is doing with the pipe: nothing, writing n bytes with rest still to
      store, or reading up to n bytes. */
  datatype Use = Idle | Writing(rest: seq<Byte>, n: nat, asleep: bool) | Reading(n: nat, asleep: bool)

  /** stored and taken are all bytes ever put in and taken out. */
  datatype State = State(queue: seq<Byte>, stored: seq<Byte>, taken: seq<Byte>, readopen: bool, writeopen: bool,
                         uses: seq<Use>, killed: set<Pid>)

  datatype Action =
    | BeginWrite(p: Pid, addr: seq<Byte>)
    | WriteOn(p: Pid)          // pipewrite from getting the lock to sleeping or returning
    | BeginRead(p: Pid, n: nat)
    | ReadOn(p: Pid)           // piperead likewise
    | CloseWrite | CloseRead   // pipeclose, when the last file is closed
    | Kill(p: Pid)

  function Roused(u: Use, writers: bool): Use {
    match u
    case Idle => u
    case Writing(rest, n, _) => if writers then Writing(rest, n, false) else u
    case Reading(n, _) => if writers then u else Reading(n, false)
  }

  /** wakeup on one of the two channels. */
  function AllRoused(uses: seq<Use>, writers: bool): (r: seq<Use>)
    ensures |r| == |uses| && forall p | 0 <= p < |uses| :: r[p] == Roused(uses[p], writers)
  {
    seq(|uses|, p requires 0 <= p < |uses| => Roused(uses[p], writers))
  }

  function Wakeup(s: State, writers: bool): State {
    s.(uses := AllRoused(s.uses, writers))
  }

  predicate AwakeWriter(s: State, p: Pid) {
    p < |s.uses| && s.uses[p].Writing? && !s.uses[p].asleep
  }

  predicate AwakeReader(s: State, p: Pid) {
    p < |s.uses| && s.uses[p].Reading? && !s.uses[p].asleep
  }

  function Become(s: State, p: Pid, u: Use): State
    requires p < |s.uses|
  {
    s.(uses := s.uses[p := u])
  }

  function Room(s: State): int { 512 - |s.queue| }

  /** The bytes that fit go in; then the writer is done, or gives up, or sleeps. */
  function DoWrite(s: State, p: Pid): State
    requires AwakeWriter(s, p) && |s.queue| <= 512
  {
    var rest := s.uses[p].rest;
    if |rest| <= Room(s) then
      Wakeup(Become(s.(queue := s.queue + rest, stored := s.stored + rest), p, Idle), false)
    else
      var s1 := s.(queue := s.queue + rest[..Room(s)], stored := s.stored + rest[..Room(s)]);
      if !s.readopen || p in s.killed then Become(s1, p, Idle)
      else Become(Wakeup(s1, false), p, Writing(rest[Room(s)..], s.uses[p].n, true))
  }

  function DoRead(s: State, p: Pid): State
    requires AwakeReader(s, p)
  {
    if s.queue == [] && s.writeopen then
      if p in s.killed then Become(s, p, Idle) else Become(s, p, Reading(s.uses[p].n, true))
    else
      var m := if |s.queue| < s.uses[p].n then |s.queue| else s.uses[p].n;
      Wakeup(Become(s.(queue := s.queue[m..], taken := s.taken + s.queue[..m]), p, Idle), true)
  }

  /** A process keeps the pipe's file open while it uses it (file.c counts the references). */
  function Next(s: State, a: Action): (r: State)
  {
    match a
    case BeginWrite(p, addr) =>
      if p < |s.uses| && s.uses[p] == Idle && s.writeopen then Become(s, p, Writing(addr, |addr|, false)) else s
    case WriteOn(p) => if AwakeWriter(s, p) && |s.queue| <= 512 then DoWrite(s, p) else s
    case BeginRead(p, n) =>
      if p < |s.uses| && s.uses[p] == Idle && s.readopen then Become(s, p, Reading(n, false)) else s
    case ReadOn(p) => if AwakeReader(s, p) then DoRead(s, p) else s
    case CloseWrite =>
      if forall p: nat | p < |s.uses| :: !s.uses[p].Writing? then Wakeup(s.(writeopen := false), false) else s
    case CloseRead =>
      if forall p: nat | p < |s.uses| :: !s.uses[p].Reading? then Wakeup(s.(readopen := false), true) else s
    case Kill(p) =>
      if p < |s.uses| then
        Become(s, p, if s.uses[p].Idle? then Idle else s.uses[p].(asleep := false)).(killed := s.killed + {p})
      else s
  }

  function Run(s: State, acts: seq<Action>): State {
    if acts == [] then s else Next(Run(s, acts[..|acts| - 1]), acts[|acts| - 1])
  }

  predicate Fresh(s: State) {
    s.queue == [] && s.stored == [] && s.taken == [] && s.readopen && s.writeopen && s.killed == {}
    && forall p: nat | p < |s.uses| :: s.uses[p] == Idle
  }

  datatype Flow = Steady | Spilt

  /** Bytes come out in the order they went in, none twice and none lost, and never more than
      PIPESIZE are under way. */
  ghost function Stream(s: State): Flow {
    if s.taken + s.queue == s.stored && |s.queue| <= 512 then Steady else Spilt
  }

  lemma Appended(taken: seq<Byte>, queue: seq<Byte>, x: seq<Byte>)
    ensures taken + (queue + x) == taken + queue + x
  {
  }

  lemma Shifted(taken: seq<Byte>, queue: seq<Byte>, m: nat)
    requires m <= |queue|
    ensures taken + queue[..m] + queue[m..] == taken + queue
  {
  }

  lemma StreamStep(s: State, a: Action)
    requires Stream(s).Steady?
    ensures Stream(Next(s, a)).Steady?
  {
    match a
    case WriteOn(p) =>
      if AwakeWriter(s, p) {
        var rest := s.uses[p].rest;
        Appended(s.taken, s.queue, if |rest| <= Room(s) then rest else rest[..Room(s)]);
      }
    case ReadOn(p) =>
      if AwakeReader(s, p) {
        var n := s.uses[p].n;
        Shifted(s.taken, s.queue, if |s.queue| < n then |s.queue| else n);
      }
    case _ =>
  }

  lemma {:induction false} StreamRun(s: State, acts: seq<Action>)
    requires Fresh(s)
    ensures Stream(Run(s, acts)).Steady?
  {
    if acts != [] {
      StreamRun(s, acts[..|acts| - 1]);
      StreamStep(Run(s, acts[..|acts| - 1]), acts[|acts| - 1]);
    }
  }

  // who may sleep

  /** A sleeping reader has an empty pipe whose write end is open, a sleeping writer a full one
      whose read end is open; and nobody uses a closed end. */
  ghost predicate Rightly(s: State, p: Pid)
    requires p < |s.uses|
  {
    match s.uses[p]
    case Idle => true
    case Writing(_, _, asleep) => s.writeopen && (asleep ==> |s.queue| == 512 && s.readopen)
    case Reading(n, asleep) => s.readopen && (asleep ==> s.queue == [] && s.writeopen)
  }

  datatype Sleep = Justified | Stuck

  ghost function Sleepers(s: State): Sleep {
    if forall p: nat | p < |s.uses| :: Rightly(s, p) then Justified else Stuck
  }

  /** The step that breaks it: a killed writer stores bytes, fills the pipe, and returns without
      the wakeup that a reader sleeps for. */
  ghost predicate KilledFill(s: State, a: Action) {
    && a.WriteOn? && AwakeWriter(s, a.p) && a.p in s.killed && |s.uses[a.p].rest| > Room(s)
    && s.queue == [] && exists p: nat :: p < |s.uses| && s.uses[p].Reading? && s.uses[p].asleep
  }

  lemma RightlyStep(s: State, a: Action, p: Pid)
    requires Stream(s).Steady? && Sleepers(s).Justified? && !KilledFill(s, a) && p < |s.uses|
    ensures p < |Next(s, a).uses| && Rightly(Next(s, a), p)
  {
    assert Rightly(s, p);
    match a
    case WriteOn(q) => if AwakeWriter(s, q) { RightlyWrite(s, q, p); }
    case ReadOn(q) => if AwakeReader(s, q) { RightlyRead(s, q, p); }
    case _ =>
  }

  lemma RightlyWrite(s: State, q: Pid, p: Pid)
    requires AwakeWriter(s, q) && |s.queue| <= 512 && !KilledFill(s, WriteOn(q)) && p < |s.uses|
    requires Rightly(s, p) && Rightly(s, q)
    ensures p < |DoWrite(s, q).uses| && Rightly(DoWrite(s, q), p)
  {
  }

  lemma RightlyRead(s: State, q: Pid, p: Pid)
    requires AwakeReader(s, q) && p < |s.uses| && Rightly(s, p) && Rightly(s, q)
    ensures p < |DoRead(s, q).uses| && Rightly(DoRead(s, q), p)
  {
  }

  /** Every step but that one keeps it, and that one never does. */
  lemma SleepersStep(s: State, a: Action)
    requires Stream(s).Steady? && Sleepers(s).Justified?
    ensures Sleepers(Next(s, a)).Justified? <==> !KilledFill(s, a)
  {
    var t := Next(s, a);
    if KilledFill(s, a) {
      var p: nat :| p < |s.uses| && s.uses[p].Reading? && s.uses[p].asleep;
      assert t.uses[p] == s.uses[p] && |t.queue| == 512;
      assert !Rightly(t, p);
    } else {
      forall p: nat | p < |t.uses| ensures Rightly(t, p) { RightlyStep(s, a, p); }
    }
  }

  /** If no user of the pipe is killed, whoever sleeps has reason to, in every state of every
      run. */
  lemma {:induction false} SleepersRun(s: State, acts: seq<Action>)
    requires Fresh(s) && forall k | 0 <= k < |acts| :: !acts[k].Kill?
    ensures Sleepers(Run(s, acts)).Justified? && Run(s, acts).killed == {}
  {
    if acts != [] {
      var before := acts[..|acts| - 1];
      SleepersRun(s, before);
      StreamRun(s, before);
      SleepersStep(Run(s, before), acts[|acts| - 1]);
    }
  }

  lemma RunMore(s: State, acts: seq<Action>, a: Action)
    ensures Run(s, acts + [a]) == Next(Run(s, acts), a)
  {
    assert (acts + [a])[..|acts + [a]| - 1] == acts;
  }

  /** With a killed writer it can fail: the reader sleeps on before a full pipe. */
  lemma KilledWriterStrands(addr: seq<Byte>) returns (s: State, acts: seq<Action>)
    requires |addr| > 512
    ensures Fresh(s) && |Run(s, acts).uses| == 3 && Run(s, acts).uses[2] == Reading(1, true)
    ensures |Run(s, acts).queue| == 512
  {
    s := State([], [], [], true, true, [Idle, Idle, Idle], {});
    acts := [] + [BeginRead(2, 1)];
    RunMore(s, [], BeginRead(2, 1));
    RunMore(s, acts, ReadOn(2));
    acts := acts + [ReadOn(2)];
    var asleep := [Idle, Idle, Reading(1, true)];
    ReaderSleeps(s, Run(s, acts), asleep);
    var t := Run(s, acts);
    RunMore(s, acts, BeginWrite(1, addr));
    acts := acts + [BeginWrite(1, addr)];
    RunMore(s, acts, Kill(1));
    acts := acts + [Kill(1)];
    RunMore(s, acts, WriteOn(1));
    acts := acts + [WriteOn(1)];
    WriterStops(t, addr);
  }

  lemma ReaderSleeps(s: State, t: State, asleep: seq<Use>)
    requires s == State([], [], [], true, true, [Idle, Idle, Idle], {}) && asleep == [Idle, Idle, Reading(1, true)]
    requires t == Next(Next(s, BeginRead(2, 1)), ReadOn(2))
    ensures t == s.(uses := asleep)
  {
  }

  lemma WriterStops(t: State, addr: seq<Byte>)
    requires |addr| > 512 && t == State([], [], [], true, true, [Idle, Idle, Reading(1, true)], {})
    ensures var u := Next(Next(Next(t, BeginWrite(1, addr)), Kill(1)), WriteOn(1));
            |u.uses| == 3 && u.uses[2] == Reading(1, true) && |u.queue| == 512
  {
    var u := Next(Next(t, BeginWrite(1, addr)), Kill(1));
    assert u == t.(uses := t.uses[1 := Writing(addr, |addr|, false)], killed := {1});
  }

  // the end of the stream

  /** Nobody writes to a pipe whose write end is closed, and no reader sleeps on it. */
  ghost predicate Awake(s: State) {
    !s.writeopen ==> forall p: nat | p < |s.uses| :: s.uses[p].Idle? || (s.uses[p].Reading? && !s.uses[p].asleep)
  }

  lemma AwakeStep(s: State, a: Action)
    requires Awake(s)
    ensures Awake(Next(s, a))
  {
  }

  lemma {:induction false} AwakeRun(s: State, acts: seq<Action>)
    requires Fresh(s)
    ensures Awake(Run(s, acts))
  {
    if acts != [] {
      AwakeRun(s, acts[..|acts| - 1]);
      AwakeStep(Run(s, acts[..|acts| - 1]), acts[|acts| - 1]);
    }
  }

  datatype Stage = Flowing | Ended

  /** The write end is closed and all that was stored has been taken. */
  ghost function Course(s: State): Stage {
    if !s.writeopen && s.taken == s.stored then Ended else Flowing
  }

  lemma EndedStep(s: State, a: Action)
    requires Stream(s).Steady? && Awake(s) && Course(s).Ended?
    ensures Course(Next(s, a)).Ended? && Next(s, a).taken == s.taken
  {
    assert |s.taken| + |s.queue| == |s.stored|;
  }

  /** The law of the end of the stream: once the write end is closed and everything stored has
      been taken, it stays so whatever the processes do next, and every read returns at once,
      with nothing. */
  lemma {:induction false} EndOfFile(s: State, acts: seq<Action>, more: seq<Action>, p: Pid)
    requires Fresh(s) && Course(Run(s, acts)).Ended? && p < |Run(s, acts + more).uses|
    ensures var t := Run(s, acts + more);
      && Course(t).Ended? && t.taken == Run(s, acts).taken
      && (t.uses[p].Reading? ==> !t.uses[p].asleep)
      && (AwakeReader(t, p) ==> |Next(t, ReadOn(p)).uses| == |t.uses| && Next(t, ReadOn(p)).uses[p] == Idle
                                && Next(t, ReadOn(p)).taken == t.taken)
  {
    AwakeRun(s, acts + more);
    StreamRun(s, acts + more);
    StaysEnded(s, acts, more);
    if AwakeReader(Run(s, acts + more), p) { EndedStep(Run(s, acts + more), ReadOn(p)); }
  }

  lemma {:induction false} StaysEnded(s: State, acts: seq<Action>, more: seq<Action>)
    requires Fresh(s) && Course(Run(s, acts)).Ended?
    ensures Course(Run(s, acts + more)).Ended? && Run(s, acts + more).taken == Run(s, acts).taken
  {
    if more == [] {
      assert acts + more == acts;
    } else {
      var before, last := more[..|more| - 1], more[|more| - 1];
      StaysEnded(s, acts, before);
      AwakeRun(s, acts + before);
      StreamRun(s, acts + before);
      assert acts + more == acts + before + [last];
      RunMore(s, acts + before, last);
      EndedStep(Run(s, acts + before), last);
    }
  }

  lemma ReadNext(s: State, p: Pid, dst: seq<Byte>, rest: seq<Byte>)
    requires AwakeReader(s, p) && !(s.queue == [] && s.writeopen) && s.queue == dst + rest
    requires |dst| == if |s.queue| < s.uses[p].n then |s.queue| else s.uses[p].n
    ensures Next(s, ReadOn(p)) ==
      s.(queue := rest, taken := s.taken + dst, uses := AllRoused(s.uses[p := Idle], true))
  {
    assert s.queue[..|dst|] == dst && s.queue[|dst|..] == rest;
  }

  // ---- the pipe as the processes share it --------------------------------

  /** How a stretch of pipewrite or piperead under the lock ends. */
  datatype Ending<T> = Returns(value: T) | Fails | Sleeps

  class SharedPipe {
    const ring: Ring
    var readopen: bool
    var writeopen: bool
    var uses: seq<Use>           // what each process is doing with the pipe
    var killed: set<Pid>
    ghost const start: State
    ghost var acts: seq<Action>  // everything done to the pipe so far
    ghost var st: State

    /** The ring and the flags are a state of the machine, reached by acts. */
    ghost predicate Valid()
      reads this, ring, ring.data
    {
      && ring.Valid() && Fresh(start) && st == Run(start, acts)
      && ring.Queue() == st.queue && ring.stored == st.stored && ring.stored[..ring.taken] == st.taken
      && readopen == st.readopen && writeopen == st.writeopen && uses == st.uses && killed == st.killed
    }

    /** pipealloc, for n processes. */
    constructor (n: nat)
      ensures Valid() && fresh(ring) && fresh(ring.data) && acts == [] && |uses| == n
    {
      ring := new Ring();
      readopen, writeopen, uses, killed := true, true, seq(n, _ => Idle), {};
      start := State([], [], [], true, true, seq(n, _ => Idle), {});
      acts := [];
      st := State([], [], [], true, true, seq(n, _ => Idle), {});
    }

    ghost method Advance(a: Action)
      requires st == Run(start, acts)
      modifies this`st, this`acts
      ensures st == Next(old(st), a) && acts == old(acts) + [a] && st == Run(start, acts)
    {
      RunMore(start, acts, a);
      st := Next(st, a);
      acts := acts + [a];
    }

    /** A process enters pipewrite. */
    method BeginWrite(p: Pid, addr: seq<Byte>)
      requires Valid() && p < |uses| && uses[p] == Idle && writeopen
      modifies this`uses, this`st, this`acts
      ensures Valid() && acts == old(acts) + [Action.BeginWrite(p, addr)]
      ensures uses == old(uses)[p := Writing(addr, |addr|, false)]
    {
      Advance(Action.BeginWrite(p, addr));
      uses := uses[p := Writing(addr, |addr|, false)];
    }

    /** pipewrite from getting the lock, at the start or after a sleep, to sleeping or returning. */
    method WriteOn(p: Pid) returns (r: Ending<nat>)
      requires Valid() && p < |uses| && uses[p].Writing? && !uses[p].asleep
      modifies this`uses, this`st, this`acts, ring`nwrite, ring`stored, ring.data
      ensures Valid() && acts == old(acts) + [Action.WriteOn(p)] && |uses| == |old(uses)|
      ensures r.Sleeps? <==> uses[p].Writing? && uses[p].asleep && uses[p].n == old(uses)[p].n
      ensures r.Returns? ==> r.value == old(uses)[p].n
      ensures r.Returns? <==> |old(uses)[p].rest| <= 512 - |old(ring.Queue())|
      ensures r.Fails? <==>
        |old(uses)[p].rest| > 512 - |old(ring.Queue())| && (!readopen || p in killed)
      ensures r.Returns? ==> ring.stored == old(ring.stored) + old(uses)[p].rest
      ensures !r.Returns? ==> ring.stored == old(ring.stored) + old(uses)[p].rest[..512 - |old(ring.Queue())|]
      ensures r.Sleeps? ==> uses[p].rest == old(uses)[p].rest[512 - |old(ring.Queue())|..]
      ensures !r.Sleeps? ==> uses[p] == Idle
      ensures forall q: nat | q < |uses| && q != p ::
        uses[q] == if !r.Fails? && old(uses)[q].Reading?
          then Reading(old(uses)[q].n, false) else old(uses)[q]
    {
      hide Run, Fresh, AllRoused, Ring.Queue;
      var rest, n := uses[p].rest, uses[p].n;
      var i := ring.Fill(rest);
      Advance(Action.WriteOn(p));
      if i == |rest| {
        assert rest[..i] == rest;
        uses := AllRoused(uses[p := Idle], false);
        return Returns(n);
      }
      if !readopen || p in killed {
        uses := uses[p := Idle];
        return Fails;
      }
      uses := AllRoused(uses, false)[p := Writing(rest[i..], uses[p].n, true)];
      r := Sleeps;
    }

    /** A process enters piperead. */
    method BeginRead(p: Pid, n: nat)
      requires Valid() && p < |uses| && uses[p] == Idle && readopen
      modifies this`uses, this`st, this`acts
      ensures Valid() && acts == old(acts) + [Action.BeginRead(p, n)]
      ensures uses == old(uses)[p := Reading(n, false)]
    {
      Advance(Action.BeginRead(p, n));
      uses := uses[p := Reading(n, false)];
    }

    /** piperead from getting the lock to sleeping or returning. */
    method ReadOn(p: Pid) returns (r: Ending<seq<Byte>>)
      requires Valid() && p < |uses| && uses[p].Reading? && !uses[p].asleep
      modifies this`uses, this`st, this`acts, ring`nread, ring`taken
      ensures Valid() && acts == old(acts) + [Action.ReadOn(p)] && |uses| == |old(uses)|
      ensures r.Sleeps? <==> uses[p].Reading? && uses[p].asleep
      ensures r.Returns? ==> st.taken == old(st).taken + r.value && ring.stored[old(ring.taken)..ring.taken] == r.value
      ensures !r.Returns? ==> ring.taken == old(ring.taken)
      ensures r.Fails? <==> old(ring.Queue()) == [] && writeopen && p in killed
      ensures r.Sleeps? <==> old(ring.Queue()) == [] && writeopen && p !in killed
      ensures r.Returns? ==> r.value + ring.Queue() == old(ring.Queue())
      ensures r.Returns? ==>
        |r.value| == if |old(ring.Queue())| < old(uses)[p].n then |old(ring.Queue())| else old(uses)[p].n
      ensures !r.Sleeps? ==> uses[p] == Idle
      ensures forall q: nat | q < |uses| && q != p ::
        uses[q] == if r.Returns? && old(uses)[q].Writing?
          then Writing(old(uses)[q].rest, old(uses)[q].n, false) else old(uses)[q]
    {
      hide Run, Fresh, AllRoused;
      var n := uses[p].n;
      ghost var q := ring.Queue();
      assert ring.nread == ring.nwrite <==> q == [] by { WrapFull(ring.taken, |ring.stored|); }
      Advance(Action.ReadOn(p));
      if ring.nread == ring.nwrite && writeopen {
        if p in killed {
          uses := uses[p := Idle];
          return Fails;
        }
        uses := uses[p := Reading(n, true)];
        return Sleeps;
      }
      var dst := ring.Drain(n);
      ReadNext(old(st), p, dst, ring.Queue());
      assert ring.stored[..ring.taken] == ring.stored[..old(ring.taken)] + dst;
      uses := AllRoused(uses[p := Idle], true);
      r := Returns(dst);
    }

    /** pipeclose of the write end, when no process is inside pipewrite. */
    method CloseWrite()
      requires Valid() && forall p: nat | p < |uses| :: !uses[p].Writing?
      modifies this`writeopen, this`uses, this`st, this`acts
      ensures Valid() && acts == old(acts) + [Action.CloseWrite] && !writeopen
      ensures |uses| == |old(uses)| && forall q: nat | q < |uses| ::
        uses[q] == if old(uses)[q].Reading?
          then Reading(old(uses)[q].n, false) else old(uses)[q]
    {
      Advance(Action.CloseWrite);
      writeopen := false;
      uses := AllRoused(uses, false);
    }

    method CloseRead()
      requires Valid() && forall p: nat | p < |uses| :: !uses[p].Reading?
      modifies this`readopen, this`uses, this`st, this`acts
      ensures Valid() && acts == old(acts) + [Action.CloseRead] && !readopen
      ensures |uses| == |old(uses)| && forall q: nat | q < |uses| ::
        uses[q] == if old(uses)[q].Writing?
          then Writing(old(uses)[q].rest, old(uses)[q].n, false) else old(uses)[q]
    {
      Advance(Action.CloseRead);
      readopen := false;
      uses := AllRoused(uses, true);
    }

    /** kill, which also ends a sleep. */
    method Kill(p: Pid)
      requires Valid() && p < |uses|
      modifies this`uses, this`killed, this`st, this`acts
      ensures Valid() && acts == old(acts) + [Action.Kill(p)] && killed == old(killed) + {p}
      ensures |uses| == |old(uses)| && (uses[p].Idle? <==> old(uses)[p].Idle?)
      ensures uses[p].Writing? || uses[p].Reading? ==> !uses[p].asleep
      ensures forall q: nat | q < |uses| && q != p :: uses[q] == old(uses)[q]
    {
      Advance(Action.Kill(p));
      uses := uses[p := if uses[p].Idle? then Idle else uses[p].(asleep := false)];
      killed := killed + {p};
    }

    /** However readers and writers took turns, what the readers got is a prefix of what the
        writers stored, at most PIPESIZE bytes are in between, and the wrapping counters tell
        exactly how many. */
    lemma Delivered()
      requires Valid()
      ensures st.taken <= ring.stored && ring.stored == st.taken + ring.Queue() && |ring.stored| <= |st.taken| + 512
      ensures ring.nread == |st.taken| % 0x1_0000_0000 && ring.nwrite == |ring.stored| % 0x1_0000_0000
      ensures ring.nread == ring.nwrite <==> st.taken == ring.stored
      ensures ring.nwrite == (ring.nread + 512) % 0x1_0000_0000 <==> |ring.stored| == |st.taken| + 512
    {
      StreamRun(start, acts);
      WrapFull(ring.taken, |ring.stored|);
      assert ring.stored == ring.stored[..ring.taken] + ring.Queue();
    }

    /** On a pipe whose write end is closed no reader sleeps, and after the last byte is taken no
        byte is there to be read, however the processes got there. */
    lemma AtTheEnd(p: Pid)
      requires Valid() && !writeopen && p < |uses|
      ensures !uses[p].Writing? && (uses[p].Reading? ==> !uses[p].asleep)
      ensures ring.Queue() == [] <==> Course(st).Ended?
    {
      AwakeRun(start, acts);
      Delivered();
    }

    /** If no user was killed, a process sleeps only on counters that say it must: a reader on
        equal ones with the write end open, a writer on ones PIPESIZE apart with the read end open. */
    lemma SleepsRightly(p: Pid)
      requires Valid() && p < |uses| && forall k | 0 <= k < |acts| :: !acts[k].Kill?
      ensures uses[p].Reading? && uses[p].asleep ==> ring.nread == ring.nwrite && writeopen
      ensures uses[p].Writing? && uses[p].asleep ==> ring.nwrite == (ring.nread + 512) % 0x1_0000_0000 && readopen
    {
      SleepersRun(start, acts);
      Delivered();
      assert Rightly(st, p);
    }
  }
}
