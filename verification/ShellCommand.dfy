/** sh.c's parsecmd: parsing a line and then cutting its words off in place. */
module ShellCommand {
  import opened Common
  import opened ShellGrammar
  import opened Shell

  // ---- nulterminate ------------------------------------------------------

  /** The places where the words of a command end. */
  function Ends(c: Cmd<Span>): set<nat> {
    match c
    case Exec(args) => set w | w in args :: w.eq
    case Redir(d, file, _, _) => Ends(d) + {file.eq}
    case Pipe(l, r) => Ends(l) + Ends(r)
    case List(l, r) => Ends(l) + Ends(r)
    case Back(d) => Ends(d)
  }

  function Cut(b: string, ends: set<nat>): (r: string)
    ensures |r| == |b| && forall i | 0 <= i < |b| :: r[i] == if i in ends then '\0' else b[i]
  {
    seq(|b|, i requires 0 <= i < |b| => if i in ends then '\0' else b[i])
  }

  lemma CutTwice(b: string, e: set<nat>, f: set<nat>)
    ensures Cut(Cut(b, e), f) == Cut(b, e + f)
  {
  }

  predicate Within(ends: set<nat>, n: nat) { forall e | e in ends :: e < n }

  /** nulterminate */
  method Nulterminate(c: Cmd<Span>, buf: array<char>)
    requires Within(Ends(c), buf.Length)
    modifies buf
    ensures buf[..] == Cut(old(buf[..]), Ends(c))
    decreases c
  {
    match c
    case Exec(args) =>
      for i := 0 to |args|
        invariant forall k | 0 <= k < buf.Length :: buf[k] == if k in EndsOf(args[..i]) then '\0' else old(buf[k])
      {
        assert args[i].eq in Ends(c);
        EndsStep(args, i);
        buf[args[i].eq] := '\0';
      }
      assert args[..|args|] == args;
    case Redir(d, file, _, _) =>
      Nulterminate(d, buf);
      CutTwice(old(buf[..]), Ends(d), {file.eq});
      buf[file.eq] := '\0';
      assert buf[..] == Cut(Cut(old(buf[..]), Ends(d)), {file.eq});
    case Pipe(l, r) =>
      assert Ends(l) <= Ends(c) && Ends(r) <= Ends(c);
      Nulterminate(l, buf);
      CutTwice(old(buf[..]), Ends(l), Ends(r));
      Nulterminate(r, buf);
    case List(l, r) =>
      assert Ends(l) <= Ends(c) && Ends(r) <= Ends(c);
      Nulterminate(l, buf);
      CutTwice(old(buf[..]), Ends(l), Ends(r));
      Nulterminate(r, buf);
    case Back(d) =>
      Nulterminate(d, buf);
  }

  function EndsOf(args: seq<Span>): set<nat> { set w | w in args :: w.eq }

  lemma EndsStep(args: seq<Span>, i: nat)
    requires i < |args|
    ensures EndsOf(args[..i + 1]) == EndsOf(args[..i]) + {args[i].eq}
  {
    assert args[..i + 1] == args[..i] + [args[i]];
  }

  // ---- the words, read as C strings --------------------------------------

  function StrLen(b: string): (n: nat)
    ensures n <= |b|
  {
    if b == "" || b[0] == '\0' then 0 else StrLen(b[1..]) + 1
  }

  /** The string that starts at q and goes on to the next zero. */
  function CString(b: string, q: nat): string {
    if q <= |b| then b[q..][..StrLen(b[q..])] else ""
  }

  function CStrings(b: string, args: seq<Span>): (r: seq<string>)
    ensures |r| == |args| && forall k | 0 <= k < |args| :: r[k] == CString(b, args[k].q)
  {
    if args == [] then [] else CStrings(b, args[..|args| - 1]) + [CString(b, args[|args| - 1].q)]
  }

  /** The command as runcmd sees it. */
  function Seen(b: string, c: Cmd<Span>): Cmd<string> {
    match c
    case Exec(args) => Exec(CStrings(b, args))
    case Redir(d, file, mode, fd) => Redir(Seen(b, d), CString(b, file.q), mode, fd)
    case Pipe(l, r) => Pipe(Seen(b, l), Seen(b, r))
    case List(l, r) => List(Seen(b, l), Seen(b, r))
    case Back(d) => Back(Seen(b, d))
  }

  lemma {:induction false} StrLenIs(b: string, n: nat)
    requires n < |b| && b[n] == '\0' && forall k | 0 <= k < n :: b[k] != '\0'
    ensures StrLen(b) == n
    decreases n
  {
    if n > 0 { StrLenIs(b[1..], n - 1); }
  }

  /** Where a word may be cut off: nowhere inside a word. */
  ghost predicate Outside(line: string, ends: set<nat>) {
    forall e | e in ends :: e <= |line| && (e < |line| ==> !WordChar(line[e]))
  }

  lemma {:induction false} EndsOutside(line: string, c: Cmd<Span>)
    requires Whole(line, c)
    ensures Outside(line, Ends(c))
    decreases c
  {
    match c
    case Exec(args) =>
    case Redir(d, file, _, _) => EndsOutside(line, d);
    case Pipe(l, r) =>
      EndsOutside(line, l);
      EndsOutside(line, r);
    case List(l, r) =>
      EndsOutside(line, l);
      EndsOutside(line, r);
    case Back(d) => EndsOutside(line, d);
  }

  lemma WordIntact(line: string, b: string, ends: set<nat>, w: Span)
    requires |line| < |b| && b[..|line|] == line && NoZero(line) && Outside(line, ends) && WholeWord(line, w)
    requires w.eq in ends
    ensures CString(Cut(b, ends), w.q) == Text(line, w)
  {
    var d := Cut(b, ends)[w.q..];
    var n := w.eq - w.q;
    forall k | 0 <= k < n
      ensures d[k] == line[w.q + k] != '\0'
    {
      assert b[w.q + k] == line[w.q + k];
    }
    assert d[n] == '\0';
    StrLenIs(d, n);
    assert d[..n] == line[w.q..w.eq];
  }

  predicate NoZero(line: string) { forall k | 0 <= k < |line| :: line[k] != '\0' }

  /** Cutting at the ends of words leaves every word what it was. */
  lemma {:induction false} WordsIntact(line: string, b: string, ends: set<nat>, c: Cmd<Span>)
    requires |line| < |b| && b[..|line|] == line && NoZero(line) && Outside(line, ends) && Whole(line, c)
    requires Ends(c) <= ends
    ensures Seen(Cut(b, ends), c) == Read(line, c)
    decreases c
  {
    match c
    case Exec(args) =>
      forall k | 0 <= k < |args|
        ensures CString(Cut(b, ends), args[k].q) == Text(line, args[k])
      {
        assert args[k].eq in Ends(c);
        WordIntact(line, b, ends, args[k]);
      }
      assert CStrings(Cut(b, ends), args) == Texts(line, args);
    case Redir(d, file, _, _) =>
      WordsIntact(line, b, ends, d);
      WordIntact(line, b, ends, file);
    case Pipe(l, r) =>
      WordsIntact(line, b, ends, l);
      WordsIntact(line, b, ends, r);
    case List(l, r) =>
      WordsIntact(line, b, ends, l);
      WordsIntact(line, b, ends, r);
    case Back(d) =>
      WordsIntact(line, b, ends, d);
  }

  /** parsecmd, on a line that ends in a zero at buf[n]. */
  method ParseCmd(buf: array<char>) returns (r: Option<Cmd<Span>>)
    requires StrLen(buf[..]) < buf.Length
    modifies buf
    ensures var line := old(buf[..])[..StrLen(old(buf[..]))];
            if Parse(line).Fail? then r.None? && buf[..] == old(buf[..])
            else r.Some? && Seen(buf[..], r.value) == Parse(line).value
  {
    ghost var b := buf[..];
    var n := 0;
    while buf[n] != '\0'
      invariant n < buf.Length && n + StrLen(b[n..]) == StrLen(b) && NoZero(b[..n])
      decreases buf.Length - n
    {
      assert b[n..][1..] == b[n + 1..];
      n := n + 1;
    }
    var line := buf[..n];
    assert line == b[..StrLen(b)];
    var p := new Parser(line);
    assert line[0..] == line;
    r := p.ParseLine();
    if r.None? { return; }
    var _ := p.Peek("");
    if p.at != |line| { return None; }
    EndsOutside(line, r.value);
    WordsIntact(line, b, Ends(r.value), r.value);
    Nulterminate(r.value, buf);
  }
}
