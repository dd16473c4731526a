/** The shell's command language (sh.c): what the recursive-descent parser makes of a line, and
    that printing a command with all its parentheses and parsing it gives the command back.
    Functions here take what is left of the line and return what is left after them. */
module ShellGrammar {

  const MAXARGS: nat := 10
  const O_RDONLY: nat := 0
  const O_WRONLY: nat := 1
  const O_CREATE: nat := 0x200

  /** The parsed command; W is a word, as a string or as a place in the line. */
  datatype Cmd<W> =
    | Exec(args: seq<W>)
    | Redir(cmd: Cmd<W>, file: W, mode: nat, fd: nat)
    | Pipe(left: Cmd<W>, right: Cmd<W>)
    | List(left: Cmd<W>, right: Cmd<W>)
    | Back(cmd: Cmd<W>)

  datatype Redirect<W> = Redirect(file: W, mode: nat, fd: nat)

  /** Fail where the shell panics. */
  datatype Result<+T> = Fail | Done(value: T, rest: string)

  // ---- tokens ------------------------------------------------------------

  predicate Space(c: char) { c == ' ' || c == '\t' || c == '\r' || c == '\n' || c == 11 as char }
  predicate Symbol(c: char) { c == '<' || c == '|' || c == '>' || c == '&' || c == ';' || c == '(' || c == ')' }
  predicate WordChar(c: char) { !Space(c) && !Symbol(c) }

  function Skip(s: string): (r: string)
    ensures |r| <= |s| && (r == "" || !Space(r[0]))
  {
    if s != "" && Space(s[0]) then Skip(s[1..]) else s
  }

  /** Length of the word at the head of s. */
  function WordLen(s: string): (n: nat)
    ensures n <= |s| && (forall k | 0 <= k < n :: WordChar(s[k])) && (n < |s| ==> !WordChar(s[n]))
  {
    if s != "" && WordChar(s[0]) then
      var n := WordLen(s[1..]);
      assert forall k | 1 <= k < n + 1 :: s[k] == s[1..][k - 1];
      n + 1
    else 0
  }

  function Word(s: string): string { s[..WordLen(s)] }

  datatype Token = End | Sign(c: char) | Append | Name

  /** The token at the head of s, which does not start with a space. */
  function Head(s: string): Token {
    if s == "" then End
    else if s[0] == '>' && |s| > 1 && s[1] == '>' then Append
    else if Symbol(s[0]) then Sign(s[0])
    else Name
  }

  function Len(s: string): (n: nat)
    ensures n <= |s| && (s != "" && !Space(s[0]) ==> n > 0)
  {
    match Head(s)
    case End => 0
    case Sign(_) => 1
    case Append => 2
    case Name => WordLen(s)
  }

  function Next(s: string): (r: string)
    ensures |r| <= |s| && (s != "" && !Space(s[0]) ==> |r| < |s|) && (r == "" || !Space(r[0]))
  {
    Skip(s[Len(s)..])
  }

  /** peek */
  predicate At(s: string, toks: string) {
    s != "" && s[0] in toks
  }

  // ---- the grammar -------------------------------------------------------

  function Redirection<W>(t: Token, file: W): Redirect<W> {
    if t == Sign('<') then Redirect(file, O_RDONLY, 0) else Redirect(file, O_WRONLY + O_CREATE, 1)
  }

  function Wrap<W>(c: Cmd<W>, l: seq<Redirect<W>>): Cmd<W>
    decreases |l|
  {
    if l == [] then c else Wrap(Redir(c, l[0].file, l[0].mode, l[0].fd), l[1..])
  }

  /** parseredirs */
  function Redirs(s: string): (r: Result<seq<Redirect<string>>>)
    ensures r.Done? ==> |r.rest| <= |s| && (r.rest == "" || !Space(r.rest[0]))
    decreases |s|
  {
    var s1 := Skip(s);
    if At(s1, "<>") then
      var s2 := Next(s1);
      if Head(s2) != Name then Fail else
      var r := Redirs(Next(s2));
      if r.Fail? then Fail else Done([Redirection(Head(s1), Word(s2))] + r.value, r.rest)
    else Done([], s1)
  }

  /** parseexec's loop, after n words. */
  function Args(n: nat, s: string): (r: Result<(seq<string>, seq<Redirect<string>>)>)
    ensures r.Done? ==> |r.rest| <= |s| && (r.rest == "" || !Space(r.rest[0]))
    decreases |s|
  {
    var s1 := Skip(s);
    if At(s1, "|)&;") || Head(s1) == End then Done(([], []), s1)
    else if Head(s1) != Name || n + 1 >= MAXARGS then Fail
    else
      var l := Redirs(Next(s1));
      if l.Fail? then Fail else
      var r := Args(n + 1, l.rest);
      if r.Fail? then Fail else Done(([Word(s1)] + r.value.0, l.value + r.value.1), r.rest)
  }

  /** parseline's first loop */
  function Amps(c: Cmd<string>, s: string): (r: Result<Cmd<string>>)
    ensures r.Done? && |r.rest| <= |s| && (r.rest == "" || !Space(r.rest[0]))
    decreases |s|
  {
    var s1 := Skip(s);
    if At(s1, "&") then Amps(Back(c), Next(s1)) else Done(c, s1)
  }

  /** parseline */
  function Line(s: string): (r: Result<Cmd<string>>)
    ensures r.Done? ==> |r.rest| <= |s| && (r.rest == "" || !Space(r.rest[0]))
    decreases |s|, 3
  {
    var p := Pipeline(s);
    if p.Fail? then Fail else
    var b := Amps(p.value, p.rest);
    if !At(b.rest, ";") then b else
    var r := Line(Next(b.rest));
    if r.Fail? then Fail else Done(List(b.value, r.value), r.rest)
  }

  /** parsepipe */
  function Pipeline(s: string): (r: Result<Cmd<string>>)
    ensures r.Done? ==> |r.rest| <= |s| && (r.rest == "" || !Space(r.rest[0]))
    decreases |s|, 2
  {
    var e := Command(s);
    if e.Fail? || !At(e.rest, "|") then e else
    var r := Pipeline(Next(e.rest));
    if r.Fail? then Fail else Done(Pipe(e.value, r.value), r.rest)
  }

  /** parseexec */
  function Command(s: string): (r: Result<Cmd<string>>)
    ensures r.Done? ==> |r.rest| <= |s| && (r.rest == "" || !Space(r.rest[0]))
    decreases |s|, 1
  {
    var s1 := Skip(s);
    if At(s1, "(") then Block(s1) else
    var l := Redirs(s1);
    if l.Fail? then Fail else
    var r := Args(0, l.rest);
    if r.Fail? then Fail else Done(Wrap(Exec(r.value.0), l.value + r.value.1), r.rest)
  }

  /** parseblock */
  function Block(s: string): (r: Result<Cmd<string>>)
    requires At(s, "(")
    ensures r.Done? ==> |r.rest| <= |s| && (r.rest == "" || !Space(r.rest[0]))
    decreases |s|, 0
  {
    var c := Line(Next(s));
    if c.Fail? || !At(c.rest, ")") then Fail else
    var l := Redirs(Next(c.rest));
    if l.Fail? then Fail else Done(Wrap(c.value, l.value), l.rest)
  }

  /** parsecmd: the whole line has to be used. */
  function Parse(s: string): (r: Result<Cmd<string>>)
    ensures r.Done? ==> r.rest == ""
  {
    var r := Line(s);
    if r.Done? && r.rest == "" then r else Fail
  }

  /** A redirection written with two signs is the one written with one: nothing is appended. */
  lemma AppendIsWrite(rest: string)
    requires rest == "" || rest[0] != '>'
    ensures Redirs(['>', '>'] + rest) == Redirs(['>'] + rest)
  {
    var one, two := ['>'] + rest, ['>', '>'] + rest;
    assert Skip(one) == one && Skip(two) == two;
    assert one[Len(one)..] == rest && two[Len(two)..] == rest;
  }

  // ---- printing ----------------------------------------------------------

  function Words(args: seq<string>): string {
    if args == [] then "" else args[0] + " " + Words(args[1..])
  }

  /** A command with every part of it in parentheses. */
  function Print(c: Cmd<string>): string {
    match c
    case Exec(args) => Words(args)
    case Redir(d, file, _, fd) => "(" + Print(d) + ")" + (if fd == 0 then "<" else ">") + file
    case Pipe(l, r) => "(" + Print(l) + ")" + "|" + "(" + Print(r) + ")"
    case List(l, r) => "(" + Print(l) + ")" + ";" + "(" + Print(r) + ")"
    case Back(d) => "(" + Print(d) + ")" + "&"
  }

  predicate PlainWord(w: string) {
    w != "" && forall k | 0 <= k < |w| :: WordChar(w[k])
  }

  predicate PlainWords(args: seq<string>) {
    forall k | 0 <= k < |args| :: PlainWord(args[k])
  }

  /** A command the shell can have: words that are words, fewer than MAXARGS of them, and the
      two kinds of redirection. */
  predicate Plain(c: Cmd<string>) {
    match c
    case Exec(args) => |args| < MAXARGS && PlainWords(args)
    case Redir(d, file, mode, fd) =>
      Plain(d) && PlainWord(file) && ((mode == O_RDONLY && fd == 0) || (mode == O_WRONLY + O_CREATE && fd == 1))
    case Pipe(l, r) => Plain(l) && Plain(r)
    case List(l, r) => Plain(l) && Plain(r)
    case Back(d) => Plain(d)
  }

  /** Where a command of the fully parenthesised form can end. */
  predicate Stops(rest: string) {
    rest == "" || rest[0] in "|)&;"
  }

  // ---- reading back what was printed -------------------------------------

  lemma {:induction false} WordAt(w: string, rest: string)
    requires forall k | 0 <= k < |w| :: WordChar(w[k])
    requires rest == "" || !WordChar(rest[0])
    ensures WordLen(w + rest) == |w|
  {
    if w == "" {
      assert w + rest == rest;
    } else {
      assert (w + rest)[1..] == w[1..] + rest;
      WordAt(w[1..], rest);
    }
  }

  lemma NameAt(w: string, rest: string)
    requires PlainWord(w) && (rest == "" || !WordChar(rest[0]))
    ensures Head(w + rest) == Name && Word(w + rest) == w && Next(w + rest) == Skip(rest)
    ensures Skip(w + rest) == w + rest && !At(w + rest, "<>") && !At(w + rest, "|)&;") && !At(w + rest, "(")
  {
    WordAt(w, rest);
    assert (w + rest)[0] == w[0];
    assert (w + rest)[..|w|] == w && (w + rest)[|w|..] == rest;
  }

  lemma SignAt(c: char, rest: string)
    requires Symbol(c) && (c == '>' ==> rest == "" || rest[0] != '>')
    ensures Head([c] + rest) == Sign(c) && Next([c] + rest) == Skip(rest) && Skip([c] + rest) == [c] + rest
  {
    assert ([c] + rest)[1..] == rest;
  }

  lemma RedirStep(s: string, s2: string, rest: string)
    requires Skip(s) == s && At(s, "<>") && Next(s) == s2 && Head(s2) == Name && Next(s2) == rest && Stops(rest)
    ensures Redirs(s) == Done([Redirection(Head(s), Word(s2))], rest)
  {
    var l := Redirs(rest);
    assert l == Done([], rest);
    assert [Redirection(Head(s), Word(s2))] + l.value == [Redirection(Head(s), Word(s2))];
  }

  lemma OneRedir(t: char, file: string, rest: string)
    requires PlainWord(file) && Stops(rest) && (t == '<' || t == '>')
    ensures Redirs([t] + (file + rest)) == Done([Redirection(Sign(t), file)], rest)
    ensures Skip([t] + (file + rest)) == [t] + (file + rest)
  {
    SignAt(t, file + rest);
    NameAt(file, rest);
    RedirStep([t] + (file + rest), file + rest, rest);
  }

  lemma ArgStep(n: nat, s: string, w: string, s2: string, args: seq<string>, rest: string)
    requires Skip(s) == s && Head(s) == Name && Word(s) == w && Next(s) == s2 && n + 1 < MAXARGS
    requires Redirs(s2) == Done([], s2) && Args(n + 1, s2) == Done((args, []), rest) && !At(s, "|)&;")
    ensures Args(n, s) == Done(([w] + args, []), rest)
  {
    var l: seq<Redirect<string>> := [];
    assert l + l == l;
  }

  /** Nothing in s that would be taken for a parenthesis or a redirection. */
  predicate Bare(s: string) {
    Skip(s) == s && !At(s, "(") && !At(s, "<>")
  }

  lemma WordsText(args: seq<string>, rest: string, tail: string)
    requires args != [] && tail == Words(args[1..]) + rest
    ensures Words(args) + rest == args[0] + ([' '] + tail)
  {
  }

  lemma SpaceAt(tail: string)
    ensures Skip([' '] + tail) == Skip(tail)
  {
    assert ([' '] + tail)[1..] == tail;
  }

  lemma ArgsStep(n: nat, w: string, args: seq<string>, tail: string, rest: string)
    requires PlainWord(w) && n + 1 < MAXARGS && Bare(tail) && Args(n + 1, tail) == Done((args, []), rest)
    ensures Args(n, w + ([' '] + tail)) == Done(([w] + args, []), rest) && Bare(w + ([' '] + tail))
  {
    NameAt(w, [' '] + tail);
    SpaceAt(tail);
    ArgStep(n, w + ([' '] + tail), w, tail, args, rest);
  }

  lemma ArgsEnd(n: nat, rest: string)
    requires n < MAXARGS && Stops(rest)
    ensures Args(n, Words([]) + rest) == Done(([], []), rest) && Bare(Words([]) + rest)
  {
    assert Words([]) + rest == rest;
  }

  lemma {:induction false} ArgsAt(n: nat, args: seq<string>, rest: string)
    requires n + |args| < MAXARGS && PlainWords(args) && Stops(rest)
    ensures Args(n, Words(args) + rest) == Done((args, []), rest) && Bare(Words(args) + rest)
    decreases |args|
  {
    hide Args, Words, Bare, Stops;
    if args == [] {
      ArgsEnd(n, rest);
    } else {
      var tail := Words(args[1..]) + rest;
      ArgsAt(n + 1, args[1..], rest);
      ArgsStep(n, args[0], args[1..], tail, rest);
      WordsText(args, rest, tail);
      assert [args[0]] + args[1..] == args;
    }
  }

  lemma CommandStep(s: string, args: seq<string>, rest: string)
    requires Bare(s) && Args(0, s) == Done((args, []), rest)
    ensures Command(s) == Done(Exec(args), rest)
  {
  }

  lemma PipeStep(s: string, c: Cmd<string>, rest: string, d: Cmd<string>, rest2: string)
    requires Command(s) == Done(c, rest) && At(rest, "|") && Pipeline(Next(rest)) == Done(d, rest2)
    ensures Pipeline(s) == Done(Pipe(c, d), rest2)
  {
  }

  lemma LineStep(s: string, c: Cmd<string>, rest: string)
    requires Pipeline(s) == Done(c, rest) && !At(rest, "&") && !At(rest, ";")
    ensures Line(s) == Done(c, rest)
  {
  }

  lemma ListStep(s: string, c: Cmd<string>, rest: string, d: Cmd<string>, rest2: string)
    requires Pipeline(s) == Done(c, rest) && At(rest, ";") && Line(Next(rest)) == Done(d, rest2)
    ensures Line(s) == Done(List(c, d), rest2)
  {
    assert Amps(c, rest) == Done(c, rest);
  }

  lemma BackStep(s: string, c: Cmd<string>, rest: string, rest2: string)
    requires Pipeline(s) == Done(c, rest) && At(rest, "&") && Next(rest) == rest2 && !At(rest2, "&") && !At(rest2, ";")
    ensures Line(s) == Done(Back(c), rest2)
  {
    assert Amps(Back(c), rest2) == Done(Back(c), rest2);
  }

  lemma {:induction false} PrintHead(c: Cmd<string>, rest: string)
    requires Plain(c) && Stops(rest)
    ensures Skip(Print(c) + rest) == Print(c) + rest
  {
    match c
    case Exec(args) => ArgsAt(0, args, rest);
    case _ => assert (Print(c) + rest)[0] == '(';
  }

  /** A printed command in parentheses, followed by tail. */
  function Paren(c: Cmd<string>, tail: string): string { ['('] + (Print(c) + ([')'] + tail)) }

  lemma BlockAt(c: Cmd<string>, tail: string)
    requires Plain(c) && Line(Print(c) + ([')'] + tail)) == Done(c, [')'] + tail)
    ensures var l := Redirs(Skip(tail));
            Command(Paren(c, tail)) == if l.Fail? then Fail else Done(Wrap(c, l.value), l.rest)
  {
    SignAt('(', Print(c) + ([')'] + tail));
    PrintHead(c, [')'] + tail);
    SignAt(')', tail);
  }

  lemma PlainBlock(c: Cmd<string>, tail: string)
    requires Plain(c) && Line(Print(c) + ([')'] + tail)) == Done(c, [')'] + tail) && Stops(tail)
    ensures Command(Paren(c, tail)) == Done(c, tail)
  {
    BlockAt(c, tail);
    assert Redirs(Skip(tail)) == Done([], tail);
  }

  lemma TextOne(p: string, t: string, rest: string)
    ensures ("(" + p + ")" + t) + rest == ['('] + (p + ([')'] + (t + rest)))
  {
  }

  lemma TextTwo(p: string, t: string, q: string, rest: string)
    ensures ("(" + p + ")" + t + q) + rest == ['('] + (p + ([')'] + (t + (q + rest))))
  {
    TextOne(p, t, q + rest);
    assert ("(" + p + ")" + t + q) + rest == ("(" + p + ")" + t) + (q + rest);
  }

  lemma TextPair(p: string, t: string, q: string, rest: string)
    ensures ("(" + p + ")" + t + "(" + q + ")") + rest == ['('] + (p + ([')'] + (t + (['('] + (q + ([')'] + rest))))))
  {
    var tail := "(" + q + ")" + rest;
    TextOne(p, t, tail);
    TextOne(q, "", rest);
    assert ("(" + p + ")" + t + "(" + q + ")") + rest == ("(" + p + ")" + t) + tail;
    assert ("(" + q + ")" + "") + rest == tail && "" + rest == rest;
  }

  lemma RedirAt(d: Cmd<string>, t: char, file: string, rest: string)
    requires Plain(d) && PlainWord(file) && Stops(rest) && (t == '<' || t == '>')
    requires Line(Print(d) + ([')'] + ([t] + (file + rest)))) == Done(d, [')'] + ([t] + (file + rest)))
    ensures Command(Paren(d, [t] + (file + rest))) == Done(Wrap(d, [Redirection(Sign(t), file)]), rest)
  {
    OneRedir(t, file, rest);
    BlockAt(d, [t] + (file + rest));
  }

  /** Two printed commands with a sign between them. */
  lemma PairAt(t: char, l: Cmd<string>, r: Cmd<string>, rest: string)
    requires Plain(l) && Plain(r) && (rest == "" || rest[0] == ')') && (t == '|' || t == ';')
    requires Line(Print(l) + ([')'] + ([t] + Paren(r, rest)))) == Done(l, [')'] + ([t] + Paren(r, rest)))
    requires Line(Print(r) + ([')'] + rest)) == Done(r, [')'] + rest)
    ensures Command(Paren(l, [t] + Paren(r, rest))) == Done(l, [t] + Paren(r, rest))
    ensures Next([t] + Paren(r, rest)) == Paren(r, rest) && Pipeline(Paren(r, rest)) == Done(r, rest)
  {
    PlainBlock(l, [t] + Paren(r, rest));
    PlainBlock(r, rest);
    SignAt(t, Paren(r, rest));
  }

  lemma PrintedRedir(d: Cmd<string>, file: string, mode: nat, fd: nat, t: char, rest: string)
    requires Plain(Redir(d, file, mode, fd)) && (rest == "" || rest[0] == ')') && t == if fd == 0 then '<' else '>'
    requires Line(Print(d) + ([')'] + ([t] + (file + rest)))) == Done(d, [')'] + ([t] + (file + rest)))
    ensures Line(Print(Redir(d, file, mode, fd)) + rest) == Done(Redir(d, file, mode, fd), rest)
  {
    RedirAt(d, t, file, rest);
    TextTwo(Print(d), [t], file, rest);
    LineStep(Print(Redir(d, file, mode, fd)) + rest, Redir(d, file, mode, fd), rest);
  }

  lemma PrintedPipe(l: Cmd<string>, r: Cmd<string>, rest: string)
    requires Plain(l) && Plain(r) && (rest == "" || rest[0] == ')')
    requires Line(Print(l) + ([')'] + (['|'] + Paren(r, rest)))) == Done(l, [')'] + (['|'] + Paren(r, rest)))
    requires Line(Print(r) + ([')'] + rest)) == Done(r, [')'] + rest)
    ensures Line(Print(Pipe(l, r)) + rest) == Done(Pipe(l, r), rest)
  {
    PairAt('|', l, r, rest);
    TextPair(Print(l), ['|'], Print(r), rest);
    PipeStep(Print(Pipe(l, r)) + rest, l, ['|'] + Paren(r, rest), r, rest);
    LineStep(Print(Pipe(l, r)) + rest, Pipe(l, r), rest);
  }

  lemma PrintedList(l: Cmd<string>, r: Cmd<string>, rest: string)
    requires Plain(l) && Plain(r) && (rest == "" || rest[0] == ')')
    requires Line(Print(l) + ([')'] + ([';'] + Paren(r, rest)))) == Done(l, [')'] + ([';'] + Paren(r, rest)))
    requires Line(Print(r) + ([')'] + rest)) == Done(r, [')'] + rest)
    ensures Line(Print(List(l, r)) + rest) == Done(List(l, r), rest)
  {
    PairAt(';', l, r, rest);
    TextPair(Print(l), [';'], Print(r), rest);
    LineStep(Paren(r, rest), r, rest);
    ListStep(Print(List(l, r)) + rest, l, [';'] + Paren(r, rest), r, rest);
  }

  lemma PrintedBack(d: Cmd<string>, rest: string)
    requires Plain(d) && (rest == "" || rest[0] == ')')
    requires Line(Print(d) + ([')'] + (['&'] + rest))) == Done(d, [')'] + (['&'] + rest))
    ensures Line(Print(Back(d)) + rest) == Done(Back(d), rest)
  {
    PlainBlock(d, ['&'] + rest);
    SignAt('&', rest);
    TextOne(Print(d), ['&'], rest);
    BackStep(Print(Back(d)) + rest, d, ['&'] + rest, rest);
  }

  /** Parsing what was printed gives the command back. */
  lemma {:induction false} PrintedLine(c: Cmd<string>, rest: string)
    requires Plain(c) && (rest == "" || rest[0] == ')')
    ensures Line(Print(c) + rest) == Done(c, rest)
    decreases c
  {
    match c
    case Exec(args) =>
      ArgsAt(0, args, rest);
      CommandStep(Words(args) + rest, args, rest);
      LineStep(Words(args) + rest, c, rest);
    case Redir(d, file, mode, fd) =>
      var t := if fd == 0 then '<' else '>';
      PrintedLine(d, [')'] + ([t] + (file + rest)));
      PrintedRedir(d, file, mode, fd, t, rest);
    case Pipe(l, r) =>
      PrintedLine(l, [')'] + (['|'] + Paren(r, rest)));
      PrintedLine(r, [')'] + rest);
      PrintedPipe(l, r, rest);
    case List(l, r) =>
      PrintedLine(l, [')'] + ([';'] + Paren(r, rest)));
      PrintedLine(r, [')'] + rest);
      PrintedList(l, r, rest);
    case Back(d) =>
      PrintedLine(d, [')'] + (['&'] + rest));
      PrintedBack(d, rest);
  }

  lemma RoundTrip(c: Cmd<string>)
    requires Plain(c)
    ensures Parse(Print(c)) == Done(c, "")
  {
    PrintedLine(c, "");
    assert Print(c) + "" == Print(c);
  }

  // ---- every command parsed is plain -------------------------------------

  predicate PlainRedirs(l: seq<Redirect<string>>) {
    forall k | 0 <= k < |l| :: PlainWord(l[k].file)
      && ((l[k].mode == O_RDONLY && l[k].fd == 0) || (l[k].mode == O_WRONLY + O_CREATE && l[k].fd == 1))
  }

  lemma NamePlain(s: string)
    requires Head(s) == Name && !Space(s[0])
    ensures PlainWord(Word(s))
  {
  }

  lemma {:induction false} WrapPlain(c: Cmd<string>, l: seq<Redirect<string>>)
    requires Plain(c) && PlainRedirs(l)
    ensures Plain(Wrap(c, l))
    decreases |l|
  {
    if l != [] { WrapPlain(Redir(c, l[0].file, l[0].mode, l[0].fd), l[1..]); }
  }

  lemma {:induction false} RedirsPlain(s: string)
    requires Redirs(s).Done?
    ensures PlainRedirs(Redirs(s).value)
    decreases |s|
  {
    var s1 := Skip(s);
    if At(s1, "<>") {
      NamePlain(Next(s1));
      RedirsPlain(Next(Next(s1)));
    }
  }

  lemma {:induction false} ArgsPlain(n: nat, s: string)
    requires Args(n, s).Done? && n < MAXARGS
    ensures n + |Args(n, s).value.0| < MAXARGS && PlainWords(Args(n, s).value.0) && PlainRedirs(Args(n, s).value.1)
    decreases |s|
  {
    hide Redirs, PlainWord;
    var s1 := Skip(s);
    if !At(s1, "|)&;") && Head(s1) != End {
      NamePlain(s1);
      RedirsPlain(Next(s1));
      ArgsPlain(n + 1, Redirs(Next(s1)).rest);
    }
  }

  lemma {:induction false} AmpsPlain(c: Cmd<string>, s: string)
    requires Plain(c)
    ensures Plain(Amps(c, s).value)
    decreases |s|
  {
    if At(Skip(s), "&") { AmpsPlain(Back(c), Next(Skip(s))); }
  }

  lemma {:induction false} LinePlain(s: string)
    requires Line(s).Done?
    ensures Plain(Line(s).value)
    decreases |s|, 3
  {
    var p := Pipeline(s);
    PipelinePlain(s);
    AmpsPlain(p.value, p.rest);
    var b := Amps(p.value, p.rest);
    if At(b.rest, ";") { LinePlain(Next(b.rest)); }
  }

  lemma {:induction false} PipelinePlain(s: string)
    requires Pipeline(s).Done?
    ensures Plain(Pipeline(s).value)
    decreases |s|, 2
  {
    CommandPlain(s);
    var e := Command(s);
    if At(e.rest, "|") { PipelinePlain(Next(e.rest)); }
  }

  lemma {:induction false} CommandPlain(s: string)
    requires Command(s).Done?
    ensures Plain(Command(s).value)
    decreases |s|, 1
  {
    var s1 := Skip(s);
    if At(s1, "(") {
      var c := Line(Next(s1));
      LinePlain(Next(s1));
      RedirsPlain(Next(c.rest));
      WrapPlain(c.value, Redirs(Next(c.rest)).value);
    } else {
      var l := Redirs(s1);
      RedirsPlain(s1);
      ArgsPlain(0, l.rest);
      var r := Args(0, l.rest);
      WrapPlain(Exec(r.value.0), l.value + r.value.1);
    }
  }

  /** A line the shell accepts means what its fully parenthesised form means. */
  lemma Canonical(s: string)
    requires Parse(s).Done?
    ensures Parse(Print(Parse(s).value)) == Parse(s)
  {
    LinePlain(s);
    RoundTrip(Parse(s).value);
  }
}
