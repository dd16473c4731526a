/** Lines of the shell (sh.c) read against their plain text: nothing in a line the parser accepts is
    lost or moved, and every line written without parentheses parses to the command it spells. */
module ShellText {
  import opened ShellGrammar
  import Shell

  // ---- the tokens of a line, from its characters alone -------------------

  function Tokens(s: string): seq<string> {
    if s == "" then []
    else if s[0] in [' ', '\t', '\r', '\n', 11 as char] then Tokens(s[1..])
    else if s[0] == '>' && |s| > 1 && s[1] == '>' then [">>"] + Tokens(s[2..])
    else if s[0] in "<|>&;()" then [[s[0]]] + Tokens(s[1..])
    else [s[..Extent(s, 1)]] + Tokens(s[Extent(s, 1)..])
  }

  /** Where the word that s[..n] begins comes to its end. */
  function Extent(s: string, n: nat): (m: nat)
    requires n <= |s|
    ensures n <= m <= |s|
    decreases |s| - n
  {
    if n == |s| || s[n] in [' ', '\t', '\r', '\n', 11 as char] || s[n] in "<|>&;()" then n else Extent(s, n + 1)
  }

  lemma {:induction false} ExtentIs(s: string, n: nat)
    requires n <= WordLen(s)
    ensures Extent(s, n) == WordLen(s)
    decreases |s| - n
  {
    if n < WordLen(s) {
      assert WordChar(s[n]);
      ExtentIs(s, n + 1);
    }
  }

  lemma {:induction false} TokensSkip(s: string)
    ensures Tokens(Skip(s)) == Tokens(s)
    decreases |s|
  {
    if s != "" && Space(s[0]) { TokensSkip(s[1..]); }
  }

  /** gettoken takes the first token and leaves the others. */
  lemma TokenFirst(s: string)
    requires s != "" && !Space(s[0])
    ensures s[..Len(s)] != "" && Tokens(s) == [s[..Len(s)]] + Tokens(Next(s))
  {
    hide Tokens, Extent;
    TokensSkip(s[Len(s)..]);
    FirstIs(s);
  }

  lemma FirstIs(s: string)
    requires s != "" && !Space(s[0])
    ensures s[..Len(s)] != "" && Tokens(s) == [s[..Len(s)]] + Tokens(s[Len(s)..])
  {
    hide Skip, Extent;
    if Head(s) == Name { ExtentIs(s, 1); }
    else if Head(s) == Append { assert s[..2] == ">>"; }
    else { assert s[..1] == [s[0]]; }
  }

  // ---- what a line says, and what a command says -------------------------

  /** The words and operators of a line in order, or its redirections and operators: a command
      keeps no order between its words and its redirections. */
  datatype View = OfWords | OfFiles

  datatype Piece = Arg(word: string) | Into(file: string, mode: nat, fd: nat) | Op(sign: string)

  /** The word behind <, > or >> is the file of a redirection, every other word an argument. */
  function Said(toks: seq<string>, v: View): seq<Piece> {
    if toks == [] then []
    else if toks[0] in ["<", ">", ">>"] then
      if |toks| == 1 then []
      else
        (if v.OfWords? then []
         else if toks[0] == "<" then [Into(toks[1], 0, 0)]
         else [Into(toks[1], 0x201, 1)]) + Said(toks[2..], v)
    else if toks[0] in ["|", "&", ";"] then [Op(toks[0])] + Said(toks[1..], v)
    else if toks[0] in ["(", ")"] then Said(toks[1..], v)
    else (if v.OfWords? then [Arg(toks[0])] else []) + Said(toks[1..], v)
  }

  /** The same, left to right in a command. */
  function Meant(c: Cmd<string>, v: View): seq<Piece> {
    match c
    case Exec(args) => if v.OfWords? then AsArgs(args) else []
    case Redir(d, file, mode, fd) => Meant(d, v) + if v.OfFiles? then [Into(file, mode, fd)] else []
    case Pipe(l, r) => Meant(l, v) + [Op("|")] + Meant(r, v)
    case List(l, r) => Meant(l, v) + [Op(";")] + Meant(r, v)
    case Back(d) => Meant(d, v) + [Op("&")]
  }

  function AsArgs(args: seq<string>): seq<Piece> {
    if args == [] then [] else [Arg(args[0])] + AsArgs(args[1..])
  }

  function AsFiles(l: seq<Redirect<string>>): seq<Piece> {
    if l == [] then [] else [Into(l[0].file, l[0].mode, l[0].fd)] + AsFiles(l[1..])
  }

  function Own(args: seq<string>, l: seq<Redirect<string>>, v: View): seq<Piece> {
    if v.OfWords? then AsArgs(args) else AsFiles(l)
  }

  /** What the rest of a line says. */
  function Rest(s: string, v: View): seq<Piece> { Said(Tokens(s), v) }

  lemma Assoc<T>(a: seq<T>, b: seq<T>, c: seq<T>)
    ensures a + b + c == a + (b + c)
  {
  }

  lemma RestSkip(s: string, v: View)
    ensures Rest(Skip(s), v) == Rest(s, v)
  {
    TokensSkip(s);
  }

  lemma NameText(s: string)
    requires Head(s) == Name && !Space(s[0])
    ensures s[..Len(s)] == Word(s) && |Word(s)| > 0 && WordChar(Word(s)[0])
  {
  }

  lemma RestName(s: string, v: View)
    requires Head(s) == Name && !Space(s[0])
    ensures Rest(s, v) == (if v.OfWords? then [Arg(Word(s))] else []) + Rest(Next(s), v)
  {
    TokenFirst(s);
    NameText(s);
  }

  lemma RestSign(s: string, v: View)
    requires s != "" && s[0] in "|&;()"
    ensures Rest(s, v) == (if s[0] in "()" then [] else [Op([s[0]])]) + Rest(Next(s), v)
  {
    hide Said, Tokens;
    TokenFirst(s);
    assert s[..1] == [s[0]];
    SignSaid(s[0], Tokens(Next(s)), v);
  }

  lemma SignSaid(c: char, toks: seq<string>, v: View)
    requires c in "|&;()"
    ensures Said([[c]] + toks, v) == (if c in "()" then [] else [Op([c])]) + Said(toks, v)
  {
    var all := [[c]] + toks;
    assert all[0][0] == c && all[1..] == toks;
    if c in "()" {
      assert [c] == "(" || [c] == ")";
    } else {
      assert [c] == "|" || [c] == "&" || [c] == ";";
    }
  }

  lemma FileSaid(t: Token, sign: string, file: string, toks: seq<string>, v: View)
    requires (t == Sign('<') && sign == "<") || (t == Sign('>') && sign == ">") || (t == Append && sign == ">>")
    ensures Said([sign] + ([file] + toks), v) == Own([], [Redirection(t, file)], v) + Said(toks, v)
  {
    var all, e := [sign] + ([file] + toks), Redirection(t, file);
    assert all[0] == sign && all[1] == file && all[2..] == toks;
    assert AsFiles([e]) == [Into(e.file, e.mode, e.fd)];
    assert t != Sign('<') ==> sign[0] == '>';
  }

  lemma RestRedir(s: string, v: View)
    requires At(s, "<>") && Head(Next(s)) == Name
    ensures Rest(s, v) == Own([], [Redirection(Head(s), Word(Next(s)))], v) + Rest(Next(Next(s)), v)
  {
    hide Said, Tokens, Own, Redirection;
    TokenFirst(s);
    TokenFirst(Next(s));
    NameText(Next(s));
    if Head(s) == Append { assert s[..2] == ">>"; } else { assert s[..1] == [s[0]]; }
    FileSaid(Head(s), s[..Len(s)], Word(Next(s)), Tokens(Next(Next(s))), v);
  }

  lemma {:induction false} AsFilesJoin(l: seq<Redirect<string>>, m: seq<Redirect<string>>)
    ensures AsFiles(l + m) == AsFiles(l) + AsFiles(m)
    decreases |l|
  {
    if l == [] {
      assert l + m == m;
    } else {
      assert (l + m)[1..] == l[1..] + m;
      AsFilesJoin(l[1..], m);
    }
  }

  lemma {:induction false} RedirsSaid(s: string, v: View)
    requires Redirs(s).Done?
    ensures Rest(s, v) == Own([], Redirs(s).value, v) + Rest(Redirs(s).rest, v)
    decreases |s|
  {
    var s1 := Skip(s);
    RestSkip(s, v);
    if At(s1, "<>") {
      var r := Redirs(Next(Next(s1)));
      var e := Redirection(Head(s1), Word(Next(s1)));
      RestRedir(s1, v);
      RedirsSaid(Next(Next(s1)), v);
      AsFilesJoin([e], r.value);
      Assoc(Own([], [e], v), Own([], r.value, v), Rest(r.rest, v));
    }
  }

  lemma ArgsSplit(n: nat, s: string)
    requires Args(n, s).Done? && !At(Skip(s), "|)&;") && Head(Skip(s)) != End
    ensures Head(Skip(s)) == Name && !Space(Skip(s)[0]) && Redirs(Next(Skip(s))).Done?
    ensures var l := Redirs(Next(Skip(s))); var r := Args(n + 1, l.rest);
      |l.rest| < |s| && r.Done? && Args(n, s) == Done(([Word(Skip(s))] + r.value.0, l.value + r.value.1), r.rest)
  {
  }

  lemma OwnJoin(w: string, a: seq<string>, l: seq<Redirect<string>>, m: seq<Redirect<string>>, v: View)
    ensures Own([w] + a, l + m, v) == (if v.OfWords? then [Arg(w)] else []) + Own([], l, v) + Own(a, m, v)
  {
    if v.OfWords? {
      assert ([w] + a)[1..] == a;
      assert AsArgs([w] + a) == [Arg(w)] + AsArgs(a);
    } else {
      AsFilesJoin(l, m);
    }
  }

  lemma {:induction false} ArgsSaid(n: nat, s: string, v: View)
    requires Args(n, s).Done?
    ensures Rest(s, v) == Own(Args(n, s).value.0, Args(n, s).value.1, v) + Rest(Args(n, s).rest, v)
    decreases |s|
  {
    hide Own, Rest, Redirs, Args;
    var s1 := Skip(s);
    RestSkip(s, v);
    if At(s1, "|)&;") || Head(s1) == End {
      NoArgs(n, s, v);
    } else {
      ArgsSplit(n, s);
      var l := Redirs(Next(s1));
      var r := Args(n + 1, l.rest);
      var w := if v.OfWords? then [Arg(Word(s1))] else [];
      RestName(s1, v);
      RedirsSaid(Next(s1), v);
      ArgsSaid(n + 1, l.rest, v);
      OwnJoin(Word(s1), r.value.0, l.value, r.value.1, v);
      Assoc(Own([], l.value, v), Own(r.value.0, r.value.1, v), Rest(r.rest, v));
      Assoc(w, Own([], l.value, v), Own(r.value.0, r.value.1, v));
      Assoc(w, Own([], l.value, v) + Own(r.value.0, r.value.1, v), Rest(r.rest, v));
    }
  }

  lemma NoArgs(n: nat, s: string, v: View)
    requires At(Skip(s), "|)&;") || Head(Skip(s)) == End
    ensures Args(n, s) == Done(([], []), Skip(s)) && Rest(s, v) == Own([], [], v) + Rest(Skip(s), v)
  {
    RestSkip(s, v);
  }

  lemma {:induction false} WrapMeant(c: Cmd<string>, l: seq<Redirect<string>>, v: View)
    ensures Meant(Wrap(c, l), v) == Meant(c, v) + Own([], l, v)
    decreases |l|
  {
    if l != [] { WrapMeant(Redir(c, l[0].file, l[0].mode, l[0].fd), l[1..], v); }
  }

  lemma {:induction false} AmpsSaid(c: Cmd<string>, s: string, v: View)
    ensures Meant(c, v) + Rest(s, v) == Meant(Amps(c, s).value, v) + Rest(Amps(c, s).rest, v)
    decreases |s|
  {
    var s1 := Skip(s);
    RestSkip(s, v);
    if At(s1, "&") {
      RestSign(s1, v);
      AmpsSaid(Back(c), Next(s1), v);
      Assoc(Meant(c, v), [Op("&")], Rest(Next(s1), v));
    }
  }

  lemma {:induction false} LineSaid(s: string, v: View)
    requires Line(s).Done?
    ensures Rest(s, v) == Meant(Line(s).value, v) + Rest(Line(s).rest, v)
    decreases |s|, 3
  {
    hide Said, Tokens, Rest;
    var p := Pipeline(s);
    PipelineSaid(s, v);
    AmpsSaid(p.value, p.rest, v);
    var b := Amps(p.value, p.rest);
    if At(b.rest, ";") {
      var r := Line(Next(b.rest));
      RestSign(b.rest, v);
      LineSaid(Next(b.rest), v);
      Joined(Meant(b.value, v), [Op(";")], Meant(r.value, v), Rest(r.rest, v));
    }
  }

  lemma Joined<T>(a: seq<T>, b: seq<T>, c: seq<T>, d: seq<T>)
    ensures a + (b + (c + d)) == a + b + c + d
  {
  }

  lemma {:induction false} PipelineSaid(s: string, v: View)
    requires Pipeline(s).Done?
    ensures Rest(s, v) == Meant(Pipeline(s).value, v) + Rest(Pipeline(s).rest, v)
    decreases |s|, 2
  {
    hide Said, Tokens, Rest;
    CommandSaid(s, v);
    var e := Command(s);
    if At(e.rest, "|") {
      var r := Pipeline(Next(e.rest));
      RestSign(e.rest, v);
      PipelineSaid(Next(e.rest), v);
      Joined(Meant(e.value, v), [Op("|")], Meant(r.value, v), Rest(r.rest, v));
    }
  }

  lemma {:induction false} CommandSaid(s: string, v: View)
    requires Command(s).Done?
    ensures Rest(s, v) == Meant(Command(s).value, v) + Rest(Command(s).rest, v)
    decreases |s|, 1
  {
    var s1 := Skip(s);
    RestSkip(s, v);
    if At(s1, "(") {
      BlockSaid(s1, v);
    } else {
      var l := Redirs(s1);
      var r := Args(0, l.rest);
      RedirsSaid(s1, v);
      ArgsSaid(0, l.rest, v);
      ExecMeant(r.value.0, l.value, r.value.1, v);
      Assoc(Own([], l.value, v), Own(r.value.0, r.value.1, v), Rest(r.rest, v));
    }
  }

  lemma ExecMeant(args: seq<string>, l: seq<Redirect<string>>, m: seq<Redirect<string>>, v: View)
    ensures Meant(Wrap(Exec(args), l + m), v) == Own([], l, v) + Own(args, m, v)
  {
    WrapMeant(Exec(args), l + m, v);
    AsFilesJoin(l, m);
  }

  lemma {:induction false} BlockSaid(s: string, v: View)
    requires At(s, "(") && Block(s).Done?
    ensures Rest(s, v) == Meant(Block(s).value, v) + Rest(Block(s).rest, v)
    decreases |s|, 0
  {
    hide Said, Tokens, Own, Redirs, Meant, Line, Wrap, Rest;
    var c := Line(Next(s));
    var l := Redirs(Next(c.rest));
    RestSign(s, v);
    LineSaid(Next(s), v);
    RestSign(c.rest, v);
    RedirsSaid(Next(c.rest), v);
    WrapMeant(c.value, l.value, v);
    Assoc(Meant(c.value, v), Own([], l.value, v), Rest(l.rest, v));
  }

  /** The command of a line the shell accepts has exactly the line's words, redirections and
      operators: all of them, in the line's order, each redirection between the same operators. */
  lemma NothingLost(s: string, v: View)
    requires Parse(s).Done?
    ensures Meant(Parse(s).value, v) == Said(Tokens(s), v)
  {
    LineSaid(s, v);
  }

  // ---- lines without parentheses -----------------------------------------

  /** What a simple command is written with: arguments, and redirections with <, > and >>. */
  datatype Item = Given(word: string) | From(word: string) | To(word: string) | Onto(word: string)

  predicate PlainItems(items: seq<Item>) {
    forall k | 0 <= k < |items| :: PlainWord(items[k].word)
  }

  /** The items as typed, and then rest. */
  function Typed(items: seq<Item>, rest: string): string {
    if items == [] then rest
    else Mark(items[0]) + (items[0].word + ([' '] + Typed(items[1..], rest)))
  }

  function Mark(e: Item): string {
    match e
    case Given(_) => ""
    case From(_) => "<"
    case To(_) => ">"
    case Onto(_) => ">>"
  }

  function Arguments(items: seq<Item>): seq<string> {
    if items == [] then []
    else ArgOf(items[0]) + Arguments(items[1..])
  }

  function Files(items: seq<Item>): seq<Redirect<string>> {
    if items == [] then [] else FileOf(items[0]) + Files(items[1..])
  }

  function ArgOf(e: Item): seq<string> {
    if e.Given? then [e.word] else []
  }

  function FileOf(e: Item): seq<Redirect<string>> {
    match e
    case Given(_) => []
    case From(f) => [Redirect(f, 0, 0)]
    case To(f) => [Redirect(f, 0x201, 1)]
    case Onto(f) => [Redirect(f, 0x201, 1)]
  }

  type Found = Result<(seq<string>, seq<Redirect<string>>)>

  /** parseexec from the redirections before word n on. */
  function Both(n: nat, s: string): Found {
    var l := Redirs(s);
    if l.Fail? then Fail else With([], l.value, Args(n, l.rest))
  }

  function With(a: seq<string>, l: seq<Redirect<string>>, r: Found): Found {
    if r.Fail? then Fail else Done((a + r.value.0, l + r.value.1), r.rest)
  }

  lemma BothSkip(n: nat, s: string)
    ensures Both(n, Skip(s)) == Both(n, s)
  {
    Shell.RedirsSkip(s);
  }

  lemma WithTwice(a: seq<string>, b: seq<string>, l: seq<Redirect<string>>, m: seq<Redirect<string>>, r: Found)
    ensures With(a, l, With(b, m, r)) == With(a + b, l + m, r)
  {
    if r.Done? {
      Assoc(a, b, r.value.0);
      Assoc(l, m, r.value.1);
    }
  }

  lemma WithNone(r: Found)
    ensures With([], [], r) == r
  {
    if r.Done? { assert [] + r.value.0 == r.value.0 && [] + r.value.1 == r.value.1; }
  }

  lemma BothRedir(n: nat, s: string, tail: string)
    requires Skip(s) == s && At(s, "<>") && Head(Next(s)) == Name && Next(Next(s)) == Skip(tail)
    ensures Both(n, s) == With([], [Redirection(Head(s), Word(Next(s)))], Both(n, tail))
  {
    hide Args, Skip, At, Head, Word, Redirection;
    var e := Redirection(Head(s), Word(Next(s)));
    var l := Redirs(Skip(tail));
    BothSkip(n, tail);
    if l.Done? {
      assert Redirs(s) == Done([e] + l.value, l.rest);
      WithTwice([], [], [e], l.value, Args(n, l.rest));
      var none: seq<string> := [];
      assert none + none == none;
    }
  }

  lemma BothName(n: nat, s: string, tail: string)
    requires Skip(s) == s && Head(s) == Name && !At(s, "<>") && !At(s, "|)&;") && Next(s) == Skip(tail)
    requires n + 1 < MAXARGS
    ensures Both(n, s) == With([Word(s)], [], Both(n + 1, tail))
  {
    hide Skip, At, Head, Word;
    hide Args, Redirs, With;
    var l := Redirs(Skip(tail));
    NoRedirs(s);
    WithNone(Args(n, s));
    BothSkip(n + 1, tail);
    ArgsStart(n, s, l);
    if l.Done? {
      WithTwice([Word(s)], [], [], l.value, Args(n + 1, l.rest));
      assert [Word(s)] + [] == [Word(s)] && [] + l.value == l.value;
    } else {
      WithFail([Word(s)], []);
    }
  }

  lemma ArgsStart(n: nat, s: string, l: Result<seq<Redirect<string>>>)
    requires Skip(s) == s && Head(s) == Name && !At(s, "|)&;") && n + 1 < MAXARGS
    requires l == Redirs(Next(s))
    ensures Args(n, s) == if l.Fail? then Fail else With([Word(s)], l.value, Args(n + 1, l.rest))
  {
  }

  lemma NoRedirs(s: string)
    requires Skip(s) == s && !At(s, "<>")
    ensures Redirs(s) == Done([], s)
  {
  }

  lemma WithFail(a: seq<string>, l: seq<Redirect<string>>)
    ensures With(a, l, Fail) == Fail
  {
  }

  lemma MarkAt(e: Item, tail: string)
    requires PlainWord(e.word) && !e.Given?
    ensures var s := Mark(e) + (e.word + ([' '] + tail));
      && Skip(s) == s && At(s, "<>") && Next(s) == e.word + ([' '] + tail)
      && [Redirection(Head(s), e.word)] == FileOf(e)
  {
    var rest := e.word + ([' '] + tail);
    NameAt(e.word, [' '] + tail);
    match e
    case From(_) => SignAt('<', rest);
    case To(_) => SignAt('>', rest);
    case Onto(_) =>
      var s := ">>" + rest;
      assert s[0] == '>' && s[1] == '>' && s[2..] == rest;
  }

  lemma ItemAt(n: nat, e: Item, tail: string)
    requires PlainWord(e.word) && (e.Given? ==> n + 1 < MAXARGS)
    ensures Both(n, Mark(e) + (e.word + ([' '] + tail)))
      == With(ArgOf(e), FileOf(e), Both(if e.Given? then n + 1 else n, tail))
  {
    hide Both, With;
    var s := e.word + ([' '] + tail);
    NameAt(e.word, [' '] + tail);
    SpaceAt(tail);
    if e.Given? {
      assert Mark(e) + s == s;
      BothName(n, s, tail);
    } else {
      MarkAt(e, tail);
      BothRedir(n, Mark(e) + s, tail);
    }
  }

  lemma NoItems(n: nat, rest: string)
    requires Stops(rest)
    ensures Both(n, rest) == Done(([], []), rest)
  {
    assert Skip(rest) == rest && !At(rest, "<>");
    NoRedirs(rest);
    assert Args(n, rest) == Done(([], []), rest);
    WithNone(Args(n, rest));
  }

  lemma {:induction false} ItemsAt(n: nat, items: seq<Item>, rest: string)
    requires PlainItems(items) && Stops(rest) && n + |Arguments(items)| < MAXARGS
    ensures Both(n, Typed(items, rest)) == Done((Arguments(items), Files(items)), rest)
    decreases |items|
  {
    hide Both, Mark, PlainWord, FileOf;
    if items == [] {
      NoItems(n, rest);
    } else {
      var tail := Typed(items[1..], rest);
      var e := items[0];
      ItemsAt(if e.Given? then n + 1 else n, items[1..], rest);
      ItemAt(n, e, tail);
    }
  }

  lemma {:induction false} TypedHead(items: seq<Item>, rest: string)
    requires PlainItems(items) && Stops(rest)
    ensures var s := Typed(items, rest); Skip(s) == s && !At(s, "(")
  {
    if items != [] {
      var s := items[0].word + ([' '] + Typed(items[1..], rest));
      NameAt(items[0].word, [' '] + Typed(items[1..], rest));
      if items[0].Given? { assert Mark(items[0]) + s == s; }
      else { MarkAt(items[0], Typed(items[1..], rest)); }
    }
  }

  /** Words and redirections in any mixture: the command runs the words in their order, with the
      redirections around it in theirs. */
  lemma CommandTyped(items: seq<Item>, rest: string)
    requires PlainItems(items) && Stops(rest) && |Arguments(items)| < MAXARGS
    ensures Command(Typed(items, rest)) == Done(Wrap(Exec(Arguments(items)), Files(items)), rest)
  {
    var s := Typed(items, rest);
    TypedHead(items, rest);
    ItemsAt(0, items, rest);
    var l := Redirs(s);
    var r := Args(0, l.rest);
    assert r.Done? && [] + r.value.0 == r.value.0;
  }

  /** Commands with | between them, each & after them, and then rest; at least one command. */
  datatype Job = Job(first: seq<Item>, more: seq<seq<Item>>, amps: nat)

  predicate PlainCommand(items: seq<Item>) {
    PlainItems(items) && |Arguments(items)| < MAXARGS
  }

  predicate PlainJob(j: Job) {
    PlainCommand(j.first) && forall k | 0 <= k < |j.more| :: PlainCommand(j.more[k])
  }

  function Piped(first: seq<Item>, more: seq<seq<Item>>, rest: string): string
    decreases |more|
  {
    Typed(first, if more == [] then rest else ['|'] + Piped(more[0], more[1..], rest))
  }

  function Pipes(first: seq<Item>, more: seq<seq<Item>>): Cmd<string>
    decreases |more|
  {
    var c := Wrap(Exec(Arguments(first)), Files(first));
    if more == [] then c else Pipe(c, Pipes(more[0], more[1..]))
  }

  function Amped(n: nat, rest: string): string { if n == 0 then rest else ['&'] + Amped(n - 1, rest) }

  function Backs(n: nat, c: Cmd<string>): Cmd<string> { if n == 0 then c else Backs(n - 1, Back(c)) }

  function Lined(j: Job, more: seq<Job>): string
    decreases |more|
  {
    Piped(j.first, j.more, Amped(j.amps, if more == [] then "" else [';'] + Lined(more[0], more[1..])))
  }

  function Lists(j: Job, more: seq<Job>): Cmd<string>
    decreases |more|
  {
    var c := Backs(j.amps, Pipes(j.first, j.more));
    if more == [] then c else List(c, Lists(more[0], more[1..]))
  }

  lemma PipedHead(first: seq<Item>, more: seq<seq<Item>>, rest: string)
    requires PlainItems(first) && Stops(rest)
    ensures Skip(Piped(first, more, rest)) == Piped(first, more, rest)
  {
    TypedHead(first, if more == [] then rest else ['|'] + Piped(more[0], more[1..], rest));
  }

  lemma {:induction false} PipelineTyped(first: seq<Item>, more: seq<seq<Item>>, rest: string)
    requires PlainJob(Job(first, more, 0)) && Stops(rest) && !At(rest, "|")
    ensures Pipeline(Piped(first, more, rest)) == Done(Pipes(first, more), rest)
    decreases |more|
  {
    hide Command, Wrap, Arguments, Files, Typed;
    if more == [] {
      CommandTyped(first, rest);
    } else {
      var tail := Piped(more[0], more[1..], rest);
      CommandTyped(first, ['|'] + tail);
      SignAt('|', tail);
      PipedHead(more[0], more[1..], rest);
      PipelineTyped(more[0], more[1..], rest);
    }
  }

  lemma {:induction false} AmpsTyped(n: nat, c: Cmd<string>, rest: string)
    requires Skip(rest) == rest && !At(rest, "&")
    ensures Amps(c, Amped(n, rest)) == Done(Backs(n, c), rest) && Skip(Amped(n, rest)) == Amped(n, rest)
    decreases n
  {
    if n > 0 {
      AmpsTyped(n - 1, Back(c), rest);
      SignAt('&', Amped(n - 1, rest));
    }
  }

  lemma {:induction false} LineTyped(j: Job, more: seq<Job>)
    requires PlainJob(j) && forall k | 0 <= k < |more| :: PlainJob(more[k])
    ensures Line(Lined(j, more)) == Done(Lists(j, more), "")
    decreases |more|
  {
    hide PlainCommand, Piped, Pipes, Amped, Backs, Amps, Pipeline;
    var rest := if more == [] then "" else [';'] + Lined(more[0], more[1..]);
    AmpsTyped(j.amps, Pipes(j.first, j.more), rest);
    AmpedHead(j.amps, rest);
    PipelineTyped(j.first, j.more, Amped(j.amps, rest));
    if more != [] {
      SignAt(';', Lined(more[0], more[1..]));
      LinedHead(more[0], more[1..]);
      LineTyped(more[0], more[1..]);
    }
  }

  lemma AmpedHead(n: nat, rest: string)
    requires rest == "" || rest[0] == ';'
    ensures Stops(Amped(n, rest)) && !At(Amped(n, rest), "|")
  {
  }

  lemma LinedHead(j: Job, more: seq<Job>)
    requires PlainJob(j)
    ensures Skip(Lined(j, more)) == Lined(j, more)
  {
    var rest := if more == [] then "" else [';'] + Lined(more[0], more[1..]);
    AmpedHead(j.amps, rest);
    PipedHead(j.first, j.more, Amped(j.amps, rest));
  }

  /** a | b | c is the pipe nested to the right, a & runs in the background, a ; b is the list. */
  lemma TypedRoundTrip(j: Job, more: seq<Job>)
    requires PlainJob(j) && forall k | 0 <= k < |more| :: PlainJob(more[k])
    ensures Parse(Lined(j, more)) == Done(Lists(j, more), "")
  {
    LineTyped(j, more);
  }
}
