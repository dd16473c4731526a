/** sh.c's parser as it runs: a cursor that moves along the line, words as places in the line,
    and the zeros written into the line at the end. */
module Shell {
  import opened Common
  import opened ShellGrammar


  /** A word, from q up to but not including eq. */
  datatype Span = Span(q: nat, eq: nat)

  // ---- commands with words as places -------------------------------------

  function Text(line: string, w: Span): string {
    if w.q <= w.eq <= |line| then line[w.q..w.eq] else ""
  }

  /** w is a word of the line and does not go on at either w.eq. */
  predicate WholeWord(line: string, w: Span) {
    && w.q < w.eq <= |line| && (forall k | w.q <= k < w.eq :: WordChar(line[k]))
    && (w.eq < |line| ==> !WordChar(line[w.eq]))
  }

  function Texts(line: string, args: seq<Span>): (r: seq<string>)
    ensures |r| == |args| && forall k | 0 <= k < |args| :: r[k] == Text(line, args[k])
  {
    if args == [] then [] else Texts(line, args[..|args| - 1]) + [Text(line, args[|args| - 1])]
  }

  function RedirTexts(line: string, l: seq<Redirect<Span>>): (r: seq<Redirect<string>>)
    ensures |r| == |l|
  {
    if l == [] then [] else
    var e := l[|l| - 1];
    RedirTexts(line, l[..|l| - 1]) + [Redirect(Text(line, e.file), e.mode, e.fd)]
  }

  function Read(line: string, c: Cmd<Span>): Cmd<string> {
    match c
    case Exec(args) => Exec(Texts(line, args))
    case Redir(d, file, mode, fd) => Redir(Read(line, d), Text(line, file), mode, fd)
    case Pipe(l, r) => Pipe(Read(line, l), Read(line, r))
    case List(l, r) => List(Read(line, l), Read(line, r))
    case Back(d) => Back(Read(line, d))
  }

  predicate WholeWords(line: string, args: seq<Span>) {
    forall k | 0 <= k < |args| :: WholeWord(line, args[k])
  }

  predicate WholeRedirs(line: string, l: seq<Redirect<Span>>) {
    forall k | 0 <= k < |l| :: WholeWord(line, l[k].file)
  }

  predicate Whole(line: string, c: Cmd<Span>) {
    match c
    case Exec(args) => WholeWords(line, args)
    case Redir(d, file, _, _) => Whole(line, d) && WholeWord(line, file)
    case Pipe(l, r) => Whole(line, l) && Whole(line, r)
    case List(l, r) => Whole(line, l) && Whole(line, r)
    case Back(d) => Whole(line, d)
  }

  lemma {:induction false} WrapRead(line: string, c: Cmd<Span>, l: seq<Redirect<Span>>)
    requires Whole(line, c) && WholeRedirs(line, l)
    ensures Whole(line, Wrap(c, l)) && Read(line, Wrap(c, l)) == Wrap(Read(line, c), RedirTexts(line, l))
    decreases |l|
  {
    if l != [] {
      RedirTextsFirst(line, l);
      WrapRead(line, Redir(c, l[0].file, l[0].mode, l[0].fd), l[1..]);
    }
  }

  lemma {:induction false} RedirTextsFirst(line: string, l: seq<Redirect<Span>>)
    requires l != []
    ensures RedirTexts(line, l) == [Redirect(Text(line, l[0].file), l[0].mode, l[0].fd)] + RedirTexts(line, l[1..])
    decreases |l|
  {
    if |l| > 1 {
      var h, e := l[..|l| - 1], l[|l| - 1];
      RedirTextsFirst(line, h);
      assert l[1..] == h[1..] + [e];
      RedirTextsLast(line, h[1..], e);
      Assoc([Redirect(Text(line, l[0].file), l[0].mode, l[0].fd)], RedirTexts(line, h[1..]),
        [Redirect(Text(line, e.file), e.mode, e.fd)]);
    } else {
      assert RedirTexts(line, l[1..]) == [] && RedirTexts(line, l[..0]) == [];
    }
  }

  lemma Suffix(line: string, q: nat, n: nat)
    requires q + n <= |line|
    ensures line[q..][n..] == line[q + n..]
  {
  }

  lemma SkipToken(line: string, q: nat, s: string, rest: string)
    requires q <= |line| && s == line[q..] && rest == line[q + Len(s)..]
    ensures Skip(rest) == Next(s)
  {
    Suffix(line, q, Len(s));
  }

  lemma NameSpan(line: string, q: nat, s: string)
    requires q <= |line| && s == line[q..] && Head(s) == Name && !Space(s[0])
    ensures WholeWord(line, Span(q, q + WordLen(s))) && Text(line, Span(q, q + WordLen(s))) == Word(s)
  {
    var n := WordLen(s);
    assert WordChar(s[0]) && n > 0;
    forall k | q <= k < q + n ensures WordChar(line[k]) { assert line[k] == s[k - q]; }
    if n < |s| { assert line[q + n] == s[n]; }
    assert line[q..q + n] == s[..n];
  }

  /** What a parsing method returned agrees with the grammar. */
  ghost predicate Agrees(line: string, r: Option<Cmd<Span>>, rest: string, spec: Result<Cmd<string>>) {
    if spec.Fail? then r.None?
    else r.Some? && Whole(line, r.value) && Read(line, r.value) == spec.value && rest == spec.rest
  }

  ghost predicate RedirsAgree(line: string, r: Option<seq<Redirect<Span>>>, rest: string,
                              spec: Result<seq<Redirect<string>>>) {
    if spec.Fail? then r.None?
    else r.Some? && WholeRedirs(line, r.value) && RedirTexts(line, r.value) == spec.value && rest == spec.rest
  }

  lemma Assoc<T>(a: seq<T>, b: seq<T>, c: seq<T>)
    ensures a + (b + c) == a + b + c
  {
  }

  lemma Neutral<T>(a: seq<T>)
    ensures [] + a == a && a + [] == a
  {
  }

  function AfterRedirs(l: seq<Redirect<string>>, r: Result<seq<Redirect<string>>>): Result<seq<Redirect<string>>> {
    if r.Fail? then Fail else Done(l + r.value, r.rest)
  }

  lemma {:induction false} SkipTwice(s: string)
    ensures Skip(Skip(s)) == Skip(s)
  {
  }

  lemma RedirsSkip(s: string)
    ensures Redirs(s) == Redirs(Skip(s)) && AfterRedirs([], Redirs(s)) == Redirs(s)
  {
    SkipTwice(s);
    if Redirs(s).Done? { Neutral(Redirs(s).value); }
  }

  lemma RedirTextsLast(line: string, l: seq<Redirect<Span>>, e: Redirect<Span>)
    ensures RedirTexts(line, l + [e]) == RedirTexts(line, l) + [Redirect(Text(line, e.file), e.mode, e.fd)]
  {
    assert (l + [e])[..|l + [e]| - 1] == l;
  }

  lemma RedirsOne(line: string, l: seq<Redirect<Span>>, e: Redirect<Span>, s: string, tok: Token, file: string)
    requires Skip(s) == s && At(s, "<>") && Head(s) == tok && Head(Next(s)) == Name && Word(Next(s)) == file
    requires e == Redirection(tok, e.file) && Text(line, e.file) == file
    ensures AfterRedirs(RedirTexts(line, l), Redirs(s)) == AfterRedirs(RedirTexts(line, l + [e]), Redirs(Next(Next(s))))
  {
    var r := Redirs(Next(Next(s)));
    RedirTextsLast(line, l, e);
    if r.Done? { Assoc(RedirTexts(line, l), [Redirection(tok, file)], r.value); }
  }

  datatype Verdict = Right | Wrong

  /** l is what was found before rest, on the way to all. */
  ghost function Gathered(line: string, l: seq<Redirect<Span>>, rest: string,
                          all: Result<seq<Redirect<string>>>): Verdict {
    if WholeRedirs(line, l) && all == AfterRedirs(RedirTexts(line, l), Redirs(rest)) then Right else Wrong
  }

  lemma GatherMore(line: string, l: seq<Redirect<Span>>, e: Redirect<Span>, s: string, tok: Token, file: string,
                   all: Result<seq<Redirect<string>>>)
    requires Gathered(line, l, s, all).Right? && WholeWord(line, e.file)
    requires Skip(s) == s && At(s, "<>") && Head(s) == tok && Head(Next(s)) == Name && Word(Next(s)) == file
    requires e == Redirection(tok, e.file) && Text(line, e.file) == file
    ensures Gathered(line, l + [e], Next(Next(s)), all).Right?
  {
    RedirsOne(line, l, e, s, tok, file);
    assert forall k | 0 <= k < |l + [e]| :: WholeWord(line, (l + [e])[k].file);
  }

  lemma GatheredAll(line: string, l: seq<Redirect<Span>>, s: string, all: Result<seq<Redirect<string>>>)
    requires Gathered(line, l, s, all).Right? && Skip(s) == s && !At(s, "<>")
    ensures RedirsAgree(line, Some(l), s, all)
  {
    Neutral(RedirTexts(line, l));
  }

  type Found = Result<(seq<string>, seq<Redirect<string>>)>

  function AfterArgs(a: seq<string>, l: seq<Redirect<string>>, r: Found): Found {
    if r.Fail? then Fail else Done((a + r.value.0, l + r.value.1), r.rest)
  }

  lemma ArgsNone(s: string)
    ensures AfterArgs([], [], Args(0, s)) == Args(0, s) && Args(0, s) == Args(0, Skip(s))
  {
    SkipTwice(s);
    var r := Args(0, s);
    if r.Done? {
      Neutral(r.value.0);
      Neutral(r.value.1);
    }
  }

  lemma {:induction false} RedirTextsJoin(line: string, l: seq<Redirect<Span>>, m: seq<Redirect<Span>>)
    ensures RedirTexts(line, l + m) == RedirTexts(line, l) + RedirTexts(line, m)
    decreases |m|
  {
    if m == [] {
      assert l + m == l;
    } else {
      var h := m[..|m| - 1];
      RedirTextsJoin(line, l, h);
      assert (l + m)[..|l + m| - 1] == l + h;
    }
  }

  lemma ArgsUnfold(n: nat, s: string, s2: string, m: seq<Redirect<string>>)
    requires Skip(s) == s && !At(s, "|)&;") && Head(s) == Name && n + 1 < MAXARGS && Redirs(Next(s)) == Done(m, s2)
    ensures var r := Args(n + 1, s2);
            Args(n, s) == if r.Fail? then Fail else Done(([Word(s)] + r.value.0, m + r.value.1), r.rest)
  {
  }

  /** A word and the redirections after it. */
  lemma ArgsOne(n: nat, s: string, s2: string, a: seq<string>, l: seq<Redirect<string>>, m: seq<Redirect<string>>)
    requires Skip(s) == s && !At(s, "|)&;") && Head(s) == Name && n + 1 < MAXARGS && Redirs(Next(s)) == Done(m, s2)
    ensures AfterArgs(a, l, Args(n, s)) == AfterArgs(a + [Word(s)], l + m, Args(n + 1, s2))
  {
    var r := Args(n + 1, s2);
    ArgsUnfold(n, s, s2, m);
    if r.Done? {
      Assoc(a, [Word(s)], r.value.0);
      Assoc(l, m, r.value.1);
    }
  }

  ghost predicate ArgsAgree(line: string, r: Option<(seq<Span>, seq<Redirect<Span>>)>, rest: string, spec: Found) {
    if spec.Fail? then r.None?
    else
      && r.Some? && WholeWords(line, r.value.0) && WholeRedirs(line, r.value.1)
      && (Texts(line, r.value.0), RedirTexts(line, r.value.1)) == spec.value && rest == spec.rest
  }

  lemma TextsOne(line: string, args: seq<Span>, w: Span)
    ensures Texts(line, args + [w]) == Texts(line, args) + [Text(line, w)]
  {
    assert (args + [w])[..|args + [w]| - 1] == args;
  }

  /** args and l are what was found before rest, on the way to all. */
  ghost function Collected(line: string, args: seq<Span>, l: seq<Redirect<Span>>, rest: string, all: Found): Verdict {
    if && WholeWords(line, args) && WholeRedirs(line, l) && |args| < MAXARGS
       && all == AfterArgs(Texts(line, args), RedirTexts(line, l), Args(|args|, rest))
    then Right else Wrong
  }

  lemma CollectMore(line: string, args: seq<Span>, w: Span, l: seq<Redirect<Span>>, m: seq<Redirect<Span>>, s: string,
                    s2: string, all: Found)
    requires Collected(line, args, l, s, all).Right? && WholeWord(line, w) && WholeRedirs(line, m)
    requires Skip(s) == s && !At(s, "|)&;") && Head(s) == Name && |args| + 1 < MAXARGS && Text(line, w) == Word(s)
    requires Redirs(Next(s)) == Done(RedirTexts(line, m), s2)
    ensures Collected(line, args + [w], l + m, s2, all).Right?
  {
    hide WholeWord, Skip, At, Head, Text, Word, Redirs, Next, RedirTexts, AfterArgs, Texts, Args;
    ArgsMore(line, args, w, l, m, s, s2);
    assert forall k | 0 <= k < |l + m| :: WholeWord(line, (l + m)[k].file);
  }

  lemma CollectFail(line: string, args: seq<Span>, l: seq<Redirect<Span>>, s: string, all: Found)
    requires Collected(line, args, l, s, all).Right? && Skip(s) == s && !At(s, "|)&;") && Head(s) != End
    requires Head(s) != Name || |args| + 1 >= MAXARGS || Redirs(Next(s)).Fail?
    ensures all.Fail?
  {
  }

  lemma CollectAll(line: string, args: seq<Span>, l: seq<Redirect<Span>>, s: string, all: Found)
    requires Collected(line, args, l, s, all).Right? && Skip(s) == s && (At(s, "|)&;") || s == "")
    ensures ArgsAgree(line, Some((args, l)), s, all)
  {
    ArgsLast(|args|, s, Texts(line, args), RedirTexts(line, l));
  }

  lemma ArgsMore(line: string, args: seq<Span>, w: Span, l: seq<Redirect<Span>>, m: seq<Redirect<Span>>, s: string,
                 s2: string)
    requires Skip(s) == s && !At(s, "|)&;") && Head(s) == Name && |args| + 1 < MAXARGS && Text(line, w) == Word(s)
    requires Redirs(Next(s)) == Done(RedirTexts(line, m), s2)
    ensures AfterArgs(Texts(line, args), RedirTexts(line, l), Args(|args|, s))
         == AfterArgs(Texts(line, args + [w]), RedirTexts(line, l + m), Args(|args + [w]|, s2))
  {
    TextsOne(line, args, w);
    RedirTextsJoin(line, l, m);
    ArgsOne(|args|, s, s2, Texts(line, args), RedirTexts(line, l), RedirTexts(line, m));
  }

  lemma ArgsLast(n: nat, s: string, a: seq<string>, l: seq<Redirect<string>>)
    requires Skip(s) == s && (At(s, "|)&;") || s == "")
    ensures AfterArgs(a, l, Args(n, s)) == Done((a, l), s)
  {
    Neutral(a);
    Neutral(l);
  }

  lemma AmpsSkip(c: Cmd<string>, s: string)
    ensures Amps(c, s) == Amps(c, Skip(s))
  {
    SkipTwice(s);
  }

  class Parser {
    const line: string
    var at: nat     // *ps

    constructor (line: string)
      ensures this.line == line && at == 0
    {
      this.line := line;
      at := 0;
    }

    ghost predicate Valid()
      reads this
    {
      at <= |line|
    }

    ghost function Rest(): string
      reads this
      requires Valid()
    {
      line[at..]
    }

    method SkipSpaces()
      requires Valid()
      modifies this`at
      ensures Valid() && Rest() == Skip(old(Rest()))
    {
      while at < |line| && Space(line[at])
        invariant Valid() && Skip(Rest()) == Skip(old(Rest()))
        decreases |line| - at
      {
        assert line[at..][1..] == line[at + 1..];
        at := at + 1;
      }
    }

    /** The default case of gettoken's switch. */
    method SkipWord()
      requires Valid()
      modifies this`at
      ensures Valid() && at == old(at) + WordLen(old(Rest()))
    {
      while at < |line| && !Space(line[at]) && !Symbol(line[at])
        invariant Valid() && at + WordLen(Rest()) == old(at) + WordLen(old(Rest()))
        decreases |line| - at
      {
        assert line[at..][1..] == line[at + 1..];
        at := at + 1;
      }
    }

    /** gettoken's switch. */
    method TakeToken() returns (tok: Token)
      requires Valid() && (Rest() == "" || !Space(Rest()[0]))
      modifies this`at
      ensures Valid() && tok == Head(old(Rest())) && at == old(at) + Len(old(Rest()))
    {
      if at == |line| { return End; }
      if line[at] == '>' {
        at := at + 1;
        if at < |line| && line[at] == '>' {
          at := at + 1;
          return Append;
        }
        return Sign('>');
      }
      if Symbol(line[at]) {
        tok := Sign(line[at]);
        at := at + 1;
        return;
      }
      tok := Name;
      SkipWord();
    }

    /** gettoken */
    method GetToken() returns (tok: Token, w: Span)
      requires Valid()
      modifies this`at
      ensures Valid() && tok == Head(Skip(old(Rest()))) && Rest() == Next(Skip(old(Rest())))
      ensures tok == Name ==> WholeWord(line, w) && Text(line, w) == Word(Skip(old(Rest())))
    {
      SkipSpaces();
      ghost var s := Rest();
      var q := at;
      tok := TakeToken();
      w := Span(q, at);
      if tok == Name { NameSpan(line, q, s); }
      SkipToken(line, q, s, Rest());
      SkipSpaces();
    }

    /** peek */
    method Peek(toks: string) returns (r: bool)
      requires Valid()
      modifies this`at
      ensures Valid() && Rest() == Skip(old(Rest())) && r == At(Rest(), toks)
    {
      SkipSpaces();
      r := at < |line| && line[at] in toks;
    }

    /** parseredirs: the redirections found, for the caller to wrap around its command. */
    method ParseRedirs() returns (r: Option<seq<Redirect<Span>>>)
      requires Valid()
      modifies this`at
      ensures Valid() && RedirsAgree(line, r, Rest(), Redirs(old(Rest())))
    {
      var l: seq<Redirect<Span>> := [];
      ghost var all := Redirs(old(Rest()));
      var more := Peek("<>");
      RedirsSkip(old(Rest()));
      while more
        invariant Valid() && more == At(Rest(), "<>") && Skip(Rest()) == Rest() && Gathered(line, l, Rest(), all).Right?
        decreases |line| - at
      {
        var e := ParseRedir(l, all);
        if e.None? { return None; }
        l := l + [e.value];
        more := Peek("<>");
      }
      GatheredAll(line, l, Rest(), all);
      r := Some(l);
    }

    /** One redirection. */
    method ParseRedir(ghost l: seq<Redirect<Span>>,
                      ghost all: Result<seq<Redirect<string>>>) returns (r: Option<Redirect<Span>>)
      requires Valid() && At(Rest(), "<>") && Skip(Rest()) == Rest() && Gathered(line, l, Rest(), all).Right?
      modifies this`at
      ensures Valid()
      ensures
        if r.None? then all.Fail?
        else at > old(at) && Skip(Rest()) == Rest() && Gathered(line, l + [r.value], Rest(), all).Right?
    {
      ghost var s := Rest();
      var tok, _ := GetToken();
      var name, w := GetToken();
      if name != Name { return None; }
      GatherMore(line, l, Redirection(tok, w), s, tok, Word(Next(s)), all);
      r := Some(Redirection(tok, w));
    }

    /** parseexec's loop: the words, and the redirections among them. */
    method ParseArgs() returns (r: Option<(seq<Span>, seq<Redirect<Span>>)>)
      requires Valid()
      modifies this`at
      ensures Valid() && ArgsAgree(line, r, Rest(), Args(0, old(Rest())))
    {
      var args: seq<Span>, l: seq<Redirect<Span>> := [], [];
      ArgsNone(Rest());
      var stop := Peek("|)&;");
      ghost var all := Args(0, old(Rest()));
      while !stop
        invariant Valid()
        invariant stop == At(Rest(), "|)&;") && Skip(Rest()) == Rest() && Collected(line, args, l, Rest(), all).Right?
        decreases |line| - at
      {
        ghost var s := Rest();
        var tok, w := GetToken();
        if tok == End { break; }
        if tok != Name || |args| + 1 >= MAXARGS {
          CollectFail(line, args, l, s, all);
          return None;
        }
        var more := ParseAfter(args, w, l, s, all);
        if more.None? { return None; }
        args, l := args + [w], more.value;
        stop := Peek("|)&;");
      }
      CollectAll(line, args, l, Rest(), all);
      r := Some((args, l));
    }

    /** The redirections after a word, added to those before it. */
    method ParseAfter(args: seq<Span>, w: Span, l: seq<Redirect<Span>>, ghost s: string, ghost all: Found)
      returns (r: Option<seq<Redirect<Span>>>)
      requires Valid() && Rest() == Next(s) && Skip(s) == s && !At(s, "|)&;") && Head(s) == Name && |args| + 1 < MAXARGS
      requires Collected(line, args, l, s, all).Right? && WholeWord(line, w) && Text(line, w) == Word(s)
      modifies this`at
      ensures Valid()
      ensures
        if r.None? then all.Fail?
        else at >= old(at) && Skip(Rest()) == Rest() && Collected(line, args + [w], r.value, Rest(), all).Right?
    {
      var m := ParseRedirs();
      if m.None? {
        CollectFail(line, args, l, s, all);
        return None;
      }
      CollectMore(line, args, w, l, m.value, s, Rest(), all);
      r := Some(l + m.value);
    }

    /** parseline */
    method ParseLine() returns (r: Option<Cmd<Span>>)
      requires Valid()
      modifies this`at
      ensures Valid() && Agrees(line, r, Rest(), Line(old(Rest())))
      decreases |line| - at, 3
    {
      r := ParsePipe();
      if r.None? { return; }
      var c := ParseAmps(r.value);
      r := Some(c);
      var list := Peek(";");
      if list {
        var _, _ := GetToken();
        var d := ParseLine();
        if d.None? { return None; }
        r := Some(List(c, d.value));
      }
    }

    /** The loop of parseline. */
    method ParseAmps(c: Cmd<Span>) returns (r: Cmd<Span>)
      requires Valid() && Whole(line, c)
      modifies this`at
      ensures Valid() && Whole(line, r) && Done(Read(line, r), Rest()) == Amps(Read(line, c), old(Rest()))
    {
      r := c;
      var amp := Peek("&");
      AmpsSkip(Read(line, c), old(Rest()));
      while amp
        invariant Valid() && amp == At(Rest(), "&") && Skip(Rest()) == Rest()
        invariant Whole(line, r) && Amps(Read(line, c), old(Rest())) == Amps(Read(line, r), Rest())
        decreases |line| - at
      {
        var _, _ := GetToken();
        AmpsSkip(Back(Read(line, r)), Rest());
        r := Back(r);
        amp := Peek("&");
      }
    }

    /** parsepipe */
    method ParsePipe() returns (r: Option<Cmd<Span>>)
      requires Valid()
      modifies this`at
      ensures Valid() && Agrees(line, r, Rest(), Pipeline(old(Rest())))
      decreases |line| - at, 2
    {
      r := ParseExec();
      if r.None? { return; }
      var pipe := Peek("|");
      if pipe {
        var _, _ := GetToken();
        var d := ParsePipe();
        if d.None? { return None; }
        r := Some(Pipe(r.value, d.value));
      }
    }

    /** parseexec */
    method ParseExec() returns (r: Option<Cmd<Span>>)
      requires Valid()
      modifies this`at
      ensures Valid() && Agrees(line, r, Rest(), Command(old(Rest())))
      decreases |line| - at, 1
    {
      SkipTwice(Rest());
      var block := Peek("(");
      if block {
        r := ParseBlock();
        return;
      }
      var l := ParseRedirs();
      if l.None? { return None; }
      var m := ParseArgs();
      if m.None? { return None; }
      RedirTextsJoin(line, l.value, m.value.1);
      WrapRead(line, Exec(m.value.0), l.value + m.value.1);
      r := Some(Wrap(Exec(m.value.0), l.value + m.value.1));
    }

    /** parseblock */
    method ParseBlock() returns (r: Option<Cmd<Span>>)
      requires Valid() && At(Rest(), "(") && Skip(Rest()) == Rest()
      modifies this`at
      ensures Valid() && Agrees(line, r, Rest(), Block(old(Rest())))
      decreases |line| - at, 0
    {
      var _, _ := GetToken();
      var c := ParseLine();
      if c.None? { return None; }
      var close := Peek(")");
      if !close { return None; }
      var _, _ := GetToken();
      var l := ParseRedirs();
      if l.None? { return None; }
      WrapRead(line, c.value, l.value);
      r := Some(Wrap(c.value, l.value));
    }
  }
}
