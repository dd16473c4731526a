/** grep.c's pattern matcher, against the languages its patterns denote. Strings are C strings
    without their terminating zero. */
module Grep {

  // ---- what a pattern means ----------------------------------------------

  /** One character, or any number of the same; '.' stands for any character. */
  datatype Item = One(c: char) | Star(c: char)

  predicate Fits(c: char, x: char) {
    c == '.' || c == x
  }

  predicate Starred(re: string) {
    |re| >= 2 && re[1] == '*'
  }

  /** The items of a pattern, without a leading '^' and without the '$' that ends it. */
  function Items(re: string): seq<Item> {
    if re == "" || re == "$" then []
    else if Starred(re) then [Star(re[0])] + Items(re[2..])
    else [One(re[0])] + Items(re[1..])
  }

  /** Does the pattern end in an unstarred '$'? */
  predicate Anchored(re: string) {
    if re == "" then false
    else if re == "$" then true
    else if Starred(re) then Anchored(re[2..])
    else Anchored(re[1..])
  }

  predicate InItem(i: Item, s: string) {
    match i
    case One(c) => |s| == 1 && Fits(c, s[0])
    case Star(c) => forall k | 0 <= k < |s| :: Fits(c, s[k])
  }

  /** s is a string of the first item followed by one of the others. */
  ghost predicate InLanguage(items: seq<Item>, s: string) {
    if items == [] then s == ""
    else exists k | 0 <= k <= |s| :: InItem(items[0], s[..k]) && InLanguage(items[1..], s[k..])
  }

  /** Some prefix of text, or all of it if the pattern is anchored, is in the language. */
  ghost predicate Begins(re: string, text: string) {
    exists k | 0 <= k <= |text| :: (Anchored(re) ==> k == |text|) && InLanguage(Items(re), text[..k])
  }

  /** Some substring is, under the anchors at either end. */
  ghost predicate Occurs(re: string, text: string) {
    if re != "" && re[0] == '^' then Begins(re[1..], text)
    else exists i | 0 <= i <= |text| :: Begins(re, text[i..])
  }

  // ---- how it unfolds ----------------------------------------------------

  lemma BeginsEmpty(text: string)
    ensures Begins("", text)
  {
    assert InLanguage(Items(""), text[..0]);
  }

  lemma BeginsEnd(text: string)
    ensures Begins("$", text) <==> text == ""
  {
    if text == "" { assert InLanguage(Items("$"), text[..0]); }
  }

  lemma BeginsOne(re: string, text: string)
    requires re != "" && re != "$" && !Starred(re)
    ensures Begins(re, text) <==> text != "" && Fits(re[0], text[0]) && Begins(re[1..], text[1..])
  {
    var items := Items(re);
    assert items[0] == One(re[0]) && items[1..] == Items(re[1..]);
    if Begins(re, text) {
      var k :| 0 <= k <= |text| && (Anchored(re) ==> k == |text|) && InLanguage(items, text[..k]);
      var j :| 0 <= j <= k && InItem(items[0], text[..k][..j]) && InLanguage(items[1..], text[..k][j..]);
      assert text[..k][1..] == text[1..][..k - 1];
    }
    if text != "" && Fits(re[0], text[0]) && Begins(re[1..], text[1..]) {
      var k :| 0 <= k <= |text[1..]| && (Anchored(re[1..]) ==> k == |text[1..]|)
        && InLanguage(Items(re[1..]), text[1..][..k]);
      var s := text[..k + 1];
      assert s[..1] == [text[0]] && s[1..] == text[1..][..k];
      assert InItem(items[0], s[..1]) && InLanguage(items[1..], s[1..]);
      assert InLanguage(items, s);
    }
  }

  lemma BeginsStar(re: string, text: string)
    requires Starred(re)
    ensures Begins(re, text) <==> exists j | 0 <= j <= |text| ::
      InItem(Star(re[0]), text[..j]) && Begins(re[2..], text[j..])
  {
    var items := Items(re);
    assert items[0] == Star(re[0]) && items[1..] == Items(re[2..]);
    if Begins(re, text) {
      var k :| 0 <= k <= |text| && (Anchored(re) ==> k == |text|) && InLanguage(items, text[..k]);
      var j :| 0 <= j <= k && InItem(items[0], text[..k][..j]) && InLanguage(items[1..], text[..k][j..]);
      assert text[..k][..j] == text[..j] && text[..k][j..] == text[j..][..k - j];
      assert Begins(re[2..], text[j..]);
    }
    if j :| 0 <= j <= |text| && InItem(Star(re[0]), text[..j]) && Begins(re[2..], text[j..]) {
      var k :| 0 <= k <= |text[j..]| && (Anchored(re[2..]) ==> k == |text[j..]|)
        && InLanguage(Items(re[2..]), text[j..][..k]);
      var s := text[..j + k];
      assert s[..j] == text[..j] && s[j..] == text[j..][..k];
      assert InItem(items[0], s[..j]) && InLanguage(items[1..], s[j..]);
      assert InLanguage(items, s);
    }
  }

  // ---- the matcher -------------------------------------------------------

  /** matchhere */
  method MatchHere(re: string, text: string) returns (r: bool)
    ensures r <==> Begins(re, text)
    decreases |re|, 0
  {
    if re == "" {
      BeginsEmpty(text);
      return true;
    }
    if |re| >= 2 && re[1] == '*' {
      BeginsStar(re, text);
      r := MatchStar(re[0], re[2..], text);
      return;
    }
    if re == "$" {
      BeginsEnd(text);
      return text == "";
    }
    BeginsOne(re, text);
    if text != "" && (re[0] == '.' || re[0] == text[0]) {
      r := MatchHere(re[1..], text[1..]);
      return;
    }
    return false;
  }

  /** matchstar: the text pointer has moved j characters, all of which c* takes. */
  method MatchStar(c: char, re: string, text: string) returns (r: bool)
    ensures r <==> exists j | 0 <= j <= |text| :: InItem(Star(c), text[..j]) && Begins(re, text[j..])
    decreases |re|, 1
  {
    var j := 0;
    while true
      invariant 0 <= j <= |text| && InItem(Star(c), text[..j])
      invariant forall i | 0 <= i < j :: !Begins(re, text[i..])
      decreases |text| - j
    {
      r := MatchHere(re, text[j..]);
      if r { return; }
      if j == |text| || !(text[j] == c || c == '.') { break; }
      j := j + 1;
    }
    forall i | j < i <= |text|
      ensures !InItem(Star(c), text[..i])
    {
      assert text[..i][j] == text[j] && !Fits(c, text[j]);
    }
  }

  /** match */
  method Match(re: string, text: string) returns (r: bool)
    ensures r <==> Occurs(re, text)
  {
    if re != "" && re[0] == '^' {
      r := MatchHere(re[1..], text);
      return;
    }
    var i := 0;
    while true
      invariant 0 <= i <= |text| && forall k | 0 <= k < i :: !Begins(re, text[k..])
      decreases |text| - i
    {
      r := MatchHere(re, text[i..]);
      if r { return; }
      if i == |text| { return; }
      i := i + 1;
    }
  }

  /** Spelt out: the substring between two places of the text. */
  lemma OccursMeans(re: string, text: string)
    ensures Occurs(re, text) <==>
      if re != "" && re[0] == '^' then
        exists j | 0 <= j <= |text| :: (Anchored(re[1..]) ==> j == |text|) && InLanguage(Items(re[1..]), text[..j])
      else
        exists i, j | 0 <= i <= j <= |text| :: (Anchored(re) ==> j == |text|) && InLanguage(Items(re), text[i..j])
  {
    if !(re != "" && re[0] == '^') {
      if i :| 0 <= i <= |text| && Begins(re, text[i..]) {
        var k :| 0 <= k <= |text[i..]| && (Anchored(re) ==> k == |text[i..]|) && InLanguage(Items(re), text[i..][..k]);
        assert text[i..][..k] == text[i..i + k];
      }
      if i, j :| 0 <= i <= j <= |text| && (Anchored(re) ==> j == |text|) && InLanguage(Items(re), text[i..j]) {
        assert text[i..][..j - i] == text[i..j];
        assert Begins(re, text[i..]);
      }
    }
  }
}
