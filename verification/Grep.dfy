/** The regular expressions of user/grep.c.  A string is the sequence of its characters before the NUL. */
module Grep {

  type CString = s: string | '\0' !in s witness ""

  // ---- What a pattern means ----

  datatype Item = One(c: char) | Star(c: char)

  /** The items in order; `last` if the match has to end where the text does. */
  datatype Pattern = Pattern(items: seq<Item>, last: bool)

  predicate Fits(c: char, x: char) {
    c == '.' || c == x
  }

  /** A star after a character makes an item of the two; a dollar at the very end is an anchor. */
  function Parse(re: string): (p: Pattern) {
    if re == "" then Pattern([], false)
    else if |re| >= 2 && re[1] == '*' then Prefixed(Star(re[0]), Parse(re[2..]))
    else if re == "$" then Pattern([], true)
    else Prefixed(One(re[0]), Parse(re[1..]))
  }

  function Prefixed(i: Item, p: Pattern): Pattern {
    p.(items := [i] + p.items)
  }

  /** Text that one item stands for. */
  ghost predicate Spells(i: Item, s: string) {
    && (i.One? ==> |s| == 1)
    && forall k :: 0 <= k < |s| ==> Fits(i.c, s[k])
  }

  function Concat(pieces: seq<string>): string {
    if pieces == [] then "" else pieces[0] + Concat(pieces[1..])
  }

  /** One piece of text for each item, in order. */
  ghost predicate Piecewise(items: seq<Item>, pieces: seq<string>) {
    |pieces| == |items| && forall i :: 0 <= i < |items| ==> Spells(items[i], pieces[i])
  }

  ghost predicate Covers(p: Pattern, pieces: seq<string>, text: string) {
    && Piecewise(p.items, pieces)
    && if p.last then Concat(pieces) == text else Concat(pieces) <= text
  }

  /** The text begins with a match. */
  ghost predicate Begins(p: Pattern, text: string) {
    exists pieces :: Covers(p, pieces, text)
  }

  /** What match is to find out: a leading caret anchors the match to the beginning of the text. */
  ghost predicate Found(re: string, text: string) {
    if re != "" && re[0] == '^' then Begins(Parse(re[1..]), text)
    else exists i :: 0 <= i <= |text| && Begins(Parse(re), text[i..])
  }

  // ---- How a pattern is written ----

  function Written(p: Pattern): (re: string)
    decreases |p.items|
  {
    if p.items == [] then (if p.last then "$" else "")
    else (if p.items[0].One? then [p.items[0].c] else [p.items[0].c, '*']) + Written(p.(items := p.items[1..]))
  }

  /** No star follows a character that is meant to stand alone, and no dollar at the end is. */
  predicate Writable(p: Pattern) {
    && (forall k :: 0 <= k < |p.items| - 1 && p.items[k].One? ==> p.items[k + 1].c != '*')
    && (p.items != [] && !p.last ==> p.items[|p.items| - 1] != One('$'))
  }

  lemma {:induction false} ParseStar(c: char, more: string)
    ensures Parse([c, '*'] + more) == Prefixed(Star(c), Parse(more))
  {
    assert ([c, '*'] + more)[2..] == more;
  }

  lemma {:induction false} ParseOne(c: char, more: string)
    requires (more != "" ==> more[0] != '*') && (more == "" ==> c != '$')
    ensures Parse([c] + more) == Prefixed(One(c), Parse(more))
  {
    assert ([c] + more)[1..] == more;
  }

  lemma {:induction false} WrittenFirst(p: Pattern)
    requires p.items != []
    ensures Written(p) == (if p.items[0].One? then [p.items[0].c] else [p.items[0].c, '*'])
                          + Written(p.(items := p.items[1..]))
    ensures Written(p) != "" && Written(p)[0] == p.items[0].c
  {
  }

  lemma {:induction false} WrittenNone(p: Pattern)
    requires p.items == []
    ensures Written(p) == (if p.last then "$" else "") && Parse(Written(p)) == p
  {
  }

  /** Reading a written pattern gives it back. */
  lemma {:induction false} ParseWritten(p: Pattern)
    requires Writable(p)
    ensures Parse(Written(p)) == p
    decreases |p.items|
  {
    hide Parse, Written;
    if p.items == [] {
      WrittenNone(p);
    } else {
      var rest, i := p.(items := p.items[1..]), p.items[0];
      WritableRest(p);
      ParseWritten(rest);
      WrittenFirst(p);
      assert p == Prefixed(i, rest);
      if i.Star? {
        ParseStar(i.c, Written(rest));
      } else {
        if rest.items == [] {
          WrittenNone(rest);
        } else {
          WrittenFirst(rest);
        }
        ParseOne(i.c, Written(rest));
      }
    }
  }

  lemma WritableRest(p: Pattern)
    requires Writable(p) && p.items != []
    ensures Writable(p.(items := p.items[1..]))
  {
    var rest := p.items[1..];
    assert forall k :: 0 <= k < |rest| ==> rest[k] == p.items[k + 1];
  }

  // ---- One item at a time ----

  lemma PrefixOfSum(a: string, b: string, text: string)
    ensures a + b <= text ==> a <= text
  {
    if a + b <= text {
      assert text[..|a|] == a;
    }
  }

  lemma CoversMore(i: Item, p: Pattern, piece: string, pieces: seq<string>, text: string)
    ensures Covers(Prefixed(i, p), [piece] + pieces, text) <==>
            Spells(i, piece) && piece <= text && Covers(p, pieces, text[|piece|..])
  {
    var q, all := Prefixed(i, p), [piece] + pieces;
    assert all[1..] == pieces && Concat(all) == piece + Concat(pieces);
    assert forall k :: 0 < k < |q.items| ==> q.items[k] == p.items[k - 1];
    assert forall k :: 0 < k < |all| ==> all[k] == pieces[k - 1];
    if Piecewise(q.items, all) {
      assert Spells(q.items[0], all[0]);
      forall k | 0 <= k < |p.items| ensures Spells(p.items[k], pieces[k]) {
        assert Spells(q.items[k + 1], all[k + 1]);
      }
    }
    if piece <= text {
      assert text == piece + text[|piece|..];
    }
    PrefixOfSum(piece, Concat(pieces), text);
  }

  /** A first piece, and a match of the rest after it. */
  lemma BeginsSplit(i: Item, p: Pattern, text: string)
    ensures Begins(Prefixed(i, p), text) <==>
            exists k :: 0 <= k <= |text| && Spells(i, text[..k]) && Begins(p, text[k..])
  {
    if Begins(Prefixed(i, p), text) {
      var all :| Covers(Prefixed(i, p), all, text);
      assert all == [all[0]] + all[1..];
      CoversMore(i, p, all[0], all[1..], text);
      var k := |all[0]|;
      assert text[..k] == all[0] && Begins(p, text[k..]);
    }
    if exists k :: 0 <= k <= |text| && Spells(i, text[..k]) && Begins(p, text[k..]) {
      var k :| 0 <= k <= |text| && Spells(i, text[..k]) && Begins(p, text[k..]);
      var pieces :| Covers(p, pieces, text[k..]);
      CoversMore(i, p, text[..k], pieces, text);
      assert Begins(Prefixed(i, p), text);
    }
  }

  lemma BeginsOne(c: char, p: Pattern, text: string)
    ensures Begins(Prefixed(One(c), p), text) <==> text != "" && Fits(c, text[0]) && Begins(p, text[1..])
  {
    BeginsSplit(One(c), p, text);
    if text != "" && Fits(c, text[0]) && Begins(p, text[1..]) {
      assert Spells(One(c), text[..1]);
    }
  }

  lemma SpellsStar(c: char, s: string)
    requires s != ""
    ensures Spells(Star(c), s) <==> Fits(c, s[0]) && Spells(Star(c), s[1..])
  {
    var t := s[1..];
    assert forall j :: 0 < j < |s| ==> s[j] == t[j - 1];
    if Spells(Star(c), s) {
      forall j | 0 <= j < |t| ensures Fits(c, t[j]) {
        assert Fits(c, s[j + 1]);
      }
    }
  }

  /** A star: match the rest here, or take one more character. */
  lemma BeginsStar(c: char, p: Pattern, text: string)
    ensures Begins(Prefixed(Star(c), p), text) <==>
            Begins(p, text) || (text != "" && Fits(c, text[0]) && Begins(Prefixed(Star(c), p), text[1..]))
  {
    BeginsSplit(Star(c), p, text);
    assert text[0..] == text && Spells(Star(c), text[..0]);
    if text != "" {
      var rest := text[1..];
      BeginsSplit(Star(c), p, rest);
      forall k | 0 < k <= |text|
        ensures text[k..] == rest[k - 1..]
        ensures Spells(Star(c), text[..k]) <==> Fits(c, text[0]) && Spells(Star(c), rest[..k - 1])
      {
        SpellsStar(c, text[..k]);
        assert text[..k][1..] == rest[..k - 1];
      }
      if exists k :: 0 <= k <= |text| && Spells(Star(c), text[..k]) && Begins(p, text[k..]) {
        var k :| 0 <= k <= |text| && Spells(Star(c), text[..k]) && Begins(p, text[k..]);
        assert k > 0 ==> Spells(Star(c), rest[..k - 1]) && Begins(p, rest[k - 1..]);
      }
      if Fits(c, text[0]) && Begins(Prefixed(Star(c), p), rest) {
        var k :| 0 <= k <= |rest| && Spells(Star(c), rest[..k]) && Begins(p, rest[k..]);
        assert Spells(Star(c), text[..k + 1]) && Begins(p, text[k + 1..]);
      }
    }
  }

  lemma BeginsNothing(last: bool, text: string)
    ensures Begins(Pattern([], last), text) <==> !last || text == ""
  {
    assert Concat([]) == "";
    if !last || text == "" {
      assert Covers(Pattern([], last), [], text);
    }
  }

  // ---- The matcher ----

  /** matchhere: does a match begin here? */
  method MatchHere(re: CString, text: CString) returns (r: bool)
    ensures r <==> Begins(Parse(re), text)
    decreases |re|, 0
  {
    BeginsNothing(false, text);
    BeginsNothing(true, text);
    if re == "" {
      return true;
    }
    if |re| > 1 && re[1] == '*' {
      r := MatchStar(re[0], re[2..], text);
      return;
    }
    if re[0] == '$' && |re| == 1 {
      return text == "";
    }
    BeginsOne(re[0], Parse(re[1..]), text);
    if text != "" && (re[0] == '.' || re[0] == text[0]) {
      r := MatchHere(re[1..], text[1..]);
      return;
    }
    r := false;
  }

  /** matchstar: some instances of `c`, as few as possible, and then the rest. */
  method MatchStar(c: char, re: CString, text: CString) returns (r: bool)
    ensures r <==> Begins(Prefixed(Star(c), Parse(re)), text)
    decreases |re|, 1
  {
    var i := 0;
    assert text[0..] == text;
    while true
      invariant 0 <= i <= |text|
      invariant Begins(Prefixed(Star(c), Parse(re)), text) <==> Begins(Prefixed(Star(c), Parse(re)), text[i..])
      decreases |text| - i
    {
      BeginsStar(c, Parse(re), text[i..]);
      r := MatchHere(re, text[i..]);
      if r {
        return;
      }
      if i == |text| {
        break;
      }
      i := i + 1;
      assert text[i - 1..][1..] == text[i..];
      if !(text[i - 1] == c || c == '.') {
        break;
      }
    }
  }

  /** match: does the text contain what the pattern describes? */
  method Match(re: CString, text: CString) returns (r: bool)
    ensures r <==> Found(re, text)
  {
    if re != "" && re[0] == '^' {
      r := MatchHere(re[1..], text);
      return;
    }
    var i := 0;
    while true
      invariant 0 <= i <= |text|
      invariant forall j :: 0 <= j < i ==> !Begins(Parse(re), text[j..])
      decreases |text| - i
    {
      r := MatchHere(re, text[i..]);
      if r || i == |text| {
        break;
      }
      i := i + 1;
    }
  }
}
