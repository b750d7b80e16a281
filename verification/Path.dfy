/** Path names: skipelem of kernel/fs.c, which moves a pointer along the path. */
module Path {
  import opened Common

  const SLASH := 47
  const DIRSIZ := 14

  /** What a directory keeps of a name. */
  function Key(name: Bytes): Bytes {
    if |name| <= DIRSIZ then name else name[..DIRSIZ]
  }

  function PastSlashes(p: Bytes, i: nat): (j: nat)
    requires i <= |p|
    ensures i <= j <= |p| && (j < |p| ==> p[j] != SLASH)
    decreases |p| - i
  {
    if i == |p| || p[i] != SLASH then i else PastSlashes(p, i + 1)
  }

  function ElementEnd(p: Bytes, i: nat): (j: nat)
    requires i <= |p|
    ensures i <= j <= |p| && (j < |p| ==> p[j] == SLASH) && (i < |p| && p[i] != SLASH ==> i < j)
    decreases |p| - i
  {
    if i == |p| || p[i] == SLASH then i else ElementEnd(p, i + 1)
  }

  /** The elements of a path from `i` on. */
  function Elements(p: Bytes, i: nat): (es: seq<Bytes>)
    requires i <= |p|
    decreases |p| - i
  {
    var s := PastSlashes(p, i);
    if s == |p| then [] else [p[s..ElementEnd(p, s)]] + Elements(p, ElementEnd(p, s))
  }

  lemma {:induction false} SlashesDoNotCount(p: Bytes, i: nat)
    requires i <= |p|
    ensures PastSlashes(p, PastSlashes(p, i)) == PastSlashes(p, i) && Elements(p, PastSlashes(p, i)) == Elements(p, i)
  {
  }

  /** skipelem: the next element, cut to DIRSIZ bytes; the pointer moves to the one after it. */
  method Skipelem(p: Bytes, i: nat) returns (found: bool, name: Bytes, next: nat)
    requires i <= |p|
    ensures next <= |p| && (found <==> Elements(p, i) != [])
    ensures found ==> next > i && name == Key(Elements(p, i)[0]) && Elements(p, next) == Elements(p, i)[1..]
    ensures found ==> (next == |p| <==> |Elements(p, i)| == 1)
    ensures found ==> forall k :: 0 <= k < |name| ==> name[k] in p
  {
    var s := Past(p, i);
    if s == |p| {
      return false, [], s;
    }
    var e := s;
    while e < |p| && p[e] != SLASH
      invariant s <= e <= |p| && ElementEnd(p, s) == ElementEnd(p, e)
    {
      e := e + 1;
    }
    assert e == ElementEnd(p, s);
    FirstElement(p, i);
    found, name := true, if e - s >= DIRSIZ then p[s..s + DIRSIZ] else p[s..e];
    assert name == Key(p[s..e]);
    next := Past(p, e);
    SlashesDoNotCount(p, e);
  }

  lemma FirstElement(p: Bytes, i: nat)
    requires i <= |p| && PastSlashes(p, i) < |p|
    ensures var s := PastSlashes(p, i);
            Elements(p, i) == [p[s..ElementEnd(p, s)]] + Elements(p, ElementEnd(p, s))
            && Elements(p, i)[1..] == Elements(p, ElementEnd(p, s))
  {
  }

  method Past(p: Bytes, i: nat) returns (s: nat)
    requires i <= |p|
    ensures s == PastSlashes(p, i)
  {
    s := i;
    while s < |p| && p[s] == SLASH
      invariant i <= s <= |p| && PastSlashes(p, i) == PastSlashes(p, s)
    {
      s := s + 1;
    }
  }

  // ---- Joining paths ----

  /** `q` is the part of `p` from `d` on. */
  ghost predicate TailOf(p: Bytes, d: nat, q: Bytes) {
    d <= |p| && p[d..] == q
  }

  lemma {:induction false} SlashesShifted(p: Bytes, d: nat, q: Bytes, i: nat)
    requires TailOf(p, d, q) && i <= |q|
    ensures PastSlashes(p, d + i) == d + PastSlashes(q, i)
    decreases |q| - i
  {
    if i < |q| {
      assert p[d..][i] == p[d + i];
      SlashesShifted(p, d, q, i + 1);
    }
  }

  lemma {:induction false} EndShifted(p: Bytes, d: nat, q: Bytes, i: nat)
    requires TailOf(p, d, q) && i <= |q|
    ensures ElementEnd(p, d + i) == d + ElementEnd(q, i)
    decreases |q| - i
  {
    if i < |q| {
      assert p[d..][i] == p[d + i];
      EndShifted(p, d, q, i + 1);
    }
  }

  lemma SliceOfTail(p: Bytes, d: nat, s: nat, e: nat)
    requires s <= e && d + e <= |p|
    ensures p[d..][s..e] == p[d + s..d + e]
  {
  }

  lemma {:induction false} ElementsShifted(p: Bytes, d: nat, q: Bytes, i: nat)
    requires TailOf(p, d, q) && i <= |q|
    ensures Elements(p, d + i) == Elements(q, i)
    decreases |q| - i
  {
    hide PastSlashes, ElementEnd;
    SlashesShifted(p, d, q, i);
    var s := PastSlashes(q, i);
    if s < |q| {
      EndShifted(p, d, q, s);
      var e := ElementEnd(q, s);
      SliceOfTail(p, d, s, e);
      ElementsShifted(p, d, q, e);
    }
  }

  lemma {:induction false} SlashesBefore(a: Bytes, rest: Bytes, i: nat)
    requires i <= |a| && rest != [] && rest[0] == SLASH
    ensures var s := PastSlashes(a, i);
            if s < |a| then PastSlashes(a + rest, i) == s else PastSlashes(a + rest, i) == PastSlashes(a + rest, |a|)
    decreases |a| - i
  {
    if i < |a| && a[i] == SLASH {
      SlashesBefore(a, rest, i + 1);
    }
  }

  lemma {:induction false} EndBefore(a: Bytes, rest: Bytes, i: nat)
    requires i <= |a| && rest != [] && rest[0] == SLASH
    ensures ElementEnd(a + rest, i) == ElementEnd(a, i)
    decreases |a| - i
  {
    if i < |a| && a[i] != SLASH {
      EndBefore(a, rest, i + 1);
    }
  }

  lemma SliceOfFront(a: Bytes, rest: Bytes, s: nat, e: nat)
    requires s <= e <= |a|
    ensures (a + rest)[s..e] == a[s..e]
  {
  }

  lemma Regrouped(x: Bytes, b: seq<Bytes>, c: seq<Bytes>)
    ensures [x] + (b + c) == [x] + b + c
  {
  }

  lemma {:induction false} ElementsBefore(a: Bytes, rest: Bytes, i: nat)
    requires i <= |a| && rest != [] && rest[0] == SLASH
    ensures Elements(a + rest, i) == Elements(a, i) + Elements(a + rest, |a|)
    decreases |a| - i
  {
    hide PastSlashes, ElementEnd;
    var p, s := a + rest, PastSlashes(a, i);
    SlashesBefore(a, rest, i);
    if s < |a| {
      EndBefore(a, rest, s);
      var e := ElementEnd(a, s);
      SliceOfFront(a, rest, s, e);
      ElementsBefore(a, rest, e);
      Regrouped(a[s..e], Elements(a, e), Elements(p, |a|));
    }
  }

  /** The elements of `a/b` are those of `a` and then those of `b`. */
  lemma JoinedElements(a: Bytes, b: Bytes)
    ensures Elements(a + [SLASH] + b, 0) == Elements(a, 0) + Elements(b, 0)
  {
    var rest := [SLASH] + b;
    var p := a + rest;
    assert a + [SLASH] + b == p;
    ElementsBefore(a, rest, 0);
    var d := |a| + 1;
    assert p[|a|] == SLASH && p[d..] == b;
    assert PastSlashes(p, |a|) == PastSlashes(p, d);
    ElementsShifted(p, d, b, 0);
    SlashesDoNotCount(p, |a|);
    SlashesDoNotCount(p, d);
  }

  // ---- How a path is spelled ----

  function Slashes(n: nat): (r: Bytes)
    ensures |r| == n && forall k :: 0 <= k < n ==> r[k] == SLASH
  {
    seq(n, _ => SLASH)
  }

  /** An element: at least one byte, and none of them a slash. */
  predicate IsElement(e: Bytes) {
    e != [] && SLASH !in e
  }

  /** The names with the given numbers of slashes before, between and behind them. */
  function Spelling(names: seq<Bytes>, gaps: seq<nat>): (p: Bytes)
    requires |gaps| == |names| + 1
    decreases |names|
  {
    Slashes(gaps[0]) + if names == [] then [] else names[0] + Spelling(names[1..], gaps[1..])
  }

  /** There is a slash between any two names. */
  predicate Spells(names: seq<Bytes>, gaps: seq<nat>) {
    && |gaps| == |names| + 1 && (forall i :: 0 <= i < |names| ==> IsElement(names[i]))
    && forall i :: 0 < i < |names| ==> gaps[i] > 0
  }

  lemma {:induction false} PastAll(p: Bytes, n: nat, i: nat)
    requires i <= n <= |p| && (forall k :: 0 <= k < n ==> p[k] == SLASH) && (n < |p| ==> p[n] != SLASH)
    ensures PastSlashes(p, i) == n
    decreases n - i
  {
    if i < n {
      PastAll(p, n, i + 1);
    }
  }

  lemma {:induction false} EndsAt(p: Bytes, i: nat, j: nat)
    requires i <= j <= |p| && (forall k :: i <= k < j ==> p[k] != SLASH) && (j < |p| ==> p[j] == SLASH)
    ensures ElementEnd(p, i) == j
    decreases j - i
  {
    if i < j {
      EndsAt(p, i + 1, j);
    }
  }

  /** The first name of a spelling. */
  lemma FirstSpelled(n: nat, name: Bytes, rest: Bytes)
    requires IsElement(name) && (rest != [] ==> rest[0] == SLASH)
    ensures Elements(Slashes(n) + (name + rest), 0) == [name] + Elements(rest, 0)
  {
    hide Elements;
    var p, e := Slashes(n) + (name + rest), n + |name|;
    assert forall k :: n <= k < e ==> p[k] == name[k - n];
    assert p[n] == name[0];
    PastAll(p, n, 0);
    EndsAt(p, n, e);
    FirstElement(p, 0);
    assert p[n..e] == name && p[e..] == rest;
    ElementsShifted(p, e, rest, 0);
  }

  /** However many slashes there are: the elements of a path are exactly the names that it is spelled with. */
  lemma {:induction false} SpelledElements(names: seq<Bytes>, gaps: seq<nat>)
    requires Spells(names, gaps)
    ensures Elements(Spelling(names, gaps), 0) == names
    decreases |names|
  {
    if names == [] {
      var p := Spelling(names, gaps);
      PastAll(p, |p|, 0);
    } else {
      var rest := Spelling(names[1..], gaps[1..]);
      SpelledElements(names[1..], gaps[1..]);
      assert |names| > 1 ==> gaps[1..][0] > 0;
      assert names == [names[0]] + names[1..];
      FirstSpelled(gaps[0], names[0], rest);
    }
  }

  lemma {:induction false} OnlySlashes(p: Bytes, i: nat)
    requires i <= |p|
    ensures p[i..PastSlashes(p, i)] == Slashes(PastSlashes(p, i) - i)
    decreases |p| - i
  {
    if i < |p| && p[i] == SLASH {
      OnlySlashes(p, i + 1);
      assert p[i..PastSlashes(p, i)] == [SLASH] + p[i + 1..PastSlashes(p, i)];
    }
  }

  lemma {:induction false} NoSlash(p: Bytes, i: nat)
    requires i <= |p|
    ensures SLASH !in p[i..ElementEnd(p, i)]
    decreases |p| - i
  {
    if i < |p| && p[i] != SLASH {
      NoSlash(p, i + 1);
      assert p[i..ElementEnd(p, i)] == [p[i]] + p[i + 1..ElementEnd(p, i)];
    }
  }

  /** And every path is spelled with its elements. */
  lemma {:induction false} EverySpelled(p: Bytes, i: nat) returns (gaps: seq<nat>)
    requires i <= |p|
    ensures Spells(Elements(p, i), gaps) && Spelling(Elements(p, i), gaps) == p[i..]
    ensures i < |p| && p[i] == SLASH ==> gaps[0] > 0
    decreases |p| - i
  {
    hide PastSlashes, ElementEnd;
    var s := PastSlashes(p, i);
    OnlySlashes(p, i);
    if s == |p| {
      gaps := [s - i];
    } else {
      var e := ElementEnd(p, s);
      var more := EverySpelled(p, e);
      gaps := [s - i] + more;
      NoSlash(p, s);
      FirstElement(p, i);
      var es := Elements(p, i);
      assert gaps[1..] == more && es[0] == p[s..e];
      assert p[i..] == p[i..s] + (p[s..e] + p[e..]);
    }
  }
}
