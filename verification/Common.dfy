/** Small notions that several modules share. */
module Common {

  /** The most blocks one file-system operation writes. */
  const MAXOPBLOCKS := 10

  type Bytes = seq<int>

  datatype Option<T> = None | Some(value: T)

  function One(b: bool): nat {
    if b then 1 else 0
  }

  function Min(a: int, b: int): int {
    if a < b then a else b
  }

  /** `c` with `data` in place at `o`. */
  function Spliced(c: Bytes, o: nat, data: Bytes): (r: Bytes)
    requires o + |data| <= |c|
    ensures |r| == |c|
  {
    c[..o] + data + c[o + |data|..]
  }

  predicate Distinct(s: seq<int>) {
    forall i, j :: 0 <= i < j < |s| ==> s[i] != s[j]
  }

  /** `s` without its entry at `i`. */
  function RemoveAt(s: seq<int>, i: nat): (t: seq<int>)
    requires i < |s|
    ensures |t| == |s| - 1
    ensures forall j {:trigger t[j]} :: 0 <= j < |t| ==> t[j] == if j < i then s[j] else s[j + 1]
  {
    s[..i] + s[i + 1..]
  }

  lemma RemoveAtMembers(s: seq<int>, i: nat)
    requires i < |s| && Distinct(s)
    ensures Distinct(RemoveAt(s, i))
    ensures forall y :: y in RemoveAt(s, i) <==> y in s && y != s[i]
  {
    var t := RemoveAt(s, i);
    forall y | y in s && y != s[i] ensures y in t {
      var j :| 0 <= j < |s| && s[j] == y;
      assert t[if j < i then j else j - 1] == y;
    }
    forall y | y in t ensures y in s && y != s[i] {
      var j :| 0 <= j < |t| && t[j] == y;
    }
  }

  lemma {:induction false} DistinctSetSize(s: seq<int>)
    requires Distinct(s)
    ensures |set b | b in s| == |s|
  {
    if s != [] {
      DistinctSetSize(s[1..]);
      assert (set b | b in s) == (set b | b in s[1..]) + {s[0]};
    }
  }

  lemma SubsetSize<T>(a: set<T>, b: set<T>)
    requires a <= b
    ensures |a| <= |b|
  {
    assert b == a + (b - a);
  }
}
