/** Sums over the values of a finite map. */
module Sums {

  ghost function Sum(w: map<int, int>): int
    decreases |w|
  {
    if exists x :: x in w then
      var x :| x in w;
      assert |w - {x}| < |w| by { assert (w - {x}).Keys == w.Keys - {x}; }
      w[x] + Sum(w - {x})
    else 0
  }

  lemma {:induction false} SumPick(w: map<int, int>, x: int)
    requires x in w
    ensures Sum(w) == w[x] + Sum(w - {x})
    decreases |w|
  {
    var y :| y in w && Sum(w) == w[y] + Sum(w - {y});
    if x != y {
      assert (w - {y}).Keys == w.Keys - {y} && (w - {x}).Keys == w.Keys - {x};
      SumPick(w - {y}, x);
      SumPick(w - {x}, y);
      assert w - {y} - {x} == w - {x} - {y};
    }
  }

  lemma SumAdd(w: map<int, int>, x: int, v: int)
    requires x !in w
    ensures Sum(w[x := v]) == Sum(w) + v && |w[x := v]| == |w| + 1
  {
    SumPick(w[x := v], x);
    assert w[x := v] - {x} == w;
    assert w[x := v].Keys == w.Keys + {x};
  }

  lemma SumUpdate(w: map<int, int>, x: int, v: int)
    requires x in w
    ensures Sum(w[x := v]) == Sum(w) - w[x] + v && |w[x := v]| == |w|
  {
    SumPick(w[x := v], x);
    SumPick(w, x);
    assert w[x := v] - {x} == w - {x};
    assert w[x := v].Keys == w.Keys;
  }

  lemma SumDrop(w: map<int, int>, x: int)
    requires x in w
    ensures Sum(w - {x}) == Sum(w) - w[x] && |w - {x}| == |w| - 1
  {
    SumPick(w, x);
    assert (w - {x}).Keys == w.Keys - {x};
  }

  lemma SumChanged(w: map<int, int>, w': map<int, int>, x: int, delta: int)
    requires w.Keys == w'.Keys && x in w && w'[x] == w[x] + delta
    requires forall y :: y in w && y != x ==> w'[y] == w[y]
    ensures Sum(w') == Sum(w) + delta
  {
    SumUpdate(w, x, w[x] + delta);
    var u := w[x := w[x] + delta];
    forall y | y in u ensures w'[y] == u[y] {
    }
    assert w' == u;
  }

  lemma SumExtended(w: map<int, int>, w': map<int, int>, x: int, v: int)
    requires w'.Keys == w.Keys + {x} && x !in w && w'[x] == v
    requires forall y :: y in w ==> w'[y] == w[y]
    ensures Sum(w') == Sum(w) + v
  {
    SumAdd(w, x, v);
    var u := w[x := v];
    assert u.Keys == w'.Keys;
    forall y | y in u ensures w'[y] == u[y] {
    }
    assert w' == u;
  }

  /** `n * size` as a repeated sum. */
  function Times(n: nat, size: nat): nat {
    if n == 0 then 0 else size + Times(n - 1, size)
  }

  lemma {:induction false} TimesIsProduct(n: nat, size: nat)
    ensures Times(n, size) == n * size
  {
    if n != 0 {
      TimesIsProduct(n - 1, size);
      assert n * size == (n - 1) * size + size;
    }
  }
}
