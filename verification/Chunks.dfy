/** The mathematics behind the buddy allocator: sets of naturally aligned
    power-of-two chunks of the block range [0, 2^k).  A good set has no overlap
    and no two free buddies; such a set is determined by the blocks it covers. */
module Chunks {
  import opened Bits

  datatype Chunk = Chunk(order: nat, start: nat)

  predicate InChunk(x: int, c: Chunk) {
    c.start <= x < c.start + Pow2(c.order)
  }

  /** A naturally aligned chunk of the region of `2^k` blocks. */
  predicate Fits(c: Chunk, k: nat) {
    c.order <= k && Aligned(c.start, c.order) && c.start + Pow2(c.order) <= Pow2(k)
  }

  function Run(c: Chunk): (r: set<int>) {
    set x | c.start <= x < c.start + Pow2(c.order) && InChunk(x, c)
  }

  ghost predicate Covers(C: set<Chunk>, x: int) {
    exists c :: c in C && InChunk(x, c)
  }

  /** The blocks that belong to some chunk of `C`. */
  ghost function Blocks(C: set<Chunk>, k: nat): set<int> {
    set x | 0 <= x < Pow2(k) && Covers(C, x)
  }

  function BuddyStart(c: Chunk): int {
    if Shr(c.start, c.order) % 2 == 0 then c.start + Pow2(c.order) else c.start - Pow2(c.order)
  }

  lemma BuddyFits(c: Chunk, k: nat)
    requires Fits(c, k) && c.order < k
    ensures BuddyStart(c) >= 0 && Fits(Chunk(c.order, BuddyStart(c)), k)
    ensures BuddyStart(Chunk(c.order, BuddyStart(c))) == c.start
  {
    AlignedUp(c.start, c.order);
    if Shr(c.start, c.order) % 2 == 0 {
      // The parent run is aligned and starts inside the region, so it ends inside it.
      ParentEnds(c.start, c.order + 1, k);
      Pow2Monotonic(c.order + 1, k);
    }
  }

  lemma {:induction false} ParentEnds(s: nat, o: nat, k: nat)
    requires o <= k && Aligned(s, o) && s < Pow2(k)
    ensures s + Pow2(o) <= Pow2(k)
    decreases o
  {
    if o != 0 {
      ParentEnds(s / 2, o - 1, k - 1);
    }
  }

  function Parent(c: Chunk, k: nat): (p: Chunk)
    requires Fits(c, k) && c.order < k
    ensures Fits(p, k) && p.order == c.order + 1 && BuddyStart(c) >= 0
    ensures forall x :: InChunk(x, p) <==> InChunk(x, c) || InChunk(x, Chunk(c.order, BuddyStart(c)))
  {
    AlignedUp(c.start, c.order);
    BuddyFits(c, k);
    if Shr(c.start, c.order) % 2 == 0 then Chunk(c.order + 1, c.start)
    else Chunk(c.order + 1, c.start - Pow2(c.order))
  }

  /** Two chunks that share a block are nested. */
  lemma Nested(c: Chunk, d: Chunk, x: nat)
    requires Aligned(c.start, c.order) && Aligned(d.start, d.order) && c.order <= d.order
    requires InChunk(x, c) && InChunk(x, d)
    ensures forall y :: InChunk(y, c) ==> InChunk(y, d)
    ensures c.order == d.order ==> c == d
  {
    AlignedRun(c.start, c.order, x);
    AlignedRun(d.start, d.order, x);
    forall y | InChunk(y, c) ensures InChunk(y, d) {
      AlignedRun(c.start, c.order, y);
      AlignedRun(d.start, d.order, y);
      ShrAgain(x, y, c.order, d.order);
    }
    if c.order == d.order {
      assert InChunk(c.start, c) && InChunk(c.start, d);
      AlignedRun(c.start, c.order, d.start);
    }
  }

  ghost predicate Disjoint(C: set<Chunk>) {
    forall c, d, x :: c in C && d in C && InChunk(x, c) && InChunk(x, d) ==> c == d
  }

  ghost predicate Tiling(C: set<Chunk>, k: nat) {
    && (forall c :: c in C ==> Fits(c, k))
    && Disjoint(C)
  }

  /** No chunk below the top order has its buddy in the set. */
  ghost predicate NoBuddies(C: set<Chunk>, k: nat) {
    forall c, d :: c in C && d in C && c.order == d.order && c.order < k ==> d.start != BuddyStart(c)
  }

  ghost predicate Good(C: set<Chunk>, k: nat) {
    Tiling(C, k) && NoBuddies(C, k)
  }

  /** A wholly free aligned run lies inside one chunk of a good set. */
  lemma {:induction false} RunInChunk(C: set<Chunk>, k: nat, r: Chunk) returns (c: Chunk)
    requires Good(C, k) && Fits(r, k) && Run(r) <= Blocks(C, k)
    ensures c in C && c.order >= r.order && forall y :: InChunk(y, r) ==> InChunk(y, c)
    decreases r.order
  {
    assert r.start in Run(r);
    if r.order == 0 {
      c :| c in C && InChunk(r.start, c);
    } else {
      AlignedHalves(r.start, r.order - 1);
      var left := Chunk(r.order - 1, r.start);
      var right := Chunk(r.order - 1, r.start + Pow2(r.order - 1));
      assert Run(left) <= Run(r) && Run(right) <= Run(r);
      c := RunInChunk(C, k, left);
      assert InChunk(left.start, left);
      if c.order >= r.order {
        Nested(r, c, r.start);
      } else {
        Nested(left, c, left.start);
        var d := RunInChunk(C, k, right);
        assert InChunk(right.start, right);
        assert BuddyStart(left) == right.start;
        if d.order < r.order {
          Nested(right, d, right.start);
          assert false;
        }
        Nested(r, d, right.start);
        c := d;
      }
    }
  }

  /** `c` is an aligned run inside `F` that no larger aligned run inside `F` extends. */
  ghost predicate Maximal(c: Chunk, F: set<int>, k: nat) {
    && Fits(c, k) && Run(c) <= F
    && (c.order < k ==> !(Run(Parent(c, k)) <= F))
  }

  /** The maximal aligned decomposition of a set of blocks. */
  ghost function Canonical(F: set<int>, k: nat): set<Chunk> {
    set o, s | 0 <= o <= k && 0 <= s < Pow2(k) && Maximal(Chunk(o, s), F, k) :: Chunk(o, s)
  }

  lemma ChunkInBlocks(C: set<Chunk>, k: nat, c: Chunk)
    requires Tiling(C, k) && c in C
    ensures Run(c) <= Blocks(C, k)
  {
    forall x | x in Run(c) ensures x in Blocks(C, k) {
      assert InChunk(x, c);
    }
  }

  /** Canonical form: a good chunk set is the maximal aligned decomposition of
      the blocks it covers, so it is determined by them. */
  lemma GoodIsCanonical(C: set<Chunk>, k: nat)
    requires Good(C, k)
    ensures C == Canonical(Blocks(C, k), k)
  {
    var F := Blocks(C, k);
    forall c | c in C ensures c in Canonical(F, k) {
      ChunkInBlocks(C, k, c);
      if c.order < k {
        var p := Parent(c, k);
        assert InChunk(c.start, c) && InChunk(c.start, p);
        if Run(p) <= F {
          var d := RunInChunk(C, k, p);
          assert false;
        }
      }
      assert Maximal(Chunk(c.order, c.start), F, k);
    }
    forall c | c in Canonical(F, k) ensures c in C {
      var d := RunInChunk(C, k, c);
      assert InChunk(c.start, c) && InChunk(c.start, d);
      if c.order < k {
        var p := Parent(c, k);
        assert InChunk(c.start, p);
        var y :| y in Run(p) && y !in F;
        assert InChunk(y, p);
        ChunkInBlocks(C, k, d);
        assert y !in Run(d) && !InChunk(y, d);
        if d.order > c.order {
          Nested(p, d, c.start);
          assert false;
        }
      }
      Nested(c, d, c.start);
    }
  }

  /** Only the single top chunk is a good set that covers the whole region. */
  lemma WholeRegion(C: set<Chunk>, k: nat)
    requires Good(C, k)
    ensures Blocks(C, k) == Run(Chunk(k, 0)) <==> C == {Chunk(k, 0)}
  {
    AlignedZero(k);
    var top := Chunk(k, 0);
    if Blocks(C, k) == Run(top) {
      var c := RunInChunk(C, k, top);
      assert InChunk(0, top);
      Nested(top, c, 0);
      forall d | d in C ensures d == top {
        assert InChunk(d.start, d) && InChunk(d.start, top);
      }
    } else if C == {top} {
      assert forall x :: InChunk(x, top) ==> Covers(C, x);
      assert false;
    }
  }

  lemma {:induction false} AlignedZero(o: nat)
    ensures Aligned(0, o)
  {
    if o != 0 {
      AlignedZero(o - 1);
    }
  }

  // ---- One chunk in hand: the state inside the splitting and merging loops ----

  /** `C` is good, `h` is held apart from it, and together they cover exactly `F`. */
  ghost predicate Holding(C: set<Chunk>, h: Chunk, F: set<int>, k: nat) {
    && Good(C, k) && Fits(h, k)
    && (forall c, x :: c in C && InChunk(x, c) ==> !InChunk(x, h))
    && F == Blocks(C, k) + Run(h)
  }

  lemma BlocksWithout(C: set<Chunk>, c: Chunk, k: nat)
    requires Tiling(C, k) && c in C
    ensures Blocks(C - {c}, k) == Blocks(C, k) - Run(c)
  {
    forall x | 0 <= x < Pow2(k)
      ensures x in Blocks(C - {c}, k) <==> x in Blocks(C, k) && x !in Run(c)
    {
      if x in Blocks(C, k) && x !in Run(c) {
        var d :| d in C && InChunk(x, d);
        assert d in C - {c};
      }
      if x in Blocks(C - {c}, k) {
        var d :| d in C - {c} && InChunk(x, d);
        assert d in C;
        assert x in Run(c) ==> InChunk(x, c);
      }
    }
  }

  lemma BlocksWith(C: set<Chunk>, c: Chunk, k: nat)
    requires Fits(c, k)
    ensures Blocks(C + {c}, k) == Blocks(C, k) + Run(c)
  {
    forall x | 0 <= x < Pow2(k)
      ensures x in Blocks(C + {c}, k) <==> x in Blocks(C, k) || x in Run(c)
    {
      if x in Blocks(C, k) {
        var d :| d in C && InChunk(x, d);
        assert d in C + {c};
      }
      if x in Run(c) {
        assert c in C + {c} && InChunk(x, c);
      }
    }
  }

  /** Taking a chunk off its free list. */
  lemma Take(C: set<Chunk>, c: Chunk, k: nat)
    requires Good(C, k) && c in C
    ensures Holding(C - {c}, c, Blocks(C, k), k)
  {
    BlocksWithout(C, c, k);
    ChunkInBlocks(C, k, c);
  }

  /** Splitting the chunk in hand and putting its upper half back. */
  lemma Split(C: set<Chunk>, h: Chunk, F: set<int>, k: nat) returns (low: Chunk, high: Chunk)
    requires Holding(C, h, F, k) && h.order > 0
    ensures low == Chunk(h.order - 1, h.start)
    ensures high == Chunk(h.order - 1, h.start + Pow2(h.order - 1))
    ensures high !in C && Holding(C + {high}, low, F, k)
    ensures Run(low) <= Run(h)
  {
    var o := h.order - 1;
    AlignedHalves(h.start, o);
    low, high := Chunk(o, h.start), Chunk(o, h.start + Pow2(o));
    assert forall x :: InChunk(x, h) <==> InChunk(x, low) || InChunk(x, high);
    assert InChunk(high.start, high) && InChunk(low.start, low);
    assert high !in C && low !in C;
    AlignedUp(low.start, o);
    assert BuddyStart(high) == low.start && BuddyStart(low) == high.start;
    BlocksWith(C, high, k);
    forall c | c in C && c.order == o ensures high.start != BuddyStart(c) {
      if o < k {
        BuddyFits(c, k);
      }
    }
  }

  /** Merging the chunk in hand with its free buddy. */
  lemma Merge(C: set<Chunk>, h: Chunk, F: set<int>, k: nat) returns (buddy: Chunk)
    requires Holding(C, h, F, k) && h.order < k
    requires BuddyStart(h) >= 0 && Chunk(h.order, BuddyStart(h)) in C
    ensures buddy == Chunk(h.order, BuddyStart(h))
    ensures Holding(C - {buddy}, Parent(h, k), F, k)
  {
    buddy := Chunk(h.order, BuddyStart(h));
    BlocksWithout(C, buddy, k);
    var p := Parent(h, k);
    ChunkInBlocks(C, k, buddy);
    assert Run(p) == Run(h) + Run(buddy) by {
      forall x ensures x in Run(p) <==> x in Run(h) || x in Run(buddy) {
        assert x in Run(p) <==> InChunk(x, p);
      }
    }
    assert F == Blocks(C - {buddy}, k) + Run(p);
  }

  /** Putting the chunk in hand on its free list, once its buddy is not free. */
  lemma Put(C: set<Chunk>, h: Chunk, F: set<int>, k: nat)
    requires Holding(C, h, F, k)
    requires h.order == k || BuddyStart(h) < 0 || Chunk(h.order, BuddyStart(h)) !in C
    ensures h !in C && Good(C + {h}, k) && Blocks(C + {h}, k) == F
  {
    assert InChunk(h.start, h);
    BlocksWith(C, h, k);
    forall c | c in C && c.order == h.order && h.order < k
      ensures h.start != BuddyStart(c) && c.start != BuddyStart(h)
    {
      BuddyFits(c, k);
      BuddyFits(h, k);
    }
    if h.order < k {
      AlignedUp(h.start, h.order);
    }
  }

  function Interval(s: int, n: nat): set<int> {
    set x | s <= x < s + n && Within(x, s, n)
  }

  predicate Within(x: int, s: int, n: nat) {
    s <= x < s + n
  }

  lemma {:induction false} IntervalSize(s: int, n: nat)
    ensures |Interval(s, n)| == n
  {
    if n == 0 {
      assert Interval(s, n) == {};
    } else {
      IntervalSize(s, n - 1);
      assert Interval(s, n) == Interval(s, n - 1) + {s + n - 1};
    }
  }

  lemma ChunkSize(c: Chunk)
    ensures |Run(c)| == Pow2(c.order)
  {
    IntervalSize(c.start, Pow2(c.order));
    assert Run(c) == Interval(c.start, Pow2(c.order));
  }
}
