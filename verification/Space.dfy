/** How far the free blocks of a volume let a write go, and what it leaves unlogged. */
module Space {
  import opened Common
  import opened Volume

  // ---- Counting ----

  ghost function FreeSet(bitmap: seq<bool>): set<int> {
    set b | 0 <= b < |bitmap| && !bitmap[b]
  }

  /** How many blocks are free. */
  ghost function Frees(v: Vol): nat {
    |FreeSet(v.bitmap)|
  }

  lemma NoFrees(v: Vol)
    requires forall b :: 0 <= b < |v.bitmap| ==> v.bitmap[b]
    ensures Frees(v) == 0
  {
    assert FreeSet(v.bitmap) == {};
  }

  lemma OneTaken(v: Vol, v': Vol, r: nat)
    requires r < |v.bitmap| && !v.bitmap[r] && v'.bitmap == v.bitmap[r := true]
    ensures Frees(v) == Frees(v') + 1
  {
    assert FreeSet(v.bitmap) == FreeSet(v'.bitmap) + {r};
  }

  ghost function Pointer(g: Geometry, v: Vol, x: nat): int
    requires Shaped(g, v) && x < |v.inodes|
  {
    v.inodes[x].addrs[NDIRECT]
  }

  /** The blocks that bmap takes for block number `n` of a file, if it is called for `a`, `a + 1` and so on. */
  ghost function Cost(g: Geometry, v: Vol, x: nat, a: nat, n: nat): nat
    requires Shaped(g, v) && x < |v.inodes| && n < MAXFILE
  {
    One(BlockOf(g, v, x, n) == 0) + One(Pointer(g, v, x) == 0 && n >= NDIRECT && (n == a || n == NDIRECT))
  }

  ghost function Need(g: Geometry, v: Vol, x: nat, a: nat, b: nat): nat
    requires Shaped(g, v) && x < |v.inodes| && a <= b <= MAXFILE
    decreases b - a
  {
    if a == b then 0 else Need(g, v, x, a, b - 1) + Cost(g, v, x, a, b - 1)
  }

  ghost predicate HasSpace(g: Geometry, v: Vol, x: nat, a: nat, b: nat)
    requires Shaped(g, v) && x < |v.inodes| && a <= b <= MAXFILE
  {
    Need(g, v, x, a, b) <= Frees(v)
  }

  lemma {:induction false} NeedGrows(g: Geometry, v: Vol, x: nat, a: nat, b: nat, c: nat)
    requires Shaped(g, v) && x < |v.inodes| && a <= b <= c <= MAXFILE
    ensures Need(g, v, x, a, b) <= Need(g, v, x, a, c)
    decreases c - b
  {
    if b < c {
      NeedGrows(g, v, x, a, b, c - 1);
    }
  }

  /** The block number at which bmap fails, or `b`. */
  ghost function Last(g: Geometry, v: Vol, x: nat, a: nat, b: nat): (c: nat)
    requires Shaped(g, v) && x < |v.inodes| && a <= b <= MAXFILE
    ensures a <= c <= b && HasSpace(g, v, x, a, c) && (c < b ==> !HasSpace(g, v, x, a, c + 1))
    decreases b - a
  {
    if a == b || HasSpace(g, v, x, a, b) then b else Last(g, v, x, a, b - 1)
  }

  lemma LastAtLeast(g: Geometry, v: Vol, x: nat, a: nat, b: nat, c: nat)
    requires Shaped(g, v) && x < |v.inodes| && a <= c <= b <= MAXFILE && HasSpace(g, v, x, a, c)
    ensures Last(g, v, x, a, b) >= c
  {
    var d := Last(g, v, x, a, b);
    var e := if d + 1 <= c then d + 1 else c;
    NeedGrows(g, v, x, a, e, c);
  }

  lemma LastAtMost(g: Geometry, v: Vol, x: nat, a: nat, b: nat, c: nat)
    requires Shaped(g, v) && x < |v.inodes| && a <= c < b <= MAXFILE && !HasSpace(g, v, x, a, c + 1)
    ensures Last(g, v, x, a, b) <= c
  {
    var d := Last(g, v, x, a, b);
    var e := if d >= c + 1 then d else c + 1;
    NeedGrows(g, v, x, a, c + 1, e);
  }

  // ---- Bytes ----

  /** The block number behind the first `n` bytes at `off`. */
  function Done(off: nat, n: nat): nat {
    if n == 0 then off / BSIZE else (off + n + BSIZE - 1) / BSIZE
  }

  /** A round starts at the beginning or at a block boundary. */
  predicate Edge(off: nat, tot: nat) {
    tot == 0 || (off + tot) % BSIZE == 0
  }

  /** How many of `n` bytes at `off` the disk has room for. */
  ghost function SpaceFor(g: Geometry, v: Vol, x: nat, off: nat, n: nat): (q: nat)
    requires Shaped(g, v) && x < |v.inodes| && off + n <= MAXFILE * BSIZE
    ensures q <= n
  {
    var c := Last(g, v, x, off / BSIZE, Done(off, n));
    if c * BSIZE >= off + n then n else if c * BSIZE <= off then 0 else c * BSIZE - off
  }

  lemma DoneBounds(off: nat, n: nat)
    requires off + n <= MAXFILE * BSIZE
    ensures off / BSIZE <= Done(off, n) <= MAXFILE && Done(off, n) * BSIZE < off + n + BSIZE
    ensures n > 0 ==> off / BSIZE < Done(off, n) && Done(off, n) * BSIZE >= off + n
  {
  }

  lemma DoneAtEdge(off: nat, tot: nat)
    requires Edge(off, tot)
    ensures Done(off, tot) == (off + tot) / BSIZE
  {
  }

  /** bmap fails in the round behind `tot` bytes. */
  lemma NoSpaceAt(g: Geometry, v: Vol, x: nat, off: nat, n: nat, tot: nat)
    requires Shaped(g, v) && x < |v.inodes| && off + n <= MAXFILE * BSIZE && tot < n && Edge(off, tot)
    requires off / BSIZE <= Done(off, tot) < MAXFILE && HasSpace(g, v, x, off / BSIZE, Done(off, tot))
    requires !HasSpace(g, v, x, off / BSIZE, Done(off, tot) + 1)
    ensures SpaceFor(g, v, x, off, n) == tot
  {
    var a, b, c := off / BSIZE, Done(off, n), Done(off, tot);
    DoneBounds(off, n);
    DoneAtEdge(off, tot);
    LastAtLeast(g, v, x, a, b, c);
    LastAtMost(g, v, x, a, b, c);
    if tot > 0 {
      assert c * BSIZE == off + tot;
    }
  }

  /** bmap has not failed for the first `m` bytes. */
  lemma SpaceUpTo(g: Geometry, v: Vol, x: nat, off: nat, n: nat, m: nat, c: nat)
    requires Shaped(g, v) && x < |v.inodes| && off + n <= MAXFILE * BSIZE && m <= n
    requires off / BSIZE <= c <= Done(off, n) && off + m <= c * BSIZE && c <= MAXFILE
             && HasSpace(g, v, x, off / BSIZE, c)
    ensures SpaceFor(g, v, x, off, n) >= m
  {
    LastAtLeast(g, v, x, off / BSIZE, Done(off, n), c);
  }

  /** Within one block there is room for everything or nothing, */
  lemma OneBlockSpace(g: Geometry, v: Vol, x: nat, off: nat, n: nat)
    requires Shaped(g, v) && x < |v.inodes| && n > 0 && off + n <= MAXFILE * BSIZE && off % BSIZE + n <= BSIZE
    ensures SpaceFor(g, v, x, off, n) in {0, n} && Done(off, n) == off / BSIZE + 1
  {
    assert off == off / BSIZE * BSIZE + off % BSIZE;
  }

  /** and for everything if the block is mapped. */
  lemma MappedSpace(g: Geometry, v: Vol, x: nat, off: nat, n: nat)
    requires Shaped(g, v) && x < |v.inodes| && n > 0 && off + n <= MAXFILE * BSIZE && off % BSIZE + n <= BSIZE
    requires off / BSIZE < MAXFILE && BlockOf(g, v, x, off / BSIZE) != 0
    ensures SpaceFor(g, v, x, off, n) == n
  {
    var a := off / BSIZE;
    OneBlockSpace(g, v, x, off, n);
    HeldPointer(g, v, x, a);
    LastAtLeast(g, v, x, a, a + 1, a + 1);
    assert (a + 1) * BSIZE >= off + n;
  }

  // ---- Where a write ends ----

  /** What complete rounds there are in the first `good` bytes at `off`. */
  function RoundsTo(off: nat, good: nat): (r: nat)
    ensures r <= good
  {
    var s := (off + good) / BSIZE * BSIZE;
    if s <= off then 0 else s - off
  }

  /** With room for `q` bytes and `good` bytes that can be read, `e` bytes reach the blocks and `r` are counted. */
  ghost predicate Ends(q: nat, good: nat, off: nat, r: nat, e: nat) {
    e == Min(good, q) && r == if good >= q then q else RoundsTo(off, good)
  }

  /** Bytes reach a block uncounted if and only if the first that cannot be read is not the first of all, does not
      begin a block, and there is room for it. */
  lemma Uncounted(q: nat, good: nat, off: nat, r: nat, e: nat)
    requires Ends(q, good, off, r, e)
    ensures e > r <==> 0 < good < q && (off + good) % BSIZE != 0
    ensures r <= e && (good < q ==> Edge(off, r))
  {
    if good < q {
      RoundsAre(off, good);
    }
  }

  lemma RoundsAre(off: nat, good: nat)
    ensures var r := RoundsTo(off, good);
            && Edge(off, r) && (r == good <==> good == 0 || (off + good) % BSIZE == 0)
            && (off + r) / BSIZE == (off + good) / BSIZE
  {
    var s := (off + good) / BSIZE;
    assert off + good == s * BSIZE + (off + good) % BSIZE;
    if s * BSIZE <= off {
      assert off / BSIZE == s;
    }
  }

  lemma RoundsIs(off: nat, good: nat, r: nat)
    requires r <= good && Edge(off, r) && (off + r) / BSIZE == (off + good) / BSIZE
    ensures RoundsTo(off, good) == r
  {
    var s := (off + good) / BSIZE;
    if r > 0 {
      assert off + r == s * BSIZE;
    } else {
      assert s * BSIZE <= off;
    }
  }

  // ---- A write so far ----

  /** Blocks `a` up to `c` of file `x` have been had, those behind are as in `w`. */
  ghost predicate Taken(g: Geometry, w: Vol, v: Vol, x: nat, a: nat, c: nat) {
    && Shaped(g, w) && Shaped(g, v) && x < |w.inodes| == |v.inodes| && a <= c <= MAXFILE
    && Frees(w) == Frees(v) + Need(g, w, x, a, c)
    && (forall n :: c <= n < MAXFILE ==> BlockOf(g, v, x, n) == BlockOf(g, w, x, n))
    && (Pointer(g, v, x) == 0 <==> Pointer(g, w, x) == 0 && !(c > a && c > NDIRECT))
  }

  /** What one bmap for block `n` may do. */
  ghost predicate Had(g: Geometry, u: Vol, v: Vol, x: nat, n: nat, found: bool)
  {
    && Shaped(g, u) && Shaped(g, v) && x < |u.inodes| == |v.inodes| && n < MAXFILE
    && Frees(u) == Frees(v) + One(BlockOf(g, u, x, n) == 0 && found) + One(Pointer(g, u, x) != Pointer(g, v, x))
    && (forall m :: 0 <= m < MAXFILE && m != n ==> BlockOf(g, v, x, m) == BlockOf(g, u, x, m))
    && Pointer(g, u, x) in {0, Pointer(g, v, x)} && (n < NDIRECT ==> Pointer(g, u, x) == Pointer(g, v, x))
    && (BlockOf(g, u, x, n) != 0 ==> found && Pointer(g, u, x) == Pointer(g, v, x))
    && (found && n >= NDIRECT ==> Pointer(g, v, x) != 0)
    && (!found ==> Frees(v) == 0)
  }

  lemma HadAlready(g: Geometry, v: Vol, x: nat, n: nat)
    requires Shaped(g, v) && x < |v.inodes| && n < MAXFILE && BlockOf(g, v, x, n) != 0
    ensures Had(g, v, v, x, n, true)
  {
  }

  lemma HadNone(g: Geometry, v: Vol, x: nat, n: nat)
    requires Shaped(g, v) && x < |v.inodes| && n < MAXFILE && BlockOf(g, v, x, n) == 0 && Frees(v) == 0
    ensures Had(g, v, v, x, n, false)
  {
  }

  lemma HadNew(g: Geometry, u: Vol, owner: map<int, Slot>, v: Vol, x: nat, n: nat, r: int)
    requires Shaped(g, u) && x < |u.inodes| && n < MAXFILE && BlockOf(g, u, x, n) == 0
    requires Allocated(g, u, owner, v, r, BlockSlot(x, n)) && Frees(u) == Frees(v) + 1
    requires Pointer(g, v, x) == Pointer(g, u, x) && (n >= NDIRECT ==> Pointer(g, u, x) != 0)
    ensures Had(g, u, v, x, n, true)
  {
    forall m | 0 <= m < MAXFILE && m != n ensures BlockOf(g, v, x, m) == BlockOf(g, u, x, m) {
      assert IsSlot(BlockSlot(x, m), |u.inodes|);
    }
  }

  /** A new indirect block comes first. */
  lemma HadBoth(g: Geometry, u: Vol, owner: map<int, Slot>, m: Vol, v: Vol, x: nat, n: nat, p: int, found: bool)
    requires Shaped(g, u) && x < |u.inodes| && NDIRECT <= n < MAXFILE && Pointer(g, u, x) == 0
    requires Allocated(g, u, owner, m, p, IndPtr(x)) && Frees(u) == Frees(m) + 1
    requires Had(g, m, v, x, n, found) && Pointer(g, m, x) == Pointer(g, v, x) == p
    ensures Had(g, u, v, x, n, found)
  {
    forall k | 0 <= k < MAXFILE ensures BlockOf(g, m, x, k) == BlockOf(g, u, x, k) {
      assert IsSlot(BlockSlot(x, k), |u.inodes|);
    }
  }

  lemma HadSame(g: Geometry, u: Vol, m: Vol, v: Vol, x: nat, n: nat, found: bool)
    requires Had(g, u, m, x, n, found) && Shaped(g, v) && v.bitmap == m.bitmap && v.inodes == m.inodes
             && SameAddrs(g, m, v, {})
    ensures Had(g, u, v, x, n, found)
  {
    forall k | 0 <= k < MAXFILE ensures BlockOf(g, v, x, k) == BlockOf(g, m, x, k) {
      assert IsSlot(BlockSlot(x, k), |m.inodes|);
    }
  }

  lemma TakenMore(g: Geometry, w: Vol, u: Vol, v: Vol, x: nat, a: nat, n: nat)
    requires Taken(g, w, u, x, a, n) && Had(g, u, v, x, n, true)
    ensures Taken(g, w, v, x, a, n + 1) && HasSpace(g, w, x, a, n + 1)
  {
  }

  lemma TakenNoMore(g: Geometry, w: Vol, u: Vol, v: Vol, x: nat, a: nat, n: nat)
    requires Taken(g, w, u, x, a, n) && Had(g, u, v, x, n, false)
    ensures HasSpace(g, w, x, a, n) && !HasSpace(g, w, x, a, n + 1) && BlockOf(g, u, x, n) == 0
  {
  }

  /** Only blocks before block number `c` of file `x` have been logged since `before`. */
  ghost predicate Fresh(g: Geometry, w: Vol, x: nat, c: nat, logged: set<int>, before: set<int>)
    requires Shaped(g, w) && x < |w.inodes|
  {
    forall n :: c <= n < MAXFILE && BlockOf(g, w, x, n) != 0 && BlockOf(g, w, x, n) in logged ==>
      BlockOf(g, w, x, n) in before
  }

  /** What a round for block `c` logs is not a later block of the file. */
  lemma FreshMore(g: Geometry, w: Vol, v: Vol, owner: map<int, Slot>, x: nat, c: nat, l: set<int>, l': set<int>,
                  before: set<int>, maps: set<int>)
    requires Shaped(g, w) && Shaped(g, v) && x < |w.inodes| == |v.inodes| && c < MAXFILE && Owned(g, v, owner, {}, {})
    requires Fresh(g, w, x, c, l, before) && (forall b :: b in maps ==> b < g.dataStart)
    requires forall n :: c < n < MAXFILE ==> BlockOf(g, v, x, n) == BlockOf(g, w, x, n)
    requires forall b :: b in l' ==> b in l || b in maps || b == BlockOf(g, v, x, c) || b == Pointer(g, v, x)
    ensures Fresh(g, w, x, c + 1, l', before)
  {
    forall n | c + 1 <= n < MAXFILE && BlockOf(g, w, x, n) != 0 && BlockOf(g, w, x, n) in l'
      ensures BlockOf(g, w, x, n) in before
    {
      SlotInRange(g, v, owner, {}, BlockSlot(x, n));
      assert Addr(g, v, IndPtr(x)) == Pointer(g, v, x);
      assert BlockSlot(x, n) != BlockSlot(x, c);
    }
  }

  /** The write so far: `tot` bytes at `off`. */
  ghost predicate Progress(g: Geometry, w: Vol, v: Vol, x: nat, off: nat, tot: nat, logged: set<int>,
                           before: set<int>) {
    && Taken(g, w, v, x, off / BSIZE, Done(off, tot))
    && Fresh(g, w, x, Done(off, tot), logged, before) && before <= logged
  }

  lemma NoProgress(g: Geometry, v: Vol, x: nat, off: nat, logged: set<int>)
    requires Shaped(g, v) && x < |v.inodes| && off <= MAXFILE * BSIZE
    ensures Progress(g, v, v, x, off, 0, logged, logged)
  {
  }

  /** A round of `k` bytes that gets its block. */
  lemma Progresses(g: Geometry, w: Vol, u: Vol, v: Vol, owner: map<int, Slot>, x: nat, off: nat, tot: nat, k: nat,
                   l: set<int>, l': set<int>, before: set<int>, maps: set<int>)
    requires Progress(g, w, u, x, off, tot, l, before) && off + tot < MAXFILE * BSIZE
             && Had(g, u, v, x, (off + tot) / BSIZE, true)
    requires Edge(off, tot) && k > 0 && (off + tot) % BSIZE + k <= BSIZE && Owned(g, v, owner, {}, {})
    requires l <= l' && (forall b :: b in maps ==> b < g.dataStart)
    requires forall b :: b in l' ==>
               b in l || b in maps || b == BlockOf(g, v, x, (off + tot) / BSIZE) || b == Pointer(g, v, x)
    ensures Progress(g, w, v, x, off, tot + k, l', before)
    ensures Done(off, tot + k) == (off + tot) / BSIZE + 1 && HasSpace(g, w, x, off / BSIZE, (off + tot) / BSIZE + 1)
  {
    hide Had, HasSpace, Fresh;
    var c := (off + tot) / BSIZE;
    DoneAtEdge(off, tot);
    DoneInBlock(off, tot, k);
    TakenMore(g, w, u, v, x, off / BSIZE, c);
    FreshMore(g, w, v, owner, x, c, l, l', before, maps);
  }

  lemma DoneInBlock(off: nat, tot: nat, k: nat)
    requires k > 0 && (off + tot) % BSIZE + k <= BSIZE
    ensures Done(off, tot + k) == (off + tot) / BSIZE + 1
  {
    var c := (off + tot) / BSIZE;
    assert off + tot == c * BSIZE + (off + tot) % BSIZE;
  }

  /** The new size changes neither slots nor bitmap. */
  lemma TakenExtended(g: Geometry, w: Vol, m: Vol, v: Vol, x: nat, off: nat, n: nat, r: int)
    requires Shaped(g, w) && Shaped(g, m) && Shaped(g, v) && x < |w.inodes| && |v.inodes| == |m.inodes|
             && off + n <= MAXFILE * BSIZE
    requires x < |m.inodes| && v.bitmap == m.bitmap && Pointer(g, v, x) == Pointer(g, m, x)
    requires forall k :: 0 <= k < MAXFILE ==> BlockOf(g, v, x, k) == BlockOf(g, m, x, k)
    requires r == n ==> Taken(g, w, m, x, off / BSIZE, Done(off, n))
    ensures r == n ==> Taken(g, w, v, x, off / BSIZE, Done(off, n))
  {
  }

  /** The block that a broken copy leaves changed and unlogged: it was mapped, and the transaction had not logged it. */
  ghost function StrayBlock(g: Geometry, w: Vol, x: nat, off: nat, good: nat, q: nat, before: set<int>): set<int>
    requires Shaped(g, w) && x < |w.inodes| && off + q <= MAXFILE * BSIZE
  {
    if 0 < good < q && (off + good) % BSIZE != 0 then
      var b := BlockOf(g, w, x, (off + good) / BSIZE);
      if b != 0 && b !in before then {b} else {}
    else {}
  }

  lemma NoStray(g: Geometry, w: Vol, x: nat, off: nat, good: nat, q: nat, before: set<int>)
    requires Shaped(g, w) && x < |w.inodes| && off + q <= MAXFILE * BSIZE && q <= good
    ensures StrayBlock(g, w, x, off, good, q, before) == {}
  {
  }

  /** Everything is written. */
  lemma EndsAll(g: Geometry, w: Vol, v: Vol, x: nat, off: nat, n: nat, good: nat, logged: set<int>, before: set<int>)
    requires off + n <= MAXFILE * BSIZE && Progress(g, w, v, x, off, n, logged, before) && n <= good
    ensures SpaceFor(g, w, x, off, n) == n && Ends(n, good, off, n, n)
            && StrayBlock(g, w, x, off, good, n, before) == {}
  {
    DoneBounds(off, n);
    if n > 0 {
      SpaceUpTo(g, w, x, off, n, n, Done(off, n));
    }
  }

  /** bmap fails. */
  lemma EndsFull(g: Geometry, w: Vol, u: Vol, v: Vol, x: nat, off: nat, n: nat, tot: nat, good: nat, l: set<int>,
                 before: set<int>)
    requires off + n <= MAXFILE * BSIZE && tot < n && tot <= good && Edge(off, tot)
    requires Progress(g, w, u, x, off, tot, l, before) && Had(g, u, v, x, (off + tot) / BSIZE, false)
    ensures var q := SpaceFor(g, w, x, off, n);
            && q == tot && Ends(q, good, off, tot, tot) && StrayBlock(g, w, x, off, good, q, before) == {}
            && BlockOf(g, u, x, (off + tot) / BSIZE) == 0
  {
    hide Had, HasSpace;
    DoneAtEdge(off, tot);
    TakenNoMore(g, w, u, v, x, off / BSIZE, (off + tot) / BSIZE);
    NoSpaceAt(g, w, x, off, n, tot);
  }

  /** The copy fails after `p` bytes of a round of `k`. */
  lemma EndsBroken(g: Geometry, w: Vol, u: Vol, v: Vol, x: nat, off: nat, n: nat, tot: nat, k: nat, good: nat,
                   l: set<int>, before: set<int>)
    requires off + n <= MAXFILE * BSIZE && tot < n && Edge(off, tot) && 0 < k <= n - tot && tot <= good < tot + k
    requires (off + tot) % BSIZE + k <= BSIZE
    requires Progress(g, w, u, x, off, tot, l, before) && Had(g, u, v, x, (off + tot) / BSIZE, true)
    ensures var q := SpaceFor(g, w, x, off, n);
            && Ends(q, good, off, tot, good)
            && var b := BlockOf(g, u, x, (off + tot) / BSIZE);
               StrayBlock(g, w, x, off, good, q, before) == if good > tot && b != 0 && b !in l then {b} else {}
  {
    hide Had, HasSpace, SpaceFor, RoundsTo, Edge;
    DoneAtEdge(off, tot);
    RoomThere(g, w, u, v, x, off, n, tot, k);
    SameBlock(off, tot, good, k);
    RoundsIs(off, good, tot);
    RoundsAre(off, good);
  }

  lemma RoomThere(g: Geometry, w: Vol, u: Vol, v: Vol, x: nat, off: nat, n: nat, tot: nat, k: nat)
    requires off + n <= MAXFILE * BSIZE && tot < n && Edge(off, tot) && 0 < k <= n - tot
             && (off + tot) % BSIZE + k <= BSIZE
    requires Taken(g, w, u, x, off / BSIZE, Done(off, tot)) && Had(g, u, v, x, (off + tot) / BSIZE, true)
    ensures SpaceFor(g, w, x, off, n) >= tot + k
  {
    hide Had, HasSpace, SpaceFor;
    var c := (off + tot) / BSIZE;
    DoneAtEdge(off, tot);
    TakenMore(g, w, u, v, x, off / BSIZE, c);
    DoneBounds(off, n);
    assert off + tot + k <= (c + 1) * BSIZE && c * BSIZE < off + n;
    SpaceUpTo(g, w, x, off, n, tot + k, c + 1);
  }

  lemma SameBlock(off: nat, tot: nat, good: nat, k: nat)
    requires tot <= good < tot + k && (off + tot) % BSIZE + k <= BSIZE
    ensures (off + good) / BSIZE == (off + tot) / BSIZE
  {
    assert off + tot == (off + tot) / BSIZE * BSIZE + (off + tot) % BSIZE;
  }

  // ---- One write after another ----

  lemma {:induction false} NeedSplits(g: Geometry, w: Vol, v: Vol, x: nat, off: nat, i: nat, c: nat)
    requires off + i <= MAXFILE * BSIZE && Done(off, i) <= c <= MAXFILE
    requires Taken(g, w, v, x, off / BSIZE, Done(off, i))
    requires i > 0 && (off + i) / BSIZE < MAXFILE && (off + i) % BSIZE != 0 ==> BlockOf(g, v, x, (off + i) / BSIZE) != 0
    ensures (off + i) / BSIZE <= c
    ensures Need(g, w, x, off / BSIZE, c)
         == Need(g, w, x, off / BSIZE, Done(off, i)) + Need(g, v, x, (off + i) / BSIZE, c)
    decreases c
  {
    var a, d, b := off / BSIZE, Done(off, i), (off + i) / BSIZE;
    DoneBounds(off, i);
    if c > d {
      NeedSplits(g, w, v, x, off, i, c - 1);
      SameCost(g, w, v, x, off, i, c - 1);
    } else if b < d {
      assert d == b + 1;
      HeldPointer(g, v, x, b);
    }
  }

  lemma HeldPointer(g: Geometry, v: Vol, x: nat, n: nat)
    requires Shaped(g, v) && x < |v.inodes| && n < MAXFILE && BlockOf(g, v, x, n) != 0
    ensures Cost(g, v, x, n, n) == 0
    ensures Need(g, v, x, n, n + 1) == 0
  {
    assert Need(g, v, x, n, n) == 0;
  }

  lemma SameCost(g: Geometry, w: Vol, v: Vol, x: nat, off: nat, i: nat, n: nat)
    requires off + i <= MAXFILE * BSIZE && Done(off, i) <= n < MAXFILE
    requires Taken(g, w, v, x, off / BSIZE, Done(off, i))
    ensures Cost(g, v, x, (off + i) / BSIZE, n) == Cost(g, w, x, off / BSIZE, n)
  {
    DoneBounds(off, i);
    assert (off + i) / BSIZE <= Done(off, i) <= (off + i) / BSIZE + 1;
  }

  /** Two writes in a row. */
  lemma TakenThen(g: Geometry, w: Vol, u: Vol, v: Vol, x: nat, off: nat, i: nat, n: nat)
    requires n > 0 && off + i + n <= MAXFILE * BSIZE
    requires Taken(g, w, u, x, off / BSIZE, Done(off, i)) && Taken(g, u, v, x, (off + i) / BSIZE, Done(off + i, n))
    requires i > 0 && (off + i) / BSIZE < MAXFILE && (off + i) % BSIZE != 0 ==> BlockOf(g, u, x, (off + i) / BSIZE) != 0
    ensures Taken(g, w, v, x, off / BSIZE, Done(off, i + n))
  {
    hide BlockOf;
    var c := Done(off + i, n);
    DoneBounds(off, i);
    DoneBounds(off + i, n);
    assert c == Done(off, i + n) && Done(off, i) <= c;
    NeedSplits(g, w, u, x, off, i, c);
  }

  lemma SpaceSplits(g: Geometry, w: Vol, v: Vol, x: nat, off: nat, i: nat, c: nat)
    requires off + i <= MAXFILE * BSIZE && Done(off, i) <= c <= MAXFILE
    requires Taken(g, w, v, x, off / BSIZE, Done(off, i))
    requires i > 0 && (off + i) / BSIZE < MAXFILE && (off + i) % BSIZE != 0 ==> BlockOf(g, v, x, (off + i) / BSIZE) != 0
    ensures (off + i) / BSIZE <= c
    ensures HasSpace(g, w, x, off / BSIZE, c) <==> HasSpace(g, v, x, (off + i) / BSIZE, c)
  {
    NeedSplits(g, w, v, x, off, i, c);
  }

  /** A write in two calls gets as far as one would: the second, of `n` bytes, starts `i` bytes further. */
  lemma SpaceNext(g: Geometry, w: Vol, v: Vol, x: nat, off: nat, i: nat, n: nat, all: nat)
    requires n > 0 && i + n <= all && off + all <= MAXFILE * BSIZE && Done(off, i) <= MAXFILE
    requires Taken(g, w, v, x, off / BSIZE, Done(off, i))
    requires i > 0 && (off + i) / BSIZE < MAXFILE && (off + i) % BSIZE != 0 ==> BlockOf(g, v, x, (off + i) / BSIZE) != 0
    ensures var q, p := SpaceFor(g, w, x, off, all), SpaceFor(g, v, x, off + i, n);
            if p == n then q >= i + n else q == i + p
  {
    hide HasSpace, Need, Edge, BlockOf;
    var pos, p, end := off + i, SpaceFor(g, v, x, off + i, n), Done(off + i, n);
    DoneBounds(off, i);
    DoneBounds(pos, n);
    DoneBounds(off, all);
    var c := Last(g, v, x, pos / BSIZE, end);
    FirstHad(g, v, x, off, i, end);
    SpaceSplits(g, w, v, x, off, i, c);
    if p == n {
      SpaceUpTo(g, w, x, off, all, i + n, c);
    } else {
      SpaceSplits(g, w, v, x, off, i, c + 1);
      EdgeThere(off, i, p, c);
      NoSpaceAt(g, w, x, off, all, i + p);
    }
  }

  lemma EdgeThere(off: nat, i: nat, p: nat, c: nat)
    requires c * BSIZE <= off + i ==> c == (off + i) / BSIZE && p == 0 && Edge(off, i)
    requires c * BSIZE > off + i ==> p == c * BSIZE - off - i
    ensures Edge(off, i + p) && Done(off, i + p) == c
  {
    DoneAtEdge(off, i + p);
  }

  /** A block that is entered in the middle is mapped, so bmap gets past it. */
  lemma FirstHad(g: Geometry, v: Vol, x: nat, off: nat, i: nat, end: nat)
    requires Shaped(g, v) && x < |v.inodes| && (off + i) / BSIZE < end <= MAXFILE && Done(off, i) <= end
    requires i > 0 && (off + i) % BSIZE != 0 ==> BlockOf(g, v, x, (off + i) / BSIZE) != 0
    ensures Last(g, v, x, (off + i) / BSIZE, end) >= Done(off, i)
    ensures Last(g, v, x, (off + i) / BSIZE, end) == (off + i) / BSIZE ==> Edge(off, i)
  {
    var b := (off + i) / BSIZE;
    if i > 0 && (off + i) % BSIZE != 0 {
      HeldPointer(g, v, x, b);
      LastAtLeast(g, v, x, b, end, b + 1);
    }
  }
}
