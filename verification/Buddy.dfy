/** The buddy allocator of kernel/buddy.c.  A pointer into the managed region is
    the index of its 4096-byte block (-1 for a null pointer), and the `next`
    word stored in a free block is an array entry, written in place. */
module Buddy {
  import opened Bits
  import opened Common
  import opened Chunks

  const MAX_ORDER := 15
  // The largest argument for which the 32-bit doubling in log2_ceil stops.
  const MAX_LOG_ARGUMENT := 0x4000_0000
  // current += n advances by n * sizeof(struct buddy_block) bytes.
  const SIZEOF_BUDDY_BLOCK := 8

  /** The least `r` with `x <= 2^r`. */
  function CeilLog2(x: int): (r: nat)
    ensures x <= Pow2(r) && (r > 0 ==> Pow2(r - 1) < x)
    decreases if x <= 1 then 0 else x
  {
    if x <= 1 then 0 else 1 + CeilLog2((x + 1) / 2)
  }

  lemma CeilLog2Unique(x: int, r: nat)
    requires x <= Pow2(r) && (r > 0 ==> Pow2(r - 1) < x)
    ensures r == CeilLog2(x)
  {
    var q := CeilLog2(x);
    if q < r {
      Pow2Monotonic(q, r - 1);
    } else if r < q {
      Pow2Monotonic(r, q - 1);
    }
  }

  /** The value of `power` after `i` doublings in a 32-bit int. */
  function Power32(i: nat): int {
    if i < 31 then Pow2(i) else if i == 31 then 0 - Pow2(31) else 0
  }

  /** The doubling loop of log2_ceil stops exactly for arguments up to 2^30. */
  lemma Log2CeilStops(x: int)
    ensures (exists i: nat :: Power32(i) >= x) <==> x <= MAX_LOG_ARGUMENT
  {
    assert Pow2(10) == 1024;
    assert Pow2(20) == 1024 * Pow2(10) && Pow2(30) == 1024 * Pow2(20);
    assert Power32(30) == Pow2(30);
    forall i: nat ensures Power32(i) <= Pow2(30) {
      if i < 31 {
        Pow2Monotonic(i, 30);
      }
    }
  }

  method Log2Ceil(x: int) returns (result: nat)
    requires x <= MAX_LOG_ARGUMENT
    ensures result == CeilLog2(x)
  {
    if x <= 1 {
      return 0;
    }
    result := 0;
    var power := 1;
    while power < x
      invariant power == Pow2(result) && (result > 0 ==> Pow2(result - 1) < x)
      decreases x - power
    {
      power := 2 * power;
      result := result + 1;
    }
    CeilLog2Unique(x, result);
  }

  function GetBuddy(block: nat, order: nat): nat {
    Xor(block, Pow2(order))
  }

  function GetParent(block: nat, order: nat): nat {
    AndNot(block, Pow2(order))
  }

  /** The xor and the mask compute the buddy and the parent of an aligned chunk. */
  lemma BuddyAndParent(c: Chunk, k: nat)
    requires Fits(c, k)
    ensures GetBuddy(c.start, c.order) == BuddyStart(c)
    ensures c.order < k ==> Parent(c, k) == Chunk(c.order + 1, GetParent(c.start, c.order))
  {
    XorPow2(c.start, c.order);
    AndNotPow2(c.start, c.order);
  }

  // ---- Placement of the initial chunks ----

  /** The chunks the initialisation loop creates, with the pointer step the code takes. */
  function Layout(remaining: nat, order: nat, current: nat): (l: seq<Chunk>)
    decreases remaining, order
  {
    if remaining == 0 then []
    else if order > 0 && Pow2(order) > remaining then Layout(remaining, order - 1, current)
    else if Pow2(order) > remaining then []
    else [Chunk(order, current)]
         + Layout(remaining - Pow2(order), order, current + SIZEOF_BUDDY_BLOCK * Pow2(order))
  }

  predicate IsPow2(n: nat) {
    n >= 1 && Pow2(CeilLog2(n)) == n
  }

  lemma LayoutNext(l: seq<Chunk>, remaining: nat, order: nat, current: nat)
    requires Pow2(order) <= remaining
    ensures l + Layout(remaining, order, current)
         == l + [Chunk(order, current)] + Layout(remaining - Pow2(order), order,
                    current + SIZEOF_BUDDY_BLOCK * Pow2(order))
  {
  }

  method InitLayout(blockNum: nat) returns (l: seq<Chunk>)
    requires 1 <= blockNum <= MAX_LOG_ARGUMENT
    ensures l == Layout(blockNum, CeilLog2(blockNum) + 1, 0)
  {
    var order := Log2Ceil(blockNum);
    order := order + 1;
    var remaining, current := blockNum, 0;
    l := [];
    while remaining > 0
      invariant 0 <= remaining && 0 <= order && 0 <= current
      invariant Layout(blockNum, CeilLog2(blockNum) + 1, 0) == l + Layout(remaining, order, current)
      decreases remaining
    {
      while Pow2(order) > remaining
        invariant 0 <= order
        invariant Layout(blockNum, CeilLog2(blockNum) + 1, 0) == l + Layout(remaining, order, current)
        decreases order
      {
        order := order - 1;
      }
      LayoutNext(l, remaining, order, current);
      l := l + [Chunk(order, current)];
      var size := Pow2(order);
      current := current + size * SIZEOF_BUDDY_BLOCK;
      remaining := remaining - size;
    }
  }

  lemma {:induction false} LayoutDrops(remaining: nat, order: nat, low: nat, current: nat)
    requires low <= order && 0 < remaining && Pow2(low) <= remaining < 2 * Pow2(low)
    ensures Layout(remaining, order, current) == Layout(remaining, low, current)
    decreases order
  {
    if low < order {
      Pow2Monotonic(low, order);
      LayoutDrops(remaining, order - 1, low, current);
    }
  }

  lemma {:induction false} LayoutStart(remaining: nat, order: nat, current: nat)
    requires 0 < remaining
    ensures |Layout(remaining, order, current)| > 0
    ensures Layout(remaining, order, current)[0].start == current
    decreases order
  {
    if order > 0 && Pow2(order) > remaining {
      LayoutStart(remaining, order - 1, current);
    }
  }

  /** The initial chunks stay inside the region exactly when the number of
      blocks is a power of two; then there is a single chunk, the whole region.
      For every other count the step, scaled by the size of a pointer, leaves it. */
  lemma LayoutInsideIffPow2(n: nat)
    requires n >= 1
    ensures var l := Layout(n, CeilLog2(n) + 1, 0);
            (forall c :: c in l ==> c.start + Pow2(c.order) <= n) <==> IsPow2(n)
    ensures IsPow2(n) ==> Layout(n, CeilLog2(n) + 1, 0) == [Chunk(CeilLog2(n), 0)]
  {
    var k := CeilLog2(n);
    if Pow2(k) == n {
      LayoutDrops(n, k + 1, k, 0);
    } else {
      LayoutDrops(n, k + 1, k - 1, 0);
      var rest := n - Pow2(k - 1);
      var start := SIZEOF_BUDDY_BLOCK * Pow2(k - 1);
      LayoutStart(rest, k - 1, start);
      var c := Layout(rest, k - 1, start)[0];
      assert c in Layout(n, k + 1, 0);
      assert c.start + Pow2(c.order) > n;
    }
  }

  /** Three blocks: the second chunk is put at block 16. */
  lemma ThreeBlocks()
    ensures Layout(3, CeilLog2(3) + 1, 0) == [Chunk(1, 0), Chunk(0, 16)]
  {
    assert Layout(3, 2, 0) == Layout(3, 1, 0);
    assert Layout(1, 1, 16) == Layout(1, 0, 16);
  }

  // ---- Linked free lists ----

  /** `head` begins the null-terminated list `s` threaded through `next`. */
  ghost predicate Linked(head: int, next: seq<int>, s: seq<nat>)
    decreases |s|
  {
    if s == [] then head == -1
    else head == s[0] && s[0] < |next| && Linked(next[s[0]], next, s[1..])
  }

  lemma {:induction false} LinkedFrame(head: int, next: seq<int>, next': seq<int>, s: seq<nat>)
    requires Linked(head, next, s) && |next| == |next'|
    requires forall b :: b in s && b < |next| ==> next'[b] == next[b]
    ensures Linked(head, next', s)
    decreases |s|
  {
    if s != [] {
      LinkedFrame(next[s[0]], next, next', s[1..]);
    }
  }

  /** Skipping the entry after position `i`. */
  lemma {:induction false} LinkedSkip(head: int, next: seq<int>, s: seq<nat>, i: nat)
    requires Linked(head, next, s) && Distinct(s) && i + 1 < |s|
    ensures s[i] < |next| && s[i + 1] < |next| && next[s[i]] == s[i + 1]
    ensures Linked(head, next[s[i] := next[s[i + 1]]], s[..i + 1] + s[i + 2..])
    decreases |s|
  {
    if i == 0 {
      var next' := next[s[0] := next[s[1]]];
      assert Linked(next[s[0]], next, s[1..]);
      assert Linked(next[s[1]], next, s[1..][1..]);
      assert s[1..][1..] == s[2..];
      LinkedFrame(next[s[1]], next, next', s[2..]);
      assert s[..1] + s[2..] == [s[0]] + s[2..];
    } else {
      LinkedSkip(next[s[0]], next, s[1..], i - 1);
      var t := s[..i + 1] + s[i + 2..];
      assert t[1..] == s[1..][..i] + s[1..][i + 1..];
    }
  }

  /** No block is linked twice, in one list or in two. */
  ghost predicate NoSharing(lists: seq<seq<nat>>) {
    && (forall o :: 0 <= o < |lists| ==> Distinct(lists[o]))
    && (forall o, p, b :: 0 <= o < p < |lists| && b in lists[o] ==> b !in lists[p])
  }

  ghost predicate AllLinked(heads: seq<int>, next: seq<int>, lists: seq<seq<nat>>) {
    && |heads| == |lists|
    && (forall o :: 0 <= o < |lists| ==> Linked(heads[o], next, lists[o]))
    && NoSharing(lists)
  }

  /** Writing the word of a block that is on no list disturbs no list. */
  lemma PushLinked(heads: seq<int>, next: seq<int>, lists: seq<seq<nat>>, order: nat, block: nat)
    requires AllLinked(heads, next, lists) && order < |lists| && block < |next|
    requires forall o :: 0 <= o < |lists| ==> block !in lists[o]
    ensures AllLinked(heads[order := block], next[block := heads[order]],
                      lists[order := [block] + lists[order]])
  {
    var next' := next[block := heads[order]];
    forall o | 0 <= o < |lists| ensures Linked(heads[o], next', lists[o]) {
      LinkedFrame(heads[o], next, next', lists[o]);
    }
    assert ([block] + lists[order])[1..] == lists[order];
  }

  /** Dropping the first entry of a list. */
  lemma PopLinked(heads: seq<int>, next: seq<int>, lists: seq<seq<nat>>, order: nat)
    requires AllLinked(heads, next, lists) && order < |lists| && lists[order] != []
    ensures heads[order] == lists[order][0] < |next|
    ensures AllLinked(heads[order := next[heads[order]]], next, lists[order := lists[order][1..]])
  {
    assert Linked(heads[order], next, lists[order]);
  }

  /** Skipping the entry after position `i` of a list. */
  lemma UnlinkLinked(heads: seq<int>, next: seq<int>, lists: seq<seq<nat>>, order: nat, i: nat)
    requires AllLinked(heads, next, lists) && order < |lists| && i + 1 < |lists[order]|
    ensures lists[order][i] < |next| && lists[order][i + 1] < |next|
    ensures AllLinked(heads, next[lists[order][i] := next[lists[order][i + 1]]],
                      lists[order := lists[order][..i + 1] + lists[order][i + 2..]])
  {
    var s := lists[order];
    LinkedSkip(heads[order], next, s, i);
    var next' := next[s[i] := next[s[i + 1]]];
    forall o | 0 <= o < |lists| && o != order ensures Linked(heads[o], next', lists[o]) {
      assert s[i] in s;
      LinkedFrame(heads[o], next, next', lists[o]);
    }
    var t := s[..i + 1] + s[i + 2..];
    assert forall b :: b in t ==> b in s;
  }

  /** List `s` without the block `b`, which occurs at most once. */
  ghost function Without(s: seq<nat>, b: nat): seq<nat> {
    if s == [] then [] else if s[0] == b then s[1..] else [s[0]] + Without(s[1..], b)
  }

  lemma {:induction false} WithoutAt(s: seq<nat>, i: nat)
    requires i < |s| && s[i] !in s[..i]
    ensures Without(s, s[i]) == s[..i] + s[i + 1..]
  {
    if i != 0 {
      assert s[1..][..i - 1] == s[..i][1..];
      WithoutAt(s[1..], i - 1);
      assert [s[0]] + (s[1..][..i - 1] + s[1..][i..]) == s[..i] + s[i + 1..];
    }
  }

  lemma {:induction false} WithoutAbsent(s: seq<nat>, b: nat)
    requires b !in s
    ensures Without(s, b) == s
  {
    if s != [] {
      WithoutAbsent(s[1..], b);
    }
  }

  ghost function ChunksOf(lists: seq<seq<nat>>): set<Chunk> {
    set o, b | 0 <= o < |lists| && b in lists[o] :: Chunk(o, b)
  }

  /** For a power of two the layout loop runs once. */
  method WholeChunk(blockNum: nat) returns (c: Chunk)
    requires IsPow2(blockNum) && blockNum <= 8192
    ensures c == Chunk(CeilLog2(blockNum), 0)
  {
    SmallOrder(blockNum);
    var layout := InitLayout(blockNum);
    LayoutInsideIffPow2(blockNum);
    c := layout[0];
  }

  lemma ChunksPush(lists: seq<seq<nat>>, order: nat, b: nat)
    requires order < |lists|
    ensures ChunksOf(lists[order := [b] + lists[order]]) == ChunksOf(lists) + {Chunk(order, b)}
  {
    var lists' := lists[order := [b] + lists[order]];
    assert b in lists'[order];
    forall c | c in ChunksOf(lists) ensures c in ChunksOf(lists') {
      assert c.start in lists'[c.order];
    }
  }

  lemma {:induction false} WithoutMembers(s: seq<nat>, b: nat)
    requires Distinct(s)
    ensures forall x :: x in Without(s, b) <==> x in s && x != b
  {
    if s != [] {
      if s[0] != b {
        WithoutMembers(s[1..], b);
      }
    }
  }

  lemma ChunksWithout(lists: seq<seq<nat>>, order: nat, b: nat)
    requires order < |lists| && Distinct(lists[order])
    ensures ChunksOf(lists[order := Without(lists[order], b)]) == ChunksOf(lists) - {Chunk(order, b)}
  {
    WithoutMembers(lists[order], b);
  }

  /** No block of a chunk held apart from the lists is on any of them. */
  lemma HandUnlinked(lists: seq<seq<nat>>, h: Chunk, F: set<int>, k: nat, x: nat)
    requires Holding(ChunksOf(lists), h, F, k) && InChunk(x, h)
    ensures forall o :: 0 <= o < |lists| ==> x !in lists[o]
  {
    forall o | 0 <= o < |lists| ensures x !in lists[o] {
      assert x in lists[o] ==> Chunk(o, x) in ChunksOf(lists);
      assert InChunk(x, Chunk(o, x));
    }
  }

  /** Some naturally aligned run of `2^o` blocks is wholly free. */
  ghost predicate HasRun(F: set<int>, o: nat, k: nat) {
    exists r: Chunk :: r.order == o && Fits(r, k) && Run(r) <= F
  }

  lemma NoRun(lists: seq<seq<nat>>, o: nat, k: nat)
    requires Good(ChunksOf(lists), k) && k < |lists|
    requires forall p :: o <= p <= k ==> lists[p] == []
    ensures !HasRun(Blocks(ChunksOf(lists), k), o, k)
  {
    var F := Blocks(ChunksOf(lists), k);
    forall r: Chunk | r.order == o && Fits(r, k) ensures !(Run(r) <= F) {
      if Run(r) <= F {
        var c := RunInChunk(ChunksOf(lists), k, r);
        assert false;
      }
    }
  }

  /** The beginning of a chunk on the first list that is not empty is a best fit. */
  lemma FirstFits(lists: seq<seq<nat>>, found: nat, order: nat, block: nat)
    requires order <= found < |lists| && block in lists[found] && forall o :: order <= o < found ==> lists[o] == []
    ensures BestFit(ChunksOf(lists), Chunk(order, block))
  {
    Pow2Monotonic(order, found);
    var c, d := Chunk(order, block), Chunk(found, block);
    assert d in ChunksOf(lists);
    assert SmallestAround(ChunksOf(lists), c, d);
  }

  /** What is left on the lists once a run has been split off. */
  lemma TookRun(F: set<int>, C: set<Chunk>, c: Chunk, k: nat)
    requires Holding(C, c, F, k)
    ensures Run(c) <= F && Blocks(C, k) == F - Run(c) && |Blocks(C, k)| == |F| - Pow2(c.order)
    ensures HasRun(F, c.order, k)
  {
    assert forall x :: x in Run(c) ==> InChunk(x, c);
    assert Blocks(C, k) !! Run(c);
    ChunkSize(c);
  }

  /** A run none of whose blocks is free can be taken in hand. */
  lemma ReturnRun(C: set<Chunk>, c: Chunk, k: nat)
    requires Good(C, k) && Fits(c, k) && Run(c) !! Blocks(C, k)
    ensures Holding(C, c, Blocks(C, k) + Run(c), k)
    ensures |Blocks(C, k) + Run(c)| == |Blocks(C, k)| + Pow2(c.order)
  {
    forall d, x | d in C && InChunk(x, d) ensures !InChunk(x, c) {
      ChunkInBlocks(C, k, d);
      assert x in Run(d);
    }
    ChunkSize(c);
  }

  /** The buddy of the whole region lies outside it. */
  lemma TopHasNoBuddy(C: set<Chunk>, h: Chunk, F: set<int>, k: nat)
    requires Holding(C, h, F, k) && BuddyStart(h) >= 0 && Chunk(h.order, BuddyStart(h)) in C
    ensures h.order < k
  {
    ShrZero(k);
  }

  lemma SmallOrder(n: int)
    requires n <= 8192
    ensures CeilLog2(n) <= 13 && n <= MAX_LOG_ARGUMENT
  {
    assert Pow2(13) == 8192;
    if CeilLog2(n) > 13 {
      Pow2Monotonic(13, CeilLog2(n) - 1);
      assert false;
    }
  }

  lemma EmptyLinked(heads: seq<int>, next: seq<int>, lists: seq<seq<nat>>)
    requires |heads| == |lists|
    requires forall o :: 0 <= o < |lists| ==> heads[o] == -1 && lists[o] == []
    ensures AllLinked(heads, next, lists)
  {
  }

  lemma OneChunk(lists: seq<seq<nat>>, order: nat)
    requires order < |lists| && lists[order] == [0]
    requires forall o :: 0 <= o < |lists| && o != order ==> lists[o] == []
    ensures ChunksOf(lists) == {Chunk(order, 0)}
  {
    assert 0 in lists[order];
  }

  lemma TopChunkGood(k: nat)
    ensures Good({Chunk(k, 0)}, k) && |Blocks({Chunk(k, 0)}, k)| == Pow2(k)
  {
    AlignedZero(k);
    WholeRegion({Chunk(k, 0)}, k);
    ChunkSize(Chunk(k, 0));
  }

  /** A larger aligned free run contains a smaller one. */
  lemma {:induction false} RunDown(F: set<int>, o: nat, p: nat, k: nat)
    requires o <= p
    ensures HasRun(F, p, k) ==> HasRun(F, o, k)
    decreases p - o
  {
    if o < p {
      if HasRun(F, p, k) {
        var r: Chunk :| r.order == p && Fits(r, k) && Run(r) <= F;
        AlignedHalves(r.start, p - 1);
        var h := Chunk(p - 1, r.start);
        assert Run(h) <= Run(r);
        assert HasRun(F, p - 1, k);
      }
      RunDown(F, o, p - 1, k);
    }
  }

  // ---- Whole runs of allocations and matching frees ----

  datatype Op = Taken(c: Chunk) | Returned(c: Chunk)

  /** Run `c` lies in a free chunk, one of the smallest that are large enough. */
  ghost predicate BestFit(C: set<Chunk>, c: Chunk) {
    exists d :: d in C && SmallestAround(C, c, d)
  }

  ghost predicate SmallestAround(C: set<Chunk>, c: Chunk, d: Chunk) {
    && c.order <= d.order && Run(c) <= Run(d)
    && forall e :: e in C && c.order <= e.order ==> d.order <= e.order
  }

  /** What one successful buddy_alloc or buddy_free does to the free chunks. */
  ghost predicate Step(C: set<Chunk>, op: Op, C': set<Chunk>, k: nat) {
    && Good(C', k) && Fits(op.c, k)
    && match op
       case Taken(c) => Run(c) <= Blocks(C, k) && Blocks(C', k) == Blocks(C, k) - Run(c) && BestFit(C, c)
       case Returned(c) => Run(c) !! Blocks(C, k) && Blocks(C', k) == Blocks(C, k) + Run(c)
  }

  /** Taking one block leaves an aligned run of `2^o` blocks exactly if there was one and one block more:
      the block comes out of a smallest chunk. */
  lemma RunLeft(C: set<Chunk>, c: Chunk, C': set<Chunk>, o: nat, k: nat)
    requires Good(C, k) && c.order == 0 && Step(C, Taken(c), C', k)
    ensures HasRun(Blocks(C', k), o, k) <==> HasRun(Blocks(C, k), o, k) && |Blocks(C, k)| > Pow2(o)
  {
    var F, F' := Blocks(C, k), Blocks(C', k);
    ChunkSize(c);
    if HasRun(F', o, k) {
      var r: Chunk :| r.order == o && Fits(r, k) && Run(r) <= F';
      assert Run(r) <= F;
      assert c.start in F && c.start !in Run(r) by { assert InChunk(c.start, c); }
      ChunkSize(r);
      Bigger(Run(r), F, c.start);
    }
    if HasRun(F, o, k) && |F| > Pow2(o) {
      var d :| d in C && SmallestAround(C, c, d);
      OtherRun(C, c, d, o, k);
      var r: Chunk :| r.order == o && Fits(r, k) && Run(r) <= F && Run(r) !! Run(c);
      assert Run(r) <= F';
    }
  }

  lemma Bigger(a: set<int>, b: set<int>, x: int)
    requires a <= b && x in b && x !in a
    ensures |a| < |b|
  {
    SubsetSize(a + {x}, b);
  }

  /** There is a run beside the block `c` that a smallest chunk `d` gives up. */
  lemma OtherRun(C: set<Chunk>, c: Chunk, d: Chunk, o: nat, k: nat)
    requires Good(C, k) && c.order == 0 && d in C && SmallestAround(C, c, d)
    requires HasRun(Blocks(C, k), o, k) && |Blocks(C, k)| > Pow2(o)
    ensures exists r: Chunk :: r.order == o && Fits(r, k) && Run(r) <= Blocks(C, k) && Run(r) !! Run(c)
  {
    var F := Blocks(C, k);
    var s: Chunk :| s.order == o && Fits(s, k) && Run(s) <= F;
    var e := RunInChunk(C, k, s);
    if e != d {
      assert Run(s) !! Run(c) by {
        forall x | x in Run(s) ensures x !in Run(c) {
          assert InChunk(x, s) && InChunk(x, e);
          assert x !in Run(d);
        }
      }
    } else if f :| f in C && f != d {
      WithinChunk(C, f, o, k);
      var r: Chunk :| r.order == o && Fits(r, k) && Run(r) <= Run(f) && Run(f) <= F;
      assert Run(r) !! Run(c) by {
        forall x | x in Run(r) ensures x !in Run(c) {
          assert InChunk(x, f);
          assert x !in Run(d);
        }
      }
    } else {
      OnlyChunk(C, d, k);
      HalfLeft(d, c, o, k);
    }
  }

  lemma WithinChunk(C: set<Chunk>, f: Chunk, o: nat, k: nat)
    requires Good(C, k) && f in C && o <= f.order
    ensures exists r: Chunk :: r.order == o && Fits(r, k) && Run(r) <= Run(f) && Run(f) <= Blocks(C, k)
  {
    ChunkInBlocks(C, k, f);
    assert HasRun(Run(f), f.order, k);
    RunDown(Run(f), o, f.order, k);
  }

  lemma OnlyChunk(C: set<Chunk>, d: Chunk, k: nat)
    requires Good(C, k) && d in C && forall f :: f in C ==> f == d
    ensures Blocks(C, k) == Run(d) && |Run(d)| == Pow2(d.order)
  {
    ChunkInBlocks(C, k, d);
    ChunkSize(d);
  }

  lemma HalfLeft(d: Chunk, c: Chunk, o: nat, k: nat)
    requires Fits(d, k) && c.order == 0 && Run(c) <= Run(d) && Pow2(d.order) > Pow2(o)
    ensures exists r: Chunk :: r.order == o && Fits(r, k) && Run(r) <= Run(d) && Run(r) !! Run(c)
  {
    if d.order <= o {
      Pow2Monotonic(d.order, o);
      assert false;
    }
    AlignedHalves(d.start, d.order - 1);
    var low, high := Chunk(d.order - 1, d.start), Chunk(d.order - 1, d.start + Pow2(d.order - 1));
    var h := if InChunk(c.start, low) then high else low;
    assert Run(h) <= Run(d) && Run(h) !! Run(c);
    assert HasRun(Run(h), h.order, k);
    RunDown(Run(h), o, h.order, k);
    var r: Chunk :| r.order == o && Fits(r, k) && Run(r) <= Run(h);
  }

  /** The chunks handed out and not yet given back. */
  ghost function Live(ops: seq<Op>): set<Chunk> {
    if ops == [] then {}
    else
      var before := Live(ops[..|ops| - 1]);
      match ops[|ops| - 1]
      case Taken(c) => before + {c}
      case Returned(c) => before - {c}
  }

  /** A run from the initial chunk. */
  ghost predicate IsRun(states: seq<set<Chunk>>, ops: seq<Op>, k: nat) {
    && |states| == |ops| + 1 && states[0] == {Chunk(k, 0)}
    && (forall i :: 0 <= i < |ops| ==> Step(states[i], ops[i], states[i + 1], k))
  }

  /** Every free gives back a chunk that an allocation handed out. */
  ghost predicate Matched(ops: seq<Op>) {
    forall i :: 0 <= i < |ops| && ops[i].Returned? ==> ops[i].c in Live(ops[..i])
  }

  lemma RunExtends(states: seq<set<Chunk>>, ops: seq<Op>, op: Op, C: set<Chunk>, k: nat)
    requires IsRun(states, ops, k) && Step(states[|ops|], op, C, k)
    ensures IsRun(states + [C], ops + [op], k)
  {
    var s, o := states + [C], ops + [op];
    forall i | 0 <= i < |o| ensures Step(s[i], o[i], s[i + 1], k) {
      if i < |ops| {
        assert Step(states[i], ops[i], states[i + 1], k);
      }
    }
  }

  /** The free chunks `C` cover exactly the blocks that no live chunk of `L` covers. */
  ghost predicate Accounts(C: set<Chunk>, L: set<Chunk>, k: nat) {
    && Good(C, k) && Tiling(L, k)
    && Blocks(C, k) == Run(Chunk(k, 0)) - Blocks(L, k)
  }

  lemma TakenAccounts(C: set<Chunk>, c: Chunk, C': set<Chunk>, L: set<Chunk>, k: nat)
    requires Accounts(C, L, k) && Step(C, Taken(c), C', k)
    ensures Accounts(C', L + {c}, k)
    ensures forall d, x :: d in L && InChunk(x, c) ==> !InChunk(x, d)
  {
    BlocksWith(L, c, k);
    forall d, x | d in L && InChunk(x, c) ensures !InChunk(x, d) {
      assert x in Run(c);
      ChunkInBlocks(L, k, d);
      assert x !in Run(d);
    }
  }

  lemma ReturnedAccounts(C: set<Chunk>, c: Chunk, L: set<Chunk>, k: nat)
    requires Accounts(C, L, k) && c in L
    ensures Fits(c, k) && Run(c) !! Blocks(C, k)
    ensures forall C' :: Step(C, Returned(c), C', k) ==> Accounts(C', L - {c}, k)
  {
    BlocksWithout(L, c, k);
    ChunkInBlocks(L, k, c);
    assert Run(c) <= Run(Chunk(k, 0));
  }

  /** After any run the free chunks are good and cover exactly the blocks that
      no live chunk covers. */
  lemma {:induction false} RunInvariant(states: seq<set<Chunk>>, ops: seq<Op>, k: nat)
    requires IsRun(states, ops, k) && Matched(ops)
    ensures Accounts(states[|ops|], Live(ops), k)
    decreases |ops|
  {
    var n := |ops|;
    if n == 0 {
      InitialAccounts(k);
    } else {
      var ops', states' := ops[..n - 1], states[..n];
      forall i | 0 <= i < |ops'| && ops'[i].Returned? ensures ops'[i].c in Live(ops'[..i]) {
        assert ops'[..i] == ops[..i];
      }
      RunInvariant(states', ops', k);
      assert Step(states[n - 1], ops[n - 1], states[n], k);
      match ops[n - 1]
      case Taken(c) => TakenAccounts(states[n - 1], c, states[n], Live(ops'), k);
      case Returned(c) => ReturnedAccounts(states[n - 1], c, Live(ops'), k);
    }
  }

  lemma InitialAccounts(k: nat)
    ensures Accounts({Chunk(k, 0)}, {}, k)
  {
    TopChunkGood(k);
    WholeRegion({Chunk(k, 0)}, k);
    assert Blocks({}, k) == {};
  }

  /** The chunk set depends only on what is live, not on the order of the
      operations that led there. */
  lemma RunsAgree(states: seq<set<Chunk>>, ops: seq<Op>, states': seq<set<Chunk>>, ops': seq<Op>, k: nat)
    requires IsRun(states, ops, k) && Matched(ops) && IsRun(states', ops', k) && Matched(ops')
    requires Live(ops) == Live(ops')
    ensures states[|ops|] == states'[|ops'|]
  {
    RunInvariant(states, ops, k);
    RunInvariant(states', ops', k);
    GoodIsCanonical(states[|ops|], k);
    GoodIsCanonical(states'[|ops'|], k);
  }

  /** Once everything has been given back, and only then, the free chunks are
      the single initial chunk again. */
  lemma FreeAllRestores(states: seq<set<Chunk>>, ops: seq<Op>, k: nat)
    requires IsRun(states, ops, k) && Matched(ops)
    ensures Live(ops) == {} <==> states[|ops|] == {Chunk(k, 0)}
  {
    RunInvariant(states, ops, k);
    WholeRegion(states[|ops|], k);
    forall c | c in Live(ops) ensures c.start in Blocks(Live(ops), k) && c.start in Run(Chunk(k, 0)) {
      assert InChunk(c.start, c);
      assert InChunk(c.start, Chunk(k, 0));
    }
    assert Live(ops) == {} ==> Blocks(Live(ops), k) == {};
  }

  /** What has been asked of an allocator, and its free chunks before, between and after. */
  datatype Past = Past(states: seq<set<Chunk>>, ops: seq<Op>)

  class BuddyAllocator {
    var maxOrder: nat
    const freeList: array<int>
    const next: array<int>
    var totalBlocks: nat
    var freeBlocks: int
    ghost var lists: seq<seq<nat>>
    ghost var past: Past

    /** The lists are well linked and share no block. */
    ghost predicate Shape()
      reads `lists, `maxOrder, `totalBlocks, freeList, next
    {
      && freeList.Length == MAX_ORDER == |lists|
      && 1 <= maxOrder < MAX_ORDER
      && next.Length == totalBlocks == Pow2(maxOrder - 1)
      && AllLinked(freeList[..], next[..], lists)
    }

    /** The order of the whole region. */
    ghost function TopOrder(): nat
      reads `maxOrder
    {
      if maxOrder == 0 then 0 else maxOrder - 1
    }

    ghost function FreeChunks(): set<Chunk>
      reads `lists
    {
      ChunksOf(lists)
    }

    /** The blocks on the free lists. */
    ghost function Free(): set<int>
      reads `lists, `maxOrder
    {
      Blocks(FreeChunks(), TopOrder())
    }

    ghost predicate Valid()
      reads this, freeList, next
    {
      && Shape()
      && Good(FreeChunks(), TopOrder())
      && freeBlocks == |Free()|
      && IsRun(past.states, past.ops, TopOrder()) && past.states[|past.ops|] == FreeChunks()
    }

    /** The free chunks are exactly what the chunks handed out and not given back leave over. */
    lemma Reached()
      requires Valid() && Matched(past.ops)
      ensures Accounts(FreeChunks(), Live(past.ops), TopOrder())
      ensures Live(past.ops) == {} <==> FreeChunks() == {Chunk(TopOrder(), 0)}
      ensures freeBlocks == totalBlocks - |Blocks(Live(past.ops), TopOrder())|
    {
      RunInvariant(past.states, past.ops, TopOrder());
      FreeAllRestores(past.states, past.ops, TopOrder());
      ghost var all, live := Run(Chunk(TopOrder(), 0)), Blocks(Live(past.ops), TopOrder());
      assert live <= all;
      assert all == (all - live) + live;
      ChunkSize(Chunk(TopOrder(), 0));
    }

    /** The region with all list heads cleared, before any chunk is added. */
    constructor (blockNum: nat)
      requires IsPow2(blockNum) && blockNum <= 8192
      ensures Shape() && totalBlocks == freeBlocks == blockNum && maxOrder == CeilLog2(blockNum) + 1
      ensures forall o :: 0 <= o < MAX_ORDER ==> lists[o] == []
      ensures fresh(freeList) && fresh(next)
    {
      SmallOrder(blockNum);
      var order := Log2Ceil(blockNum);
      maxOrder := order + 1;
      totalBlocks := blockNum;
      freeBlocks := blockNum;
      freeList := new int[MAX_ORDER](_ => -1);
      next := new int[blockNum](_ => 0);
      lists := seq(MAX_ORDER, _ => []);
      new;
      EmptyLinked(freeList[..], next[..], lists);
    }

    /** The placement loop of buddy_init, which runs once on a power of two. */
    method PlaceChunks()
      requires Shape() && freeBlocks == totalBlocks && totalBlocks <= 8192
      requires forall o :: 0 <= o < MAX_ORDER ==> lists[o] == []
      modifies `lists, `past, freeList, next
      ensures Valid() && FreeChunks() == {Chunk(TopOrder(), 0)} && past == Past([FreeChunks()], [])
    {
      CeilLog2Unique(totalBlocks, maxOrder - 1);
      var whole := WholeChunk(totalBlocks);
      AddToList(whole.start, whole.order);
      OneChunk(lists, whole.order);
      TopChunkGood(whole.order);
      assert FreeChunks() == {Chunk(TopOrder(), 0)};
      past := Past([FreeChunks()], []);
    }

    /** Notes a step in the history. */
    ghost method Note(op: Op, was: Past)
      requires Shape() && Good(FreeChunks(), TopOrder()) && freeBlocks == |Free()|
      requires IsRun(was.states, was.ops, TopOrder())
      requires Step(was.states[|was.ops|], op, FreeChunks(), TopOrder())
      modifies `past
      ensures Valid() && past.ops == was.ops + [op]
    {
      RunExtends(was.states, was.ops, op, FreeChunks(), TopOrder());
      past := Past(was.states + [FreeChunks()], was.ops + [op]);
    }

    method AddToList(block: nat, order: nat)
      requires Shape() && block < next.Length && order < MAX_ORDER
      requires forall o :: 0 <= o < MAX_ORDER ==> block !in lists[o]
      modifies `lists, freeList, next
      ensures Shape() && lists == old(lists)[order := [block] + old(lists)[order]]
    {
      PushLinked(freeList[..], next[..], lists, order, block);
      next[block] := freeList[order];
      freeList[order] := block;
      lists := lists[order := [block] + lists[order]];
      assert freeList[..] == old(freeList[..])[order := block];
      assert next[..] == old(next[..])[block := old(freeList[order])];
    }

    method RemoveFromList(block: nat, order: nat)
      requires Shape() && order < MAX_ORDER
      modifies `lists, freeList, next
      ensures Shape() && lists == old(lists)[order := Without(old(lists)[order], block)]
    {
      ghost var s := lists[order];
      assert Linked(freeList[..][order], next[..], s) && Distinct(s);
      assert next[..] == old(next[..]);
      var head := freeList[order];
      if head == block {
        PopLinked(freeList[..], next[..], lists, order);
        freeList[order] := next[block];
        lists := lists[order := s[1..]];
        assert freeList[..] == old(freeList[..])[order := old(next[block])];
        return;
      }
      var current := head;
      ghost var i := 0;
      while current != -1 && next[current] != block
        invariant 0 <= i <= |s|
        invariant Linked(current, next[..], s[i..])
        invariant block !in s[..i] && (i < |s| ==> s[i] != block)
        decreases |s| - i
      {
        assert s[i..][1..] == s[i + 1..];
        current := next[current];
        i := i + 1;
      }
      if current != -1 {
        assert s[i..][1..] == s[i + 1..];
        assert s[i + 1] == block;
        UnlinkLinked(freeList[..], next[..], lists, order, i);
        next[current] := next[block];
        lists := lists[order := s[..i + 1] + s[i + 2..]];
        assert next[..] == old(next[..])[s[i] := old(next[block])];
        WithoutAt(s, i + 1);
      } else {
        assert s[..i] == s;
        WithoutAbsent(s, block);
        assert lists[order := s] == lists;
      }
    }

    method IsBlockFree(block: int, order: int) returns (free: bool)
      requires Shape()
      ensures free <==> 0 <= order < maxOrder && block in lists[order]
    {
      if order < 0 || order >= maxOrder {
        return false;
      }
      ghost var s := lists[order];
      assert Linked(freeList[..][order], next[..], s);
      var node := freeList[order];
      ghost var i := 0;
      while node != -1
        invariant 0 <= i <= |s|
        invariant Linked(node, next[..], s[i..])
        invariant block !in s[..i]
        decreases |s| - i
      {
        if block == node {
          return true;
        }
        assert s[i..][1..] == s[i + 1..];
        node := next[node];
        i := i + 1;
      }
      assert s[..i] == s;
      return false;
    }

    /** Returns null exactly when no aligned run of the rounded size is wholly
        free; otherwise the returned run leaves the free set, and nothing else does. */
    method Alloc(numBlocks: int) returns (block: int)
      requires Valid() && numBlocks <= MAX_LOG_ARGUMENT
      modifies `lists, `freeBlocks, `past, freeList, next
      ensures Valid()
      ensures block == -1 <==> numBlocks < 1 || !HasRun(old(Free()), CeilLog2(numBlocks), TopOrder())
      ensures block == -1 ==> lists == old(lists) && freeBlocks == old(freeBlocks) && past == old(past)
      ensures block != -1 ==>
                block >= 0
                && Step(old(FreeChunks()), Taken(Chunk(CeilLog2(numBlocks), block)), FreeChunks(), TopOrder())
                && freeBlocks == old(freeBlocks) - Pow2(CeilLog2(numBlocks))
                && past.ops == old(past).ops + [Taken(Chunk(CeilLog2(numBlocks), block))]
    {
      if numBlocks < 1 {
        return -1;
      }
      var order := Log2Ceil(numBlocks);
      if order > maxOrder {
        NoRun(lists, order, TopOrder());
        return -1;
      }
      var found := FindOrder(order);
      if found > maxOrder {
        NoRun(lists, order, TopOrder());
        return -1;
      }
      block := TakeRun(found, order);
      freeBlocks := freeBlocks - Pow2(order);
      Note(Taken(Chunk(order, block)), past);
    }

    /** Splits a run of order `order` off the first chunk of order `found`. */
    method TakeRun(found: nat, order: nat) returns (block: nat)
      requires Valid() && order <= found <= maxOrder && lists[found] != []
      requires forall o :: order <= o < found ==> lists[o] == []
      modifies `lists, freeList, next
      ensures Shape() && Step(old(FreeChunks()), Taken(Chunk(order, block)), FreeChunks(), TopOrder())
      ensures |Free()| == |old(Free())| - Pow2(order) && HasRun(old(Free()), order, TopOrder())
    {
      block := TakeHead(found);
      FirstFits(old(lists), found, order, block);
      SplitTo(block, found, order, old(Free()));
      TookRun(old(Free()), FreeChunks(), Chunk(order, block), TopOrder());
    }

    method FindOrder(order: nat) returns (found: nat)
      requires Shape() && order <= maxOrder
      ensures order <= found <= maxOrder + 1
      ensures forall o :: order <= o < found ==> lists[o] == []
      ensures found <= maxOrder ==> lists[found] != []
    {
      found := order;
      while found <= maxOrder && freeList[found] == -1
        invariant order <= found <= maxOrder + 1
        invariant forall o :: order <= o < found ==> lists[o] == []
      {
        assert Linked(freeList[..][found], next[..], lists[found]);
        found := found + 1;
      }
      assert found <= maxOrder ==> Linked(freeList[..][found], next[..], lists[found]);
    }

    method TakeHead(found: nat) returns (block: nat)
      requires Valid() && found <= maxOrder && lists[found] != []
      modifies `lists, freeList, next
      ensures Shape() && Holding(FreeChunks(), Chunk(found, block), old(Free()), TopOrder())
      ensures block in old(lists)[found]
    {
      assert Linked(freeList[..][found], next[..], lists[found]);
      block := freeList[found];
      assert block in lists[found];
      Take(FreeChunks(), Chunk(found, block), TopOrder());
      ChunksWithout(lists, found, block);
      RemoveFromList(block, found);
    }

    /** The splitting loop of buddy_alloc. */
    method SplitTo(block: nat, found: nat, order: nat, ghost F: set<int>)
      requires Shape() && order <= found
      requires Holding(FreeChunks(), Chunk(found, block), F, TopOrder())
      modifies `lists, freeList, next
      ensures Shape() && Holding(FreeChunks(), Chunk(order, block), F, TopOrder())
    {
      var o := found;
      while o > order
        invariant order <= o <= found && Shape()
        invariant Holding(FreeChunks(), Chunk(o, block), F, TopOrder())
      {
        ghost var low, high := Split(FreeChunks(), Chunk(o, block), F, TopOrder());
        assert InChunk(high.start, high) && high.start < Pow2(TopOrder());
        HandUnlinked(lists, Chunk(o, block), F, TopOrder(), high.start);
        o := o - 1;
        ChunksPush(lists, o, high.start);
        AddToList(block + Pow2(o), o);
      }
    }

    /** Gives back an aligned run none of whose blocks is free.  Whatever merging
        that causes, the free set gains exactly that run. */
    method Release(ptr: int, numBlocks: int)
      requires Valid() && numBlocks <= MAX_LOG_ARGUMENT
      requires ptr != -1 && numBlocks >= 1 ==>
                 ptr >= 0 && Fits(Chunk(CeilLog2(numBlocks), ptr), TopOrder())
                 && Run(Chunk(CeilLog2(numBlocks), ptr)) !! Free()
      modifies `lists, `freeBlocks, `past, freeList, next
      ensures Valid()
      ensures ptr == -1 || numBlocks < 1 ==> lists == old(lists) && past == old(past)
      ensures ptr != -1 && numBlocks >= 1 ==>
                && Step(old(FreeChunks()), Returned(Chunk(CeilLog2(numBlocks), ptr)), FreeChunks(), TopOrder())
                && freeBlocks == old(freeBlocks) + Pow2(CeilLog2(numBlocks))
                && past.ops == old(past).ops + [Returned(Chunk(CeilLog2(numBlocks), ptr))]
    {
      if ptr == -1 || numBlocks < 1 {
        return;
      }
      var order := Log2Ceil(numBlocks);
      ghost var given, k := Chunk(order, ptr), TopOrder();
      ghost var F := Free() + Run(given);
      ReturnRun(FreeChunks(), given, k);
      var added := Pow2(order);
      var start;
      start, order := MergeUp(ptr, order, F);
      PutRun(start, order, F);
      freeBlocks := freeBlocks + added;
      Note(Returned(given), past);
    }

    /** Lists a run whose buddy is not free. */
    method PutRun(start: nat, order: nat, ghost F: set<int>)
      requires Shape() && Holding(FreeChunks(), Chunk(order, start), F, TopOrder())
      requires order == TopOrder() || GetBuddy(start, order) !in lists[order]
      modifies `lists, freeList, next
      ensures Shape() && Good(FreeChunks(), TopOrder()) && Free() == F
    {
      ghost var h, k := Chunk(order, start), TopOrder();
      HandUnlinked(lists, h, F, k, start);
      BuddyAndParent(h, k);
      Put(FreeChunks(), h, F, k);
      ChunksPush(lists, order, start);
      AddToList(start, order);
    }

    /** The merging loop of buddy_free. */
    method MergeUp(ptr: nat, from: nat, ghost F: set<int>) returns (start: nat, order: nat)
      requires Shape() && Holding(FreeChunks(), Chunk(from, ptr), F, TopOrder())
      modifies `lists, freeList, next
      ensures Shape() && Holding(FreeChunks(), Chunk(order, start), F, TopOrder())
      ensures order == TopOrder() || GetBuddy(start, order) !in lists[order]
    {
      ghost var k := TopOrder();
      start, order := ptr, from;
      while order < maxOrder
        invariant Shape() && order < maxOrder
        invariant Holding(FreeChunks(), Chunk(order, start), F, k)
        decreases maxOrder - order
      {
        BuddyAndParent(Chunk(order, start), k);
        var buddyStart := GetBuddy(start, order);
        var free := IsBlockFree(buddyStart, order);
        if !free {
          break;
        }
        assert Chunk(order, buddyStart) in FreeChunks();
        TopHasNoBuddy(FreeChunks(), Chunk(order, start), F, k);
        ghost var b := Merge(FreeChunks(), Chunk(order, start), F, k);
        ChunksWithout(lists, order, buddyStart);
        RemoveFromList(buddyStart, order);
        start := GetParent(start, order);
        order := order + 1;
      }
    }
  }

  /** Two allocators of the same region with the same live chunks have the same free chunks, whatever was asked of
      them before, and in whatever order. */
  lemma AllocatorsAgree(a: BuddyAllocator, b: BuddyAllocator)
    requires a.Valid() && b.Valid() && a.TopOrder() == b.TopOrder()
    requires Matched(a.past.ops) && Matched(b.past.ops) && Live(a.past.ops) == Live(b.past.ops)
    ensures a.FreeChunks() == b.FreeChunks() && a.freeBlocks == b.freeBlocks
  {
    RunsAgree(a.past.states, a.past.ops, b.past.states, b.past.ops, a.TopOrder());
  }
}
