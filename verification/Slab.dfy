/** The slab allocator of kernel/slab.c on top of the buddy allocator.  `mem`
    holds the records that the C code keeps inside the managed blocks, indexed by
    their place in memory; the operations rewrite it step by step. */
module Slab {
  import opened Bits
  import opened Common
  import opened Chunks
  import opened Buddy
  import opened Sums
  import opened SlabState
  import opened SlabInv

  const MIN_BUFFER_SIZE := 32
  const MAX_BUFFER_SIZE := 131072
  const NUM_BUFFER_CACHES := 13
  // The largest size kmalloc can serve: the next class needs more than a slab.
  const MAX_SERVED := 32768

  /** Rounds up to a size class 2^(i + 5). */
  method RoundUpPow2(size: nat) returns (power: nat, ghost i: nat)
    requires 1 <= size <= MAX_BUFFER_SIZE
    ensures power == Pow2(i + 5) && size <= power <= MAX_BUFFER_SIZE && i < NUM_BUFFER_CACHES
    ensures i > 0 ==> Pow2(i + 4) < size
  {
    power, i := MIN_BUFFER_SIZE, 0;
    assert Pow2(5) == 32;
    assert Pow2(8) == 256 && Pow2(16) == 256 * Pow2(8) && Pow2(17) == MAX_BUFFER_SIZE;
    while power < size && power <= MAX_BUFFER_SIZE
      invariant power == Pow2(i + 5) && i < NUM_BUFFER_CACHES && (i > 0 ==> Pow2(i + 4) < size)
      decreases NUM_BUFFER_CACHES - i
    {
      if i == 12 {
        assert false;
      }
      power := 2 * power;
      i := i + 1;
    }
    Pow2Monotonic(i + 5, 17);
  }

  method GetBufferCacheIndex(size: nat, ghost i: nat) returns (index: nat)
    requires size == Pow2(i + 5) && i < NUM_BUFFER_CACHES
    ensures index == i
  {
    index := 0;
    var power := MIN_BUFFER_SIZE;
    assert Pow2(5) == 32;
    while power < size && index < NUM_BUFFER_CACHES - 1
      invariant power == Pow2(index + 5) && index <= i
    {
      if index == i {
        assert false;
      }
      power := 2 * power;
      index := index + 1;
    }
    if index < i {
      Pow2Monotonic(index + 5, i + 5);
    }
  }

  method CalculateSlabSize(objectSize: nat) returns (blocks: nat)
    ensures IsSlabSize(objectSize, blocks)
  {
    blocks := 1;
    while blocks < 16
      invariant blocks in {1, 2, 4, 8, 16}
      invariant forall b :: b in {1, 2, 4, 8} && b < blocks ==> ObjectsPerSlab(objectSize, b * BLOCK_SIZE) < 8
      decreases 16 - blocks
    {
      if ObjectsPerSlab(objectSize, blocks * BLOCK_SIZE) >= 8 {
        break;
      }
      blocks := 2 * blocks;
    }
  }

  // ---- Lists ----

  method AddSlabToList(m: Mem, c: int, kind: Kind, x: int, ghost loose: set<int>) returns (m': Mem)
    requires Links(m.caches, m.slabs, m.lists, loose) && c in m.caches
    requires x in m.slabs && x >= 0 && m.slabs[x].cache == c && x in loose
    ensures Links(m'.caches, m'.slabs, m'.lists, loose - {x}) && SameBodies(m.slabs, m'.slabs)
    ensures m'.caches == m.caches[c := WithHead(m.caches[c], kind, x)] && SameCounts(m.caches, m'.caches)
    ensures m'.lists == m.lists[c := m.lists[c].With(kind, [x] + m.lists[c].On(kind))]
    ensures m'.objects == m.objects && m'.free == m.free
  {
    PushKeepsLinks(m.caches, m.slabs, m.lists, loose, c, kind, x);
    var head := Head(m.caches[c], kind);
    var slabs := m.slabs[x := m.slabs[x].(next := head, prev := -1)];
    if head != -1 {
      slabs := slabs[head := slabs[head].(prev := x)];
    }
    m' := m.(caches := m.caches[c := WithHead(m.caches[c], kind, x)], slabs := slabs,
             lists := m.lists[c := m.lists[c].With(kind, [x] + m.lists[c].On(kind))]);
  }

  method RemoveSlabFromList(m: Mem, c: int, kind: Kind, x: int, ghost i: nat, ghost loose: set<int>) returns (m': Mem)
    requires Links(m.caches, m.slabs, m.lists, loose) && c in m.caches
    requires i < |m.lists[c].On(kind)| && m.lists[c].On(kind)[i] == x
    ensures Links(m'.caches, m'.slabs, m'.lists, loose + {x}) && SameBodies(m.slabs, m'.slabs)
    ensures SameCounts(m.caches, m'.caches) && SameButHeads(m.caches, m'.caches)
    ensures m'.lists == m.lists[c := m.lists[c].With(kind, RemoveAt(m.lists[c].On(kind), i))]
    ensures m'.objects == m.objects && m'.free == m.free
  {
    RemoveKeepsLinks(m.caches, m.slabs, m.lists, loose, c, kind, i);
    RemovedHeads(m.caches, c, kind, m.slabs[x]);
    var slabs, caches := Unlink(m.slabs, m.caches, c, kind, x);
    m' := Mem(caches, slabs, m.objects, m.lists[c := m.lists[c].With(kind, RemoveAt(m.lists[c].On(kind), i))], m.free);
  }

  /** The pointer writes of remove_slab_from_list. */
  method Unlink(slabs: map<int, SlabState.Slab>, caches: map<int, Cache>, c: int, kind: Kind, x: int)
    returns (slabs': map<int, SlabState.Slab>, caches': map<int, Cache>)
    requires c in caches && x in slabs && (slabs[x].prev == -1 || slabs[x].prev in slabs)
    requires slabs[x].next == -1 || slabs[x].next in slabs
    ensures slabs' == Unlinked(slabs, x)
    ensures caches' == caches[c := Removed(caches[c], kind, slabs[x])]
  {
    slabs', caches' := slabs, caches;
    if slabs'[x].prev != -1 {
      slabs' := slabs'[slabs'[x].prev := slabs'[slabs'[x].prev].(next := slabs'[x].next)];
    } else {
      caches' := caches'[c := WithHead(caches'[c], kind, slabs'[x].next)];
    }
    if slabs'[x].next != -1 {
      slabs' := slabs'[slabs'[x].next := slabs'[slabs'[x].next].(prev := slabs'[x].prev)];
    }
    slabs' := slabs'[x := slabs'[x].(next := -1, prev := -1)];
  }

  /** Takes slab `x`, at the front of one list of its cache or anywhere on it,
      to the front of another. */
  method MoveSlab(m: Mem, c: int, from: Kind, to: Kind, x: int, ghost i: nat, ghost b: Bank) returns (m': Mem)
    requires Inv(m, {}, -1, b) && c in m.caches && from != to
    requires i < |m.lists[c].On(from)| && m.lists[c].On(from)[i] == x
    ensures Inv(m', {}, -1, b) && SameBodies(m.slabs, m'.slabs) && SameCounts(m.caches, m'.caches)
    ensures m'.objects == m.objects && m'.free == m.free
    ensures m'.lists == m.lists[c := m.lists[c].With(from, RemoveAt(m.lists[c].On(from), i))
                                               .With(to, [x] + m.lists[c].On(to))]
  {
    assert CacheLinks(c, m.caches[c], m.slabs, m.lists[c]);
    assert x in m.lists[c].On(from) && OnSome(m.lists[c], x);
    assert SlabOk(x, m.slabs[x], m.caches[c], m.objects, m.free[x]);
    var m1 := RemoveSlabFromList(m, c, from, x, i, {});
    InvRelinked(m, m1, {}, {x}, -1, b);
    MovedLists(m.lists, c, from, to, i);
    m' := AddSlabToList(m1, c, to, x, {x});
    InvRelinked(m1, m', {x}, {}, -1, b);
  }

  lemma MovedLists(lists: map<int, Lists>, c: int, from: Kind, to: Kind, i: nat)
    requires c in lists && from != to && i < |lists[c].On(from)|
    ensures var s := lists[c].On(from);
            var lists1 := lists[c := lists[c].With(from, RemoveAt(s, i))];
            && lists1[c].On(to) == lists[c].On(to)
            && lists1[c := lists1[c].With(to, [s[i]] + lists1[c].On(to))]
               == lists[c := lists[c].With(from, RemoveAt(s, i)).With(to, [s[i]] + lists[c].On(to))]
  {
  }

  // ---- Slabs ----

  /** Threads the free list through the `n` objects of a fresh slab. */
  method LinkObjects(objects: map<int, Object>, x: nat, n: nat, objectSize: nat)
    returns (objects': map<int, Object>, head: int, ghost fr: seq<int>)
    ensures |fr| == n && (forall j :: 0 <= j < n ==> fr[j] == ObjAddr(x, j, objectSize))
    ensures ObjList(head, objects', fr)
    ensures forall a :: a in objects && a !in fr ==> a in objects' && objects'[a] == objects[a]
  {
    objects', head, fr := objects, -1, [];
    var i := n;
    while i > 0
      invariant 0 <= i <= n && |fr| == n - i
      invariant forall j :: 0 <= j < |fr| ==> fr[j] == ObjAddr(x, i + j, objectSize)
      invariant ObjList(head, objects', fr)
      invariant forall a :: a in objects && a !in fr ==> a in objects' && objects'[a] == objects[a]
    {
      i := i - 1;
      var a := ObjAddr(x, i, objectSize);
      ghost var was, fr0 := objects', fr;
      objects' := objects'[a := Object(head, if a in objects' then objects'[a].slab else 0)];
      head, fr := a, [a] + fr;
      ObjListPush(was, fr0, x, i, objectSize, objects');
    }
  }

  lemma ObjListPush(objects: map<int, Object>, fr: seq<int>, x: nat, i: nat, objectSize: nat,
                    objects': map<int, Object>)
    requires forall j :: 0 <= j < |fr| ==> fr[j] == ObjAddr(x, i + 1 + j, objectSize)
    requires ObjList(At(fr, 0), objects, fr)
    requires var a := ObjAddr(x, i, objectSize);
             a in objects' && objects'[a].next == At(fr, 0) && objects' == objects[a := objects'[a]]
    ensures ObjList(ObjAddr(x, i, objectSize), objects', [ObjAddr(x, i, objectSize)] + fr)
    ensures ObjAddr(x, i, objectSize) !in fr
  {
    var a := ObjAddr(x, i, objectSize);
    var fr' := [a] + fr;
    forall j | 0 <= j < |fr| ensures fr[j] > a {
      MultiplesApart(i, i + 1 + j, objectSize + SIZEOF_OBJECT);
    }
    MultiplesApart(0, i + 1, objectSize + SIZEOF_OBJECT);
    forall j | 0 <= j < |fr'| ensures ObjNode(objects', fr', j) {
      if j > 0 {
        assert ObjNode(objects, fr, j - 1) && fr[j - 1] > a;
      }
    }
  }

  lemma FreshSlab(x: nat, sl: SlabState.Slab, ca: Cache, was: map<int, Object>, objects: map<int, Object>, fr: seq<int>)
    requires IsSlabSize(ca.objectSize, ca.slabSize)
    requires sl.numMax == sl.numFree == |fr| == ObjectsPerSlab(ca.objectSize, ca.slabSize * BLOCK_SIZE)
    requires forall j :: 0 <= j < |fr| ==> fr[j] == ObjAddr(x, j, ca.objectSize)
    requires ObjList(sl.freeList, objects, fr)
    requires forall a :: a in was && a !in fr ==> a in objects && objects[a] == was[a]
    ensures SlabOk(x, sl, ca, objects, fr)
    ensures OutsideKept(was, objects, Chunk(CeilLog2(ca.slabSize), x))
  {
    forall i | 0 <= i < sl.numMax ensures ObjectOk(x, i, ca.objectSize, objects, fr) {
      assert ObjNode(objects, fr, i) && fr[i] in fr;
    }
    SlabOrder(ca.objectSize, ca.slabSize);
    forall a | a in fr
      ensures IsObject(a, x, ca.objectSize, sl.numMax)
      ensures a >= 0 && InChunk(a / BLOCK_SIZE, Chunk(CeilLog2(ca.slabSize), x))
    {
      var i :| 0 <= i < |fr| && fr[i] == a;
      ObjectsApart(x, i, i + 1, ca.objectSize, ca.slabSize);
    }
  }

  /** The header and the objects kmem_slab_create writes into the run at `x`. */
  method InitSlab(objects: map<int, Object>, ca: Cache, c: int, x: nat)
    returns (objects': map<int, Object>, sl: SlabState.Slab, ghost fr: seq<int>)
    requires IsSlabSize(ca.objectSize, ca.slabSize)
    ensures SlabOk(x, sl, ca, objects', fr) && sl.numFree == sl.numMax && sl.cache == c
    ensures OutsideKept(objects, objects', Chunk(CeilLog2(ca.slabSize), x))
  {
    var n := ObjectsPerSlab(ca.objectSize, ca.slabSize * BLOCK_SIZE);
    var head;
    objects', head, fr := LinkObjects(objects, x, n, ca.objectSize);
    sl := SlabState.Slab(-1, -1, n, n, head, c);
    FreshSlab(x, sl, ca, objects, objects', fr);
  }

  /** Puts the new slab on the empty list. */
  method PlaceSlab(m: Mem, c: int, x: nat, ghost b: Bank) returns (m': Mem)
    requires Inv(m, {x}, -1, b) && c in m.caches && x in m.slabs && m.slabs[x].cache == c
    ensures Inv(m', {}, -1, b) && SameBodies(m.slabs, m'.slabs) && m'.free == m.free
    ensures m'.caches == m.caches[c := WithHead(m.caches[c], Empty, x)]
    ensures m'.lists == m.lists[c := m.lists[c].With(Empty, [x] + m.lists[c].On(Empty))]
  {
    m' := AddSlabToList(m, c, Empty, x, {x});
    InvRelinked(m, m', {x}, {}, -1, b);
  }

  /** What kmem_slab_create and kmem_cache_grow write once they have the run at `x`. */
  method InstallSlab(m: Mem, c: int, x: nat, ghost b: Bank, ghost b': Bank) returns (m': Mem)
    requires Inv(m, {}, -1, b) && c in m.caches
    requires Takes(b, Chunk(CeilLog2(m.caches[c].slabSize), x), b')
    ensures Inv(m', {}, -1, b') && Grew(m, m', c, x) && SameLiveObjects(m, m')
    ensures AllSorted(m) ==> AllSorted(m')
  {
    assert CacheOk(m, c, -1);
    var ca := m.caches[c];
    var objects, sl;
    ghost var fr;
    objects, sl, fr := InitSlab(m.objects, ca, c, x);
    InvSlabAdded(m, b, b', x, sl, objects, fr, Chunk(CeilLog2(ca.slabSize), x));
    var m1 := NewSlab(m, x, sl, objects, fr);
    m' := PlaceSlab(m1, c, x, b');
    InstalledGrew(m, m1, m', c, x, sl, objects, fr);
    assert SlabOk(x, m'.slabs[x], m'.caches[m'.slabs[x].cache], m'.objects, m'.free[x]);
    GrewLive(m, m', c, x);
    if AllSorted(m) {
      GrewSorted(m, m', c, x);
    }
  }

  lemma InstalledGrew(m: Mem, m1: Mem, m': Mem, c: int, x: int, sl: SlabState.Slab, objects: map<int, Object>,
                      fr: seq<int>)
    requires c in m.caches && c in m.lists && x !in m.slabs && m.free.Keys == m.slabs.Keys && m.caches[c].slabSize >= 1
    requires sl.cache == c && sl.numFree == sl.numMax
    requires sl.numMax == ObjectsPerSlab(m.caches[c].objectSize, m.caches[c].slabSize * BLOCK_SIZE)
    requires m1 == NewSlab(m, x, sl, objects, fr) && SameBodies(m1.slabs, m'.slabs) && m'.free == m1.free
    requires m'.caches == m1.caches[c := WithHead(m1.caches[c], Empty, x)]
    requires m'.lists == m1.lists[c := m1.lists[c].With(Empty, [x] + m1.lists[c].On(Empty))]
    ensures Grew(m, m', c, x)
  {
    forall y | y in m.slabs ensures SameBody(m.slabs[y], m'.slabs[y]) && m'.free[y] == m.free[y] {
    }
  }

  /** `m'` is `m` with one more slab, all of it free, at the front of the empty list of `c`. */
  ghost predicate Grew(m: Mem, m': Mem, c: int, x: int) {
    && c in m.caches && c in m'.caches && c in m.lists
    && x !in m.slabs && m'.slabs.Keys == m.slabs.Keys + {x} && m'.free.Keys == m.free.Keys + {x}
    && m'.slabs[x].cache == c && m'.slabs[x].numFree == m'.slabs[x].numMax
    && m.caches[c].slabSize >= 1
    && m'.slabs[x].numMax == ObjectsPerSlab(m.caches[c].objectSize, m.caches[c].slabSize * BLOCK_SIZE)
    && (forall y :: y in m.slabs ==>
          SameBody(m.slabs[y], m'.slabs[y]) && y in m.free && m'.free[y] == m.free[y])
    && m'.lists == m.lists[c := m.lists[c].(empty := [x] + m.lists[c].empty)]
    && m'.caches == m.caches[c := m'.caches[c]] && SameSizes(m.caches[c], m'.caches[c])
    && m'.caches[c].numGrown == m.caches[c].numGrown + 1 && m'.caches[c].errorState == m.caches[c].errorState
    && m'.caches[c].lastShrinkState == m.caches[c].lastShrinkState
  }

  predicate SameBody(sl: SlabState.Slab, sl': SlabState.Slab) {
    sl' == sl.(next := sl'.next, prev := sl'.prev)
  }

  // ---- One object in or out ----

  /** Sorted, leaving slab `x` aside. */
  ghost predicate SortedBut(slabs: map<int, SlabState.Slab>, l: Lists, x: int) {
    && (forall y :: y in l.empty && y in slabs && y != x ==> KindFits(slabs[y], Empty))
    && (forall y :: y in l.partial && y in slabs && y != x ==> KindFits(slabs[y], Partial))
    && (forall y :: y in l.full && y in slabs && y != x ==> KindFits(slabs[y], Full))
  }

  predicate KindFits(sl: SlabState.Slab, kind: Kind) {
    match kind
    case Empty => sl.numFree == sl.numMax
    case Partial => 0 < sl.numFree < sl.numMax
    case Full => 0 == sl.numFree < sl.numMax
  }

  ghost predicate AllSortedBut(m: Mem, x: int) {
    forall c :: c in m.lists ==> SortedBut(m.slabs, m.lists[c], x)
  }

  lemma SortedAside(m: Mem, m': Mem, x: int)
    requires AllSorted(m) && m'.lists == m.lists && m'.slabs.Keys == m.slabs.Keys
    requires forall y :: y in m.slabs && y != x ==> m'.slabs[y] == m.slabs[y]
    ensures AllSortedBut(m', x)
  {
    forall c | c in m'.lists ensures SortedBut(m'.slabs, m'.lists[c], x) {
      assert Sorted(m.slabs, m.lists[c]);
    }
  }

  lemma MoveSorted(m: Mem, m': Mem, c: int, from: Kind, to: Kind, i: nat, x: int)
    requires AllSortedBut(m, x) && SameBodies(m.slabs, m'.slabs) && from != to
    requires c in m.lists && i < |m.lists[c].On(from)| && m.lists[c].On(from)[i] == x
    requires m'.lists == m.lists[c := m.lists[c].With(from, RemoveAt(m.lists[c].On(from), i))
                                                .With(to, [x] + m.lists[c].On(to))]
    ensures AllSortedBut(m', x)
  {
    forall d | d in m'.lists ensures SortedBut(m'.slabs, m'.lists[d], x) {
      assert SortedBut(m.slabs, m.lists[d], x);
      if d == c {
        assert forall y :: y in RemoveAt(m.lists[c].On(from), i) ==> y in m.lists[c].On(from);
      }
    }
  }

  /** With slab `x` on the list its counter calls for, everything is sorted. */
  lemma SortedAgain(m: Mem, c: int, kind: Kind, x: int)
    requires AllSortedBut(m, x) && Links(m.caches, m.slabs, m.lists, {}) && c in m.caches
    requires x in m.lists[c].On(kind) && x in m.slabs && KindFits(m.slabs[x], kind)
    ensures AllSorted(m)
  {
    assert CacheLinks(c, m.caches[c], m.slabs, m.lists[c]) && OnSome(m.lists[c], x);
    forall d | d in m.lists ensures Sorted(m.slabs, m.lists[d]) {
      assert CacheLinks(d, m.caches[d], m.slabs, m.lists[d]) && SortedBut(m.slabs, m.lists[d], x);
      assert OnSome(m.lists[d], x) ==> d == c;
    }
  }

  /** Slab `x` has come to have one more live object, `a`; no other object changed hands. */
  ghost predicate Gained(m: Mem, m': Mem, a: int, x: int) {
    && SameExtents(m, m') && !IsLive(m, a, x)
    && forall b, y :: IsLive(m', b, y) <==> IsLive(m, b, y) || (b == a && y == x)
  }

  lemma GainedThenMoved(m: Mem, m1: Mem, m2: Mem, a: int, x: int)
    requires Gained(m, m1, a, x) && SameCounts(m1.caches, m2.caches) && SameBodies(m1.slabs, m2.slabs)
             && m2.free == m1.free
    ensures Gained(m, m2, a, x)
  {
    assert SameExtents(m1, m2);
    SameLive(m1, m2);
  }

  lemma LostThenMoved(m: Mem, m1: Mem, m2: Mem, a: int, x: int)
    requires Gained(m1, m, a, x) && SameCounts(m1.caches, m2.caches) && SameBodies(m1.slabs, m2.slabs)
             && m2.free == m1.free
    ensures Gained(m2, m, a, x)
  {
    assert SameExtents(m1, m2);
    SameLive(m1, m2);
  }

  /** The first free object of a slab, taken off its list. */
  method PopFree(m: Mem, x: int, ghost b: Bank) returns (m': Mem, a: int)
    requires Inv(m, {}, -1, b) && AllSorted(m) && x in m.slabs && m.slabs[x].numFree > 0
    ensures Inv(m', {}, -1, b) && Gained(m, m', a, x) && m'.lists == m.lists && AllSortedBut(m', x)
    ensures m'.slabs[x] == m.slabs[x].(freeList := m'.slabs[x].freeList, numFree := m.slabs[x].numFree - 1)
    ensures m.slabs[x].freeList == a >= 0
  {
    InvPopped(m, x, b);
    a := m.slabs[x].freeList;
    m' := Popped(m, x);
    PoppedFacts(m, x);
  }

  lemma PoppedFacts(m: Mem, x: int)
    requires x in m.slabs && m.slabs[x].numFree > 0 && m.slabs[x].cache in m.caches
    requires m.slabs[x].freeList in m.objects && x in m.free && m.free[x] != []
    requires m.slabs[x].freeList == m.free[x][0] && Distinct(m.free[x])
    requires IsObject(m.free[x][0], x, m.caches[m.slabs[x].cache].objectSize, m.slabs[x].numMax)
    ensures Gained(m, Popped(m, x), m.slabs[x].freeList, x)
    ensures AllSorted(m) ==> AllSortedBut(Popped(m, x), x)
    ensures var m' := Popped(m, x);
            && m'.lists == m.lists && x in m'.slabs
            && m'.slabs[x] == m.slabs[x].(freeList := m'.slabs[x].freeList, numFree := m.slabs[x].numFree - 1)
  {
    var m' := Popped(m, x);
    PoppedLive(m, m', m.slabs[x].freeList, x);
    if AllSorted(m) {
      SortedAside(m, m', x);
    }
  }

  /** The memory after the first free object of slab `x` has been handed out. */
  function Popped(m: Mem, x: int): Mem
    requires x in m.slabs && m.slabs[x].numFree > 0 && m.slabs[x].cache in m.caches
    requires m.slabs[x].freeList in m.objects && x in m.free && m.free[x] != []
  {
    var sl := m.slabs[x];
    WithSlab(m, x, sl.(freeList := m.objects[sl.freeList].next, numFree := sl.numFree - 1),
             sl.freeList, m.objects[sl.freeList].(slab := x), m.free[x][1..])
  }

  lemma InvPopped(m: Mem, x: int, b: Bank)
    requires Inv(m, {}, -1, b) && x in m.slabs && m.slabs[x].numFree > 0
    ensures m.slabs[x].freeList in m.objects && m.free[x] != [] && m.slabs[x].freeList == m.free[x][0] >= 0
    ensures IsObject(m.free[x][0], x, m.caches[m.slabs[x].cache].objectSize, m.slabs[x].numMax)
    ensures Distinct(m.free[x]) && Inv(Popped(m, x), {}, -1, b)
  {
    var sl, ca, fr := m.slabs[x], m.caches[m.slabs[x].cache], m.free[x];
    assert SlabOk(x, sl, ca, m.objects, fr);
    PopObject(x, sl, ca, m.objects, fr);
    var a := sl.freeList;
    assert a in fr && ObjNode(m.objects, fr, 0);
    InvOneSlab(m, {}, -1, b, x, sl.(freeList := m.objects[a].next, numFree := sl.numFree - 1), a,
               m.objects[a].(slab := x), fr[1..]);
  }

  lemma PoppedLive(m: Mem, m': Mem, a: int, x: int)
    requires x in m.slabs && m.slabs[x].cache in m.caches && SameExtents(m, m') && x in m.free
             && m'.free.Keys == m.free.Keys
    requires m.free[x] != [] && a == m.free[x][0] && Distinct(m.free[x]) && m'.free == m.free[x := m.free[x][1..]]
    requires IsObject(a, x, m.caches[m.slabs[x].cache].objectSize, m.slabs[x].numMax)
    ensures Gained(m, m', a, x)
  {
    var fr := m.free[x];
    assert forall b :: b in fr <==> b == a || b in fr[1..];
    assert a !in fr[1..];
  }

  /** The object handed out from slab `x`, and the slab moved to the list it now belongs on. */
  method TakeObject(m: Mem, c: int, kind: Kind, x: int, ghost b: Bank) returns (m': Mem, a: int)
    requires Inv(m, {}, -1, b) && AllSorted(m) && c in m.caches && kind != Full
    requires m.lists[c].On(kind) != [] && m.lists[c].On(kind)[0] == x && x in m.slabs && m.slabs[x].numFree > 0
    ensures Inv(m', {}, -1, b) && AllSorted(m') && Gained(m, m', a, x) && a >= 0 && m.slabs[x].cache == c
    ensures a == m.slabs[x].freeList
  {
    assert CacheLinks(c, m.caches[c], m.slabs, m.lists[c]) && x in m.lists[c].On(kind) && OnSome(m.lists[c], x);
    assert Sorted(m.slabs, m.lists[c]) && KindFits(m.slabs[x], kind);
    m', a := PopFree(m, x, b);
    ghost var at := kind;
    if m'.slabs[x].numFree == m'.slabs[x].numMax - 1 {
      var m1 := m';
      m' := MoveSlab(m1, c, Empty, Partial, x, 0, b);
      MoveSorted(m1, m', c, Empty, Partial, 0, x);
      GainedThenMoved(m, m1, m', a, x);
      at := Partial;
    }
    if m'.slabs[x].numFree == 0 {
      var m1 := m';
      m' := MoveSlab(m1, c, Partial, Full, x, 0, b);
      MoveSorted(m1, m', c, Partial, Full, 0, x);
      GainedThenMoved(m, m1, m', a, x);
      at := Full;
    }
    SortedAgain(m', c, at, x);
  }

  /** A slab is on the list its counter calls for. */
  lemma Place(m: Mem, x: int, kind: Kind) returns (i: nat)
    requires Links(m.caches, m.slabs, m.lists, {}) && AllSorted(m) && x in m.slabs && KindFits(m.slabs[x], kind)
    ensures i < |m.lists[m.slabs[x].cache].On(kind)| && m.lists[m.slabs[x].cache].On(kind)[i] == x
  {
    var c := m.slabs[x].cache;
    assert OnSome(m.lists[c], x) && Sorted(m.slabs, m.lists[c]);
    assert x in m.lists[c].On(kind);
    i :| 0 <= i < |m.lists[c].On(kind)| && m.lists[c].On(kind)[i] == x;
  }

  /** The memory after object `a` has been put back on the free list of slab `x`. */
  function PutBack(m: Mem, x: int, a: int): Mem
    requires x in m.slabs && m.slabs[x].cache in m.caches && a in m.objects && x in m.free
  {
    var sl := m.slabs[x];
    WithSlab(m, x, sl.(freeList := a, numFree := sl.numFree + 1), a, m.objects[a].(next := sl.freeList),
             [a] + m.free[x])
  }

  lemma InvPutBack(m: Mem, x: int, a: int, b: Bank)
    requires Inv(m, {}, -1, b) && IsLive(m, a, x)
    ensures a in m.objects && m.objects[a].slab == x && Inv(PutBack(m, x, a), {}, -1, b)
    ensures m.slabs[x].numFree < m.slabs[x].numMax
  {
    var sl, ca, fr := m.slabs[x], m.caches[m.slabs[x].cache], m.free[x];
    LiveInside(m, {}, -1, a, x);
    assert SlabOk(x, sl, ca, m.objects, fr);
    PushObject(x, sl, ca, m.objects, fr, a);
    LiveObjectCounts(x, sl, ca, m.objects, fr, a);
    InvOneSlab(m, {}, -1, b, x, sl.(freeList := a, numFree := sl.numFree + 1), a,
               m.objects[a].(next := sl.freeList), [a] + fr);
  }

  lemma PutBackFacts(m: Mem, x: int, a: int)
    requires IsLive(m, a, x) && a in m.objects
    ensures Gained(PutBack(m, x, a), m, a, x)
    ensures AllSorted(m) ==> AllSortedBut(PutBack(m, x, a), x)
    ensures var m' := PutBack(m, x, a);
            && m'.lists == m.lists && x in m'.slabs
            && m'.slabs[x] == m.slabs[x].(freeList := a, numFree := m.slabs[x].numFree + 1)
  {
    var m' := PutBack(m, x, a);
    assert forall b :: b in m'.free[x] <==> b == a || b in m.free[x];
    if AllSorted(m) {
      SortedAside(m, m', x);
    }
  }

  /** Object `a` given back to slab `x`, and the slab moved to the list it now belongs on. */
  method GiveObject(m: Mem, x: int, a: int, ghost b: Bank) returns (m': Mem)
    requires Inv(m, {}, -1, b) && AllSorted(m) && IsLive(m, a, x)
    ensures Inv(m', {}, -1, b) && AllSorted(m') && Gained(m', m, a, x) && FreeFront(m', x, a)
  {
    var c := m.slabs[x].cache;
    InvPutBack(m, x, a, b);
    PutBackFacts(m, x, a);
    ghost var at := if m.slabs[x].numFree == 0 then Full else Partial;
    ghost var i := Place(m, x, at);
    m' := PutBack(m, x, a);
    if m'.slabs[x].numFree == 1 {
      var m1 := m';
      m' := MoveSlab(m1, c, Full, Partial, x, i, b);
      MoveSorted(m1, m', c, Full, Partial, i, x);
      LostThenMoved(m, m1, m', a, x);
      at, i := Partial, 0;
    }
    if m'.slabs[x].numFree == m'.slabs[x].numMax {
      var m1 := m';
      m' := MoveSlab(m1, c, Partial, Empty, x, i, b);
      MoveSorted(m1, m', c, Partial, Empty, i, x);
      LostThenMoved(m, m1, m', a, x);
      at, i := Empty, 0;
    }
    SortedAgain(m', c, at, x);
  }

  // ---- Giving slabs back ----

  /** `m` is `m0` once the first `j` slabs of one list of cache `c` are gone and,
      if they are being counted, its slab counter has gone down with them. */
  ghost predicate Drained(m0: Mem, m: Mem, c: int, kind: Kind, j: nat, counted: bool)
    requires c in m0.lists && c in m0.caches && j <= |m0.lists[c].On(kind)|
  {
    && m.lists == m0.lists[c := m0.lists[c].With(kind, m0.lists[c].On(kind)[j..])]
    && SlabsGone(m0, m, m0.lists[c].On(kind)[..j])
    && CachesDrained(m0.caches, m.caches, c, if counted then j else 0)
  }

  /** The slabs `gone` have left; the others are as they were but for their links. */
  ghost predicate SlabsGone(m0: Mem, m: Mem, gone: seq<int>) {
    && (forall y :: y in m.slabs <==> y in m0.slabs && y !in gone)
    && (forall y :: y in m.slabs && y in m0.slabs ==> SameBody(m0.slabs[y], m.slabs[y]))
    && (forall y :: y in m.slabs && y in m0.free ==> y in m.free && m.free[y] == m0.free[y])
  }

  ghost predicate CachesDrained(caches: map<int, Cache>, caches': map<int, Cache>, c: int, less: nat) {
    && caches'.Keys == caches.Keys
    && (forall e :: e in caches ==> DrainedCache(caches[e], caches'[e], if e == c then less else 0))
  }

  predicate DrainedCache(ca: Cache, ca': Cache, less: nat) {
    ca' == ca.(empty := ca'.empty, partial := ca'.partial, full := ca'.full, numSlabs := ca.numSlabs - less)
  }

  /** One more slab gone. */
  lemma DrainedStep(m0: Mem, m: Mem, m1: Mem, c: int, kind: Kind, j: nat, counted: bool, x: int)
    requires c in m0.lists && c in m0.caches && j < |m0.lists[c].On(kind)| && Drained(m0, m, c, kind, j, counted)
    requires x == m0.lists[c].On(kind)[j] && x in m.slabs && m.slabs[x].cache == c
    requires SameBodies(m.slabs, m1.slabs) && m1.free == m.free && SameButHeads(m.caches, m1.caches)
    requires m.lists[c].On(kind) != []
    requires m1.lists == m.lists[c := m.lists[c].With(kind, RemoveAt(m.lists[c].On(kind), 0))]
    ensures x in m1.slabs && m1.slabs[x].cache == c && c in m1.caches
    ensures Drained(m0, LessSlab(m1, x, if counted then 1 else 0), c, kind, j + 1, counted)
  {
    var s := m0.lists[c].On(kind);
    DrainedLists(m0.lists, m.lists, c, kind, j);
    assert s[..j + 1] == s[..j] + [x];
    var m' := LessSlab(m1, x, if counted then 1 else 0);
    hide SlabsGone, SameBodies, SameBody;
    DrainedSlabs(m0, m, m1, m', s[..j], x);
    forall e | e in m'.caches
      ensures DrainedCache(m0.caches[e], m'.caches[e], if e == c && counted then j + 1 else 0)
    {
      assert DrainedCache(m0.caches[e], m.caches[e], if e == c then (if counted then j else 0) else 0);
    }
  }

  lemma DrainedLists(lists0: map<int, Lists>, lists: map<int, Lists>, c: int, kind: Kind, j: nat)
    requires c in lists0 && j < |lists0[c].On(kind)|
    requires lists == lists0[c := lists0[c].With(kind, lists0[c].On(kind)[j..])]
    ensures lists[c].On(kind) != []
    ensures lists[c := lists[c].With(kind, RemoveAt(lists[c].On(kind), 0))]
            == lists0[c := lists0[c].With(kind, lists0[c].On(kind)[j + 1..])]
  {
    var s := lists0[c].On(kind);
    assert lists[c].On(kind) == s[j..];
    assert RemoveAt(s[j..], 0) == s[j + 1..];
  }

  lemma DrainedSlabs(m0: Mem, m: Mem, m1: Mem, m': Mem, gone: seq<int>, x: int)
    requires SlabsGone(m0, m, gone) && x in m.slabs && SameBodies(m.slabs, m1.slabs) && m1.free == m.free
    requires m'.slabs == m1.slabs - {x} && m'.free == m1.free - {x}
    ensures SlabsGone(m0, m', gone + [x])
  {
    forall y ensures y in m'.slabs <==> y in m0.slabs && y !in gone + [x] {
      assert y in m'.slabs <==> y in m.slabs && y != x;
    }
  }

  /** Sortedness survives taking slabs away. */
  lemma LessSorted(m: Mem, m1: Mem, c: int, kind: Kind, drop: int, x: int)
    requires AllSorted(m) && SameBodies(m.slabs, m1.slabs) && c in m.lists && m.lists[c].On(kind) != []
    requires m1.lists == m.lists[c := m.lists[c].With(kind, RemoveAt(m.lists[c].On(kind), 0))]
    requires x in m1.slabs && m1.slabs[x].cache in m1.caches
    ensures AllSorted(LessSlab(m1, x, drop))
  {
    var m' := LessSlab(m1, x, drop);
    forall e | e in m'.lists ensures Sorted(m'.slabs, m'.lists[e]) {
      assert Sorted(m.slabs, m.lists[e]);
      if e == c {
        assert forall y :: y in RemoveAt(m.lists[c].On(kind), 0) ==> y in m.lists[c].On(kind);
      }
    }
  }

  // ---- What the operations promise about live objects ----

  /** The same objects are live, in the same slabs of the same caches. */
  ghost predicate SameLiveObjects(m: Mem, m': Mem) {
    && (forall a, x :: IsLive(m', a, x) <==> IsLive(m, a, x))
    && (forall x :: x in m.slabs && x in m'.slabs ==> m'.slabs[x].cache == m.slabs[x].cache)
  }

  /** One more object is live, in a slab of cache `c`: the one callers know as `objp`. */
  ghost predicate OneMore(m: Mem, m': Mem, objp: int, c: int) {
    exists s :: MoreIn(m, m', objp, c, s)
  }

  ghost predicate MoreIn(m: Mem, m': Mem, objp: int, c: int, s: int) {
    && s in m'.slabs && m'.slabs[s].cache == c
    && (forall x :: x in m.slabs && x in m'.slabs ==> m'.slabs[x].cache == m.slabs[x].cache)
    && (forall b, x :: IsLive(m, b, x) ==> b != objp - SIZEOF_OBJECT)
    && forall b, x :: IsLive(m', b, x) <==> IsLive(m, b, x) || (b == objp - SIZEOF_OBJECT && x == s)
  }

  /** The object comes first on the free list of the first partial slab, or of the first empty one if there is none;
      without either it is in a new slab. */
  ghost predicate FromSlab(m: Mem, m': Mem, objp: int, c: int)
    requires c in m.lists
  {
    var l, a := m.lists[c], objp - SIZEOF_OBJECT;
    if l.partial != [] then m'.slabs.Keys == m.slabs.Keys && FreeFront(m, l.partial[0], a)
    else if l.empty != [] then m'.slabs.Keys == m.slabs.Keys && FreeFront(m, l.empty[0], a)
    else exists x :: x !in m.slabs && m'.slabs.Keys == m.slabs.Keys + {x} && IsLive(m', a, x)
  }

  /** The cache has a slab that is not full. */
  ghost predicate Roomy(m: Mem, c: int) {
    c in m.lists && (m.lists[c].partial != [] || m.lists[c].empty != [])
  }

  ghost predicate FreeFront(m: Mem, x: int, a: int) {
    x in m.slabs && m.slabs[x].freeList == a
  }

  /** An object given back comes first on the free list of its slab. */
  ghost predicate FreedLast(m: Mem, m': Mem, a: int) {
    exists x :: IsLive(m, a, x) && FreeFront(m', x, a)
  }

  /** The slabs of cache `c` are large enough for an object. */
  ghost predicate HoldsObjects(m: Mem, c: int) {
    && c in m.caches && m.caches[c].slabSize >= 1
    && ObjectsPerSlab(m.caches[c].objectSize, m.caches[c].slabSize * BLOCK_SIZE) > 0
  }

  ghost predicate HasFreeObject(m: Mem, c: int) {
    exists x :: x in m.slabs && m.slabs[x].cache == c && m.slabs[x].numFree > 0
  }

  /** An object can be had: one is free, or a slab that holds objects can be added. */
  ghost predicate CanAlloc(m: Mem, F: set<int>, c: int, k: nat) {
    && c in m.caches && m.caches[c].slabSize >= 1
    && (HasFreeObject(m, c)
        || (ObjectsPerSlab(m.caches[c].objectSize, m.caches[c].slabSize * BLOCK_SIZE) > 0
            && HasRun(F, CeilLog2(m.caches[c].slabSize), k)))
  }

  lemma GrewSorted(m: Mem, m': Mem, c: int, x: int)
    requires AllSorted(m) && Grew(m, m', c, x) && Links(m.caches, m.slabs, m.lists, {})
    ensures AllSorted(m')
  {
    forall e | e in m'.lists ensures Sorted(m'.slabs, m'.lists[e]) {
      assert Sorted(m.slabs, m.lists[e]) && CacheLinks(e, m.caches[e], m.slabs, m.lists[e]);
      assert !OnSome(m.lists[e], x);
    }
  }

  /** A new slab brings no live object. */
  lemma GrewLive(m: Mem, m': Mem, c: int, x: int)
    requires Grew(m, m', c, x) && m.free.Keys == m.slabs.Keys
    requires SlabOk(x, m'.slabs[x], m'.caches[c], m'.objects, m'.free[x])
    ensures SameLiveObjects(m, m')
  {
    forall a, y ensures IsLive(m', a, y) <==> IsLive(m, a, y) {
      if y == x {
        if IsLive(m', a, x) {
          LiveObjectCounts(x, m'.slabs[x], m'.caches[c], m'.objects, m'.free[x], a);
        }
      } else if y in m.slabs {
        assert SameBody(m.slabs[y], m'.slabs[y]);
      }
    }
  }

  /** A slab that is not on the full list has a free object, unless it holds none at all. */
  lemma NoneFree(m: Mem, c: int, b: Bank)
    requires Inv(m, {}, -1, b) && AllSorted(m) && c in m.caches
    requires m.lists[c].partial == []
    requires m.caches[c].slabSize >= 1
    requires m.lists[c].empty != [] ==>
               ObjectsPerSlab(m.caches[c].objectSize, m.caches[c].slabSize * BLOCK_SIZE) == 0
    ensures !HasFreeObject(m, c)
  {
    forall x | x in m.slabs && m.slabs[x].cache == c ensures m.slabs[x].numFree == 0 {
      assert OnSome(m.lists[c], x) && Sorted(m.slabs, m.lists[c]);
      assert SlabOk(x, m.slabs[x], m.caches[c], m.objects, m.free[x]);
    }
  }

  lemma HeadsOfLists(m: Mem, c: int, b: Bank)
    requires Inv(m, {}, -1, b) && c in m.caches
    ensures c in m.lists && m.caches[c].slabSize >= 1
    ensures forall kind :: Head(m.caches[c], kind) == At(m.lists[c].On(kind), 0)
    ensures forall kind :: Head(m.caches[c], kind) == -1 ==> m.lists[c].On(kind) == []
    ensures forall kind, x :: x in m.lists[c].On(kind) ==> x in m.slabs && m.slabs[x].cache == c
    ensures forall x :: x in m.slabs && m.slabs[x].cache == c ==>
              m.slabs[x].numMax == ObjectsPerSlab(m.caches[c].objectSize, m.caches[c].slabSize * BLOCK_SIZE)
  {
    assert CacheOk(m, c, -1) && CacheLinks(c, m.caches[c], m.slabs, m.lists[c]);
    forall kind ensures Head(m.caches[c], kind) == At(m.lists[c].On(kind), 0)
                        && (Head(m.caches[c], kind) == -1 ==> m.lists[c].On(kind) == [])
    {
      assert DList(Head(m.caches[c], kind), m.slabs, m.lists[c].On(kind));
      assert m.lists[c].On(kind) != [] ==> NodeOk(m.slabs, m.lists[c].On(kind), 0);
    }
    forall kind, x | x in m.lists[c].On(kind) ensures x in m.slabs && m.slabs[x].cache == c {
      assert OnSome(m.lists[c], x);
    }
    forall x | x in m.slabs && m.slabs[x].cache == c
      ensures m.slabs[x].numMax == ObjectsPerSlab(m.caches[c].objectSize, m.caches[c].slabSize * BLOCK_SIZE)
    {
      assert SlabOk(x, m.slabs[x], m.caches[c], m.objects, m.free[x]);
    }
  }

  lemma FrontPartial(m: Mem, c: int, b: Bank)
    requires Inv(m, {}, -1, b) && AllSorted(m) && c in m.caches && m.lists[c].partial != []
    ensures var x := m.lists[c].partial[0]; x in m.slabs && m.slabs[x].numFree > 0 && HasFreeObject(m, c)
  {
    HeadsOfLists(m, c, b);
    var x := m.lists[c].partial[0];
    assert x in m.lists[c].On(Partial) && Sorted(m.slabs, m.lists[c]);
  }

  lemma FrontEmpty(m: Mem, c: int, b: Bank)
    requires Inv(m, {}, -1, b) && AllSorted(m) && c in m.caches
    requires m.lists[c].partial == [] && m.lists[c].empty != []
    ensures m.caches[c].slabSize >= 1
    ensures var x := m.lists[c].empty[0];
            && x in m.slabs
            && m.slabs[x].numFree == ObjectsPerSlab(m.caches[c].objectSize, m.caches[c].slabSize * BLOCK_SIZE)
            && (HasFreeObject(m, c) <==> m.slabs[x].numFree > 0)
  {
    HeadsOfLists(m, c, b);
    var x := m.lists[c].empty[0];
    assert x in m.lists[c].On(Empty) && Sorted(m.slabs, m.lists[c]);
    if m.slabs[x].numFree == 0 {
      NoneFree(m, c, b);
    }
  }

  /** The same caches, for objects of the same size. */
  ghost predicate SameCaches(m: Mem, m': Mem) {
    && m'.caches.Keys == m.caches.Keys
    && forall c :: c in m.caches ==> SameSizes(m.caches[c], m'.caches[c])
  }

  /** An object of one slab is live in no other. */
  lemma LiveInOne(m: Mem, b: Bank, a: int, x: int)
    requires Inv(m, {}, -1, b) && x in m.slabs && !IsLive(m, a, x)
    requires IsObject(a, x, m.caches[m.slabs[x].cache].objectSize, m.slabs[x].numMax)
    ensures forall y :: !IsLive(m, a, y)
  {
    forall y ensures !IsLive(m, a, y) {
      if IsLive(m, a, y) {
        ObjectOfOneSlab(m, {}, -1, b.chunks, b.k, a, x, y);
      }
    }
  }

  /** Whether kmem_cache_alloc has to grow the cache first. */
  method NeedsSlab(m: Mem, c: int, ghost b: Bank) returns (need: bool)
    requires Inv(m, {}, -1, b) && AllSorted(m) && c in m.caches
    ensures c in m.lists && m.caches[c].slabSize >= 1
    ensures need <==> m.lists[c].partial == [] && m.lists[c].empty == []
    ensures need ==> !HasFreeObject(m, c)
    ensures !need && !HasFreeObject(m, c) ==>
              ObjectsPerSlab(m.caches[c].objectSize, m.caches[c].slabSize * BLOCK_SIZE) == 0
  {
    var x, kind := Front(m, c, b);
    need := x == -1;
    assert !need ==> m.lists[c].On(kind) != [];
  }

  /** kmem_cache_alloc after the buddy allocator has answered `x`, if it was asked. */
  method Serve(m: Mem, c: int, need: bool, x: int, ghost b: Bank, ghost b': Bank) returns (m': Mem, objp: int)
    requires Inv(m, {}, -1, b) && AllSorted(m) && c in m.caches && m.caches[c].slabSize >= 1
    requires need <==> m.lists[c].partial == [] && m.lists[c].empty == []
    requires if !need || x == -1 then b' == b
             else x >= 0 && Takes(b, Chunk(CeilLog2(m.caches[c].slabSize), x), b')
    ensures Inv(m', {}, -1, b') && AllSorted(m') && SameCaches(m, m')
    ensures objp == -1 ==> SameLiveObjects(m, m')
    ensures objp != -1 ==> objp >= SIZEOF_OBJECT && OneMore(m, m', objp, c)
    ensures objp != -1 <==>
            HasFreeObject(m, c)
            || (need && x != -1 && ObjectsPerSlab(m.caches[c].objectSize, m.caches[c].slabSize * BLOCK_SIZE) > 0)
    ensures objp != -1 ==> FromSlab(m, m', objp, c)
  {
    if need {
      if x == -1 {
        NoneFree(m, c, b);
        m' := Flag(m, c, b);
        objp := -1;
      } else {
        m', objp := ServeNew(m, c, x, b, b');
      }
    } else {
      m', objp := ServeFront(m, c, b);
    }
  }

  /** Hands out an object of the first slab with room, if it holds any. */
  method ServeFront(m: Mem, c: int, ghost b: Bank) returns (m': Mem, objp: int)
    requires Inv(m, {}, -1, b) && AllSorted(m) && c in m.caches
    requires m.lists[c].partial != [] || m.lists[c].empty != []
    ensures Inv(m', {}, -1, b) && AllSorted(m') && SameCaches(m, m')
    ensures objp == -1 ==> SameLiveObjects(m, m')
    ensures objp != -1 ==> objp >= SIZEOF_OBJECT && OneMore(m, m', objp, c)
    ensures objp != -1 <==> HasFreeObject(m, c)
    ensures objp != -1 ==> c in m.lists && FromSlab(m, m', objp, c) && FrontLives(m, m', objp, c)
  {
    var x, kind := Front(m, c, b);
    FreeListHead(m, x, b);
    if m.slabs[x].freeList == -1 {
      m' := Flag(m, c, b);
      objp := -1;
    } else {
      m', objp := TakePointer(m, c, kind, x, b);
    }
  }

  method TakePointer(m: Mem, c: int, kind: Kind, x: int, ghost b: Bank) returns (m': Mem, objp: int)
    requires Inv(m, {}, -1, b) && AllSorted(m) && c in m.caches && kind != Full
    requires OnFront(m, c, kind, x) && m.slabs[x].numFree > 0
    ensures Inv(m', {}, -1, b) && AllSorted(m') && SameCaches(m, m')
    ensures objp >= SIZEOF_OBJECT && OneMore(m, m', objp, c)
    ensures m'.slabs.Keys == m.slabs.Keys && objp == m.slabs[x].freeList + SIZEOF_OBJECT
    ensures IsLive(m', objp - SIZEOF_OBJECT, x)
  {
    var a;
    m', a := TakeObject(m, c, kind, x, b);
    objp := a + SIZEOF_OBJECT;
    OneMoreNow(m, m', objp, x, c, b);
  }

  /** The object is live in the first slab. */
  ghost predicate FrontLives(m: Mem, m': Mem, objp: int, c: int)
    requires c in m.lists
  {
    var l := m.lists[c];
    (l.partial != [] || l.empty != [])
    && IsLive(m', objp - SIZEOF_OBJECT, if l.partial != [] then l.partial[0] else l.empty[0])
  }

  lemma FreeListHead(m: Mem, x: int, b: Bank)
    requires Inv(m, {}, -1, b) && x in m.slabs
    ensures m.slabs[x].freeList == -1 <==> m.slabs[x].numFree == 0
  {
    assert SlabOk(x, m.slabs[x], m.caches[m.slabs[x].cache], m.objects, m.free[x]);
    assert m.free[x] != [] ==> ObjNode(m.objects, m.free[x], 0);
  }

  lemma OneMoreNow(m: Mem, m': Mem, objp: int, x: int, c: int, b: Bank)
    requires Inv(m, {}, -1, b) && Gained(m, m', objp - SIZEOF_OBJECT, x) && x in m.slabs && m.slabs[x].cache == c
    ensures OneMore(m, m', objp, c) && SameCaches(m, m')
  {
    hide Inv;
    var a := objp - SIZEOF_OBJECT;
    assert IsLive(m', a, x);
    LiveInOne(m, b, a, x);
    assert MoreIn(m, m', objp, c, x);
  }

  /** Adds the new slab and hands out its first object, if it holds any. */
  method ServeNew(m: Mem, c: int, x: nat, ghost b: Bank, ghost b': Bank) returns (m': Mem, objp: int)
    requires Inv(m, {}, -1, b) && AllSorted(m) && c in m.caches && m.caches[c].slabSize >= 1
    requires m.lists[c].partial == [] && m.lists[c].empty == []
    requires Takes(b, Chunk(CeilLog2(m.caches[c].slabSize), x), b')
    ensures Inv(m', {}, -1, b') && AllSorted(m') && SameCaches(m, m')
    ensures objp == -1 ==> SameLiveObjects(m, m')
    ensures objp != -1 ==> objp >= SIZEOF_OBJECT && OneMore(m, m', objp, c)
    ensures objp != -1 <==> ObjectsPerSlab(m.caches[c].objectSize, m.caches[c].slabSize * BLOCK_SIZE) > 0
    ensures objp != -1 ==> FromSlab(m, m', objp, c)
  {
    NoneFree(m, c, b);
    var m1 := InstallSlab(m, c, x, b, b');
    m', objp := ServeFront(m1, c, b');
    GrewThen(m, m1, m', c, x, objp);
    GrewFree(m, m1, c, x);
  }

  lemma GrewThen(m: Mem, m1: Mem, m': Mem, c: int, x: int, objp: int)
    requires Grew(m, m1, c, x) && SameLiveObjects(m, m1) && SameCaches(m1, m')
    requires objp == -1 ==> SameLiveObjects(m1, m')
    requires objp != -1 ==> OneMore(m1, m', objp, c)
    ensures SameCaches(m, m')
    ensures objp == -1 ==> SameLiveObjects(m, m')
    ensures objp != -1 ==> OneMore(m, m', objp, c)
  {
    forall e | e in m.caches ensures SameSizes(m.caches[e], m'.caches[e]) {
      assert SameSizes(m1.caches[e], m'.caches[e]);
    }
    if objp != -1 {
      var s :| MoreIn(m1, m', objp, c, s);
      assert MoreIn(m, m', objp, c, s);
    }
  }

  lemma GrewFree(m: Mem, m1: Mem, c: int, x: int)
    requires Grew(m, m1, c, x) && !HasFreeObject(m, c)
    ensures HasFreeObject(m1, c) <==>
            ObjectsPerSlab(m.caches[c].objectSize, m.caches[c].slabSize * BLOCK_SIZE) > 0
  {
    forall y | y in m.slabs && m.slabs[y].cache == c ensures m1.slabs[y].numFree == 0 {
      assert SameBody(m.slabs[y], m1.slabs[y]);
    }
  }

  /** kmem_cache_free for a live object of cache `c`: the slab is found through the object. */
  method GiveBack(m: Mem, c: int, objp: int, ghost b: Bank) returns (m': Mem)
    requires Inv(m, {}, -1, b) && AllSorted(m) && LiveIn(m, objp - SIZEOF_OBJECT, c)
    ensures Inv(m', {}, -1, b) && AllSorted(m') && SameCaches(m, m') && OneMore(m', m, objp, c)
    ensures FreedLast(m, m', objp - SIZEOF_OBJECT)
  {
    var a := objp - SIZEOF_OBJECT;
    ghost var y :| IsLive(m, a, y) && m.slabs[y].cache == c;
    LiveInside(m, {}, -1, a, y);
    var x := m.objects[a].slab;
    m' := GiveObject(m, x, a, b);
    OneLess(m, m', objp, x, c, b);
  }

  lemma OneLess(m: Mem, m': Mem, objp: int, x: int, c: int, b: Bank)
    requires Inv(m', {}, -1, b) && Gained(m', m, objp - SIZEOF_OBJECT, x) && x in m.slabs && m.slabs[x].cache == c
    ensures OneMore(m', m, objp, c) && SameCaches(m, m')
  {
    hide Inv;
    var a := objp - SIZEOF_OBJECT;
    assert IsLive(m, a, x);
    LiveInOne(m', b, a, x);
    assert MoreIn(m', m, objp, c, x);
  }

  /** The first slab of a list, taken off it; its run may be given back. */
  method TakeOff(m: Mem, c: int, kind: Kind, ghost d: int, ghost b: Bank) returns (m': Mem, x: int)
    requires Inv(m, {}, d, b) && c in m.caches && m.lists[c].On(kind) != []
    ensures Inv(m', {x}, d, b) && TakenOff(m, m', c, kind, x)
  {
    FirstOf(m, c, kind, d, b);
    x := Head(m.caches[c], kind);
    m' := RemoveSlabFromList(m, c, kind, x, 0, {});
    InvRelinked(m, m', {}, {x}, d, b);
  }

  /** `m'` is `m` with slab `x` unlinked from the front of one list of its cache. */
  ghost predicate TakenOff(m: Mem, m': Mem, c: int, kind: Kind, x: int) {
    && x >= 0 && c in m.lists && m.lists[c].On(kind) != [] && x == m.lists[c].On(kind)[0]
    && x in m.slabs && m.slabs[x].cache == c && x in m'.slabs && m'.slabs[x].cache == c && c in m'.caches
    && SameBodies(m.slabs, m'.slabs) && m'.free == m.free && SameButHeads(m.caches, m'.caches)
    && m'.lists == m.lists[c := m.lists[c].With(kind, RemoveAt(m.lists[c].On(kind), 0))]
  }

  lemma FirstOf(m: Mem, c: int, kind: Kind, d: int, b: Bank)
    requires Inv(m, {}, d, b) && c in m.caches && m.lists[c].On(kind) != []
    ensures Head(m.caches[c], kind) == m.lists[c].On(kind)[0] >= 0
    ensures Head(m.caches[c], kind) in m.slabs && m.slabs[Head(m.caches[c], kind)].cache == c
  {
    assert CacheLinks(c, m.caches[c], m.slabs, m.lists[c]);
    assert DList(Head(m.caches[c], kind), m.slabs, m.lists[c].On(kind)) && NodeOk(m.slabs, m.lists[c].On(kind), 0);
    assert m.lists[c].On(kind)[0] in m.lists[c].On(kind) && OnSome(m.lists[c], m.lists[c].On(kind)[0]);
  }

  lemma MayReturn(m: Mem, c: int, x: int, d: int, b: Bank)
    requires Inv(m, {x}, d, b) && x in m.slabs && m.slabs[x].cache == c && c in m.caches && x >= 0
    ensures 1 <= m.caches[c].slabSize <= 16
    ensures Fits(SlabChunk(m, x), b.k) && Run(SlabChunk(m, x)) !! Blocks(b.chunks, b.k)
  {
    assert CacheOk(m, c, d);
    assert SlabChunk(m, x) in Owned(m);
    OwnedReturns(m, {x}, d, b, SlabChunk(m, x));
  }

  /** The records once the run of slab `x` has gone back. */
  method DropSlab(m: Mem, x: int, counted: bool, ghost d: int, ghost b: Bank, ghost b': Bank) returns (m': Mem)
    requires Inv(m, {x}, d, b) && x in m.slabs && x >= 0 && m.slabs[x].cache in m.caches
    requires m.slabs[x].cache == d || (counted && m.slabs[x].numFree == m.slabs[x].numMax)
    requires Returns(b, SlabChunk(m, x), b')
    ensures m' == LessSlab(m, x, if counted then 1 else 0) && Inv(m', {}, d, b')
  {
    InvSlabDropped(m, d, b, b', x, if counted then 1 else 0);
    m' := LessSlab(m, x, if counted then 1 else 0);
  }

  lemma DrainedFront(m0: Mem, m: Mem, c: int, kind: Kind, j: nat, counted: bool)
    requires c in m0.lists && c in m0.caches && j < |m0.lists[c].On(kind)| && Drained(m0, m, c, kind, j, counted)
    ensures c in m.lists && m.lists[c].On(kind) != [] && m.lists[c].On(kind)[0] == m0.lists[c].On(kind)[j]
  {
    assert m.lists[c].On(kind) == m0.lists[c].On(kind)[j..];
  }

  lemma NoneDrained(m: Mem, c: int, kind: Kind, counted: bool, d: int, b: Bank)
    requires Inv(m, {}, d, b) && c in m.caches
    ensures c in m.lists && Drained(m, m, c, kind, 0, counted)
  {
    assert m.lists[c].On(kind)[0..] == m.lists[c].On(kind);
    assert m.lists[c].With(kind, m.lists[c].On(kind)) == m.lists[c];
  }

  /** While the list has a head, a slab is left to give back. */
  lemma MoreToDrain(m0: Mem, m: Mem, c: int, kind: Kind, j: nat, counted: bool, d: int, b: Bank)
    requires Inv(m, {}, d, b) && AllSorted(m) && c in m.caches && Head(m.caches[c], kind) != -1
    requires c in m0.lists && c in m0.caches && j <= |m0.lists[c].On(kind)| && Drained(m0, m, c, kind, j, counted)
    ensures j < |m0.lists[c].On(kind)| && m.lists[c].On(kind) != []
    ensures m.caches[c].slabSize == m0.caches[c].slabSize
    ensures kind == Empty ==> Spare(m, m.lists[c].On(kind)[0])
  {
    assert CacheLinks(c, m.caches[c], m.slabs, m.lists[c]);
    assert DList(Head(m.caches[c], kind), m.slabs, m.lists[c].On(kind));
    assert m.lists[c].On(kind) == m0.lists[c].On(kind)[j..];
    assert DrainedCache(m0.caches[c], m.caches[c], if counted then j else 0);
    assert Sorted(m.slabs, m.lists[c]) && m.lists[c].On(kind)[0] in m.lists[c].On(kind);
  }

  lemma DrainedOne(m0: Mem, m: Mem, m1: Mem, c: int, kind: Kind, j: nat, counted: bool, x: int)
    requires c in m0.lists && c in m0.caches && j < |m0.lists[c].On(kind)| && Drained(m0, m, c, kind, j, counted)
    requires TakenOff(m, m1, c, kind, x) && AllSorted(m)
    ensures Drained(m0, LessSlab(m1, x, if counted then 1 else 0), c, kind, j + 1, counted)
    ensures AllSorted(LessSlab(m1, x, if counted then 1 else 0))
            && c in LessSlab(m1, x, if counted then 1 else 0).caches
  {
    DrainedFront(m0, m, c, kind, j, counted);
    DrainedStep(m0, m, m1, c, kind, j, counted, x);
    LessSorted(m, m1, c, kind, if counted then 1 else 0, x);
  }

  lemma AllDrained(m0: Mem, m: Mem, c: int, kind: Kind, j: nat, counted: bool, d: int, b: Bank)
    requires Inv(m, {}, d, b) && c in m.caches && Head(m.caches[c], kind) == -1
    requires c in m0.lists && c in m0.caches && j <= |m0.lists[c].On(kind)| && Drained(m0, m, c, kind, j, counted)
    ensures j == |m0.lists[c].On(kind)|
  {
    assert CacheLinks(c, m.caches[c], m.slabs, m.lists[c]);
    assert DList(Head(m.caches[c], kind), m.slabs, m.lists[c].On(kind));
    var s := m.lists[c].On(kind);
    assert s == m0.lists[c].On(kind)[j..];
    forall i | 0 <= i < |s| ensures s[i] >= 0 {
      assert NodeOk(m.slabs, s, i);
    }
    assert At(s, 0) == -1;
  }

  /** Slabs of caches other than `c` are as they were, but for their links. */
  ghost predicate OthersKept(m: Mem, m': Mem, c: int) {
    && (forall x :: x in m'.slabs && m'.slabs[x].cache != c ==> x in m.slabs && m.slabs[x].cache != c)
    && (forall x :: x in m.slabs && m.slabs[x].cache != c ==> SlabKept(m, m', x))
    && (forall e :: e in m.caches && e != c ==> e in m'.caches && SameSizes(m.caches[e], m'.caches[e]))
  }

  ghost predicate SlabKept(m: Mem, m': Mem, x: int) {
    && x in m.slabs && x in m'.slabs && SameBody(m.slabs[x], m'.slabs[x])
    && (x in m.free ==> x in m'.free && m'.free[x] == m.free[x])
  }

  lemma KeptItself(m: Mem, c: int)
    ensures OthersKept(m, m, c)
  {
  }

  lemma DrainedKeeps(m: Mem, m': Mem, c: int, kind: Kind, b: Bank)
    requires Inv(m, {}, c, b) && c in m.caches && Drained(m, m', c, kind, |m.lists[c].On(kind)|, false)
    ensures OthersKept(m, m', c) && m'.caches.Keys == m.caches.Keys
    ensures m'.lists == m.lists[c := m.lists[c].With(kind, [])]
  {
    var s := m.lists[c].On(kind);
    assert s[..|s|] == s && s[|s|..] == [];
    assert CacheLinks(c, m.caches[c], m.slabs, m.lists[c]);
    assert forall x :: x in s ==> OnSome(m.lists[c], x);
    forall e | e in m.caches ensures SameSizes(m.caches[e], m'.caches[e]) {
      assert DrainedCache(m.caches[e], m'.caches[e], 0);
    }
  }

  lemma KeptTwice(m: Mem, m1: Mem, m2: Mem, c: int)
    requires OthersKept(m, m1, c) && OthersKept(m1, m2, c) && m1.free.Keys == m1.slabs.Keys
    ensures OthersKept(m, m2, c)
  {
    forall x | x in m.slabs && m.slabs[x].cache != c ensures SlabKept(m, m2, x) {
      assert SlabKept(m, m1, x);
      assert SlabKept(m1, m2, x);
    }
    forall e | e in m.caches && e != c ensures SameSizes(m.caches[e], m2.caches[e]) {
      assert SameSizes(m.caches[e], m1.caches[e]);
    }
  }

  /** With its three lists empty, a cache has no slab. */
  lemma NothingLeft(m: Mem, c: int, b: Bank)
    requires Inv(m, {}, c, b) && c in m.caches && m.lists[c] == Lists([], [], [])
    ensures c >= 0 && forall x :: x in m.slabs ==> m.slabs[x].cache != c
  {
    assert CacheOk(m, c, c);
    forall x | x in m.slabs ensures m.slabs[x].cache != c {
      assert !OnSome(m.lists[c], x);
    }
  }

  /** Once a cache is dying its counters no longer matter. */
  lemma Dying(m: Mem, c: int, b: Bank)
    requires Inv(m, {}, -1, b)
    ensures Inv(m, {}, c, b)
  {
    forall e | e in m.caches ensures CacheOk(m, e, c) {
      assert CacheOk(m, e, -1);
    }
  }

  lemma OwnCache(m: Mem, c: int, b: Bank)
    requires Inv(m, {}, c, b) && c in m.caches && c >= 0
    ensures Fits(Chunk(0, c), b.k) && Run(Chunk(0, c)) !! Blocks(b.chunks, b.k) && CeilLog2(1) == 0
  {
    assert Chunk(0, c) in Owned(m);
    OwnedReturns(m, {}, c, b, Chunk(0, c));
  }

  lemma KeptWithout(m0: Mem, m: Mem, c: int)
    requires OthersKept(m0, m, c) && AllSorted(m)
    ensures OthersKept(m0, LessCache(m, c), c) && AllSorted(LessCache(m, c))
    ensures LessCache(m, c).caches.Keys == m.caches.Keys - {c}
  {
    forall x | x in m0.slabs && m0.slabs[x].cache != c ensures SlabKept(m0, LessCache(m, c), x) {
      assert SlabKept(m0, m, x);
    }
    forall e | e in LessCache(m, c).lists ensures Sorted(m.slabs, LessCache(m, c).lists[e]) {
      assert Sorted(m.slabs, m.lists[e]);
    }
  }

  /** What kmem_cache_shrink does to a cache: nothing but a note if it has grown
      since the last call, or else all its empty slabs go. */
  ghost predicate Shrunk(m0: Mem, m: Mem, c: int, freed: int) {
    && c in m0.caches && c in m0.lists
    && var ca := m0.caches[c];
    if ca.numGrown > ca.lastShrinkState then
      freed == 0 && m == m0.(caches := m0.caches[c := ca.(lastShrinkState := ca.numGrown)])
    else
      && SlabsGone(m0, m, m0.lists[c].empty) && freed == Times(|m0.lists[c].empty|, ca.slabSize)
      && m.lists == m0.lists[c := m0.lists[c].(empty := [])]
  }

  /** Empty slabs take no live object with them. */
  lemma DrainedLive(m0: Mem, m: Mem, c: int, b: Bank)
    requires Inv(m0, {}, -1, b) && AllSorted(m0) && c in m0.caches
    requires Drained(m0, m, c, Empty, |m0.lists[c].empty|, true)
    ensures SameLiveObjects(m0, m) && SameCaches(m0, m) && SlabsGone(m0, m, m0.lists[c].empty)
    ensures m.lists == m0.lists[c := m0.lists[c].(empty := [])]
  {
    var s := m0.lists[c].empty;
    assert s[..|s|] == s && s[|s|..] == [];
    forall e | e in m0.caches ensures SameSizes(m0.caches[e], m.caches[e]) {
      assert DrainedCache(m0.caches[e], m.caches[e], if e == c then |s| else 0);
    }
    forall a, x ensures IsLive(m, a, x) <==> IsLive(m0, a, x) {
      if x in s {
        NoLiveWhenEmpty(m0, c, a, x, b);
      }
    }
  }

  lemma NoLiveWhenEmpty(m: Mem, c: int, a: int, x: int, b: Bank)
    requires Inv(m, {}, -1, b) && AllSorted(m) && c in m.caches && x in m.lists[c].empty
    ensures !IsLive(m, a, x)
  {
    if IsLive(m, a, x) {
      assert Sorted(m.slabs, m.lists[c]);
      LiveObjectCounts(x, m.slabs[x], m.caches[m.slabs[x].cache], m.objects, m.free[x], a);
    }
  }

  predicate SameRegion(b: Bank, b': Bank) {
    b'.k == b.k && b'.totalBlocks == b.totalBlocks
  }

  /** Buffer cache `i`, once created, holds objects of 2^(i + 5) bytes. */
  ghost predicate Buffered(bufferCaches: seq<int>, m: Mem) {
    && |bufferCaches| == NUM_BUFFER_CACHES
    && (forall i :: 0 <= i < |bufferCaches| && bufferCaches[i] != -1 ==>
          bufferCaches[i] in m.caches && m.caches[bufferCaches[i]].objectSize == Pow2(i + 5))
  }

  lemma StillBuffered(bufferCaches: seq<int>, m: Mem, m': Mem)
    requires Buffered(bufferCaches, m)
    requires forall e :: e in m.caches ==> e in m'.caches && SameSizes(m.caches[e], m'.caches[e])
    ensures Buffered(bufferCaches, m')
  {
    forall i | 0 <= i < |bufferCaches| && bufferCaches[i] != -1
      ensures m'.caches[bufferCaches[i]].objectSize == Pow2(i + 5)
    {
      assert SameSizes(m.caches[bufferCaches[i]], m'.caches[bufferCaches[i]]);
    }
  }

  lemma BufferSet(bufferCaches: seq<int>, m: Mem, index: nat, c: int)
    requires Buffered(bufferCaches, m) && index < |bufferCaches|
    requires c != -1 ==> c in m.caches && m.caches[c].objectSize == Pow2(index + 5)
    ensures Buffered(bufferCaches[index := c], m)
  {
  }

  lemma BufferedWithout(bufferCaches: seq<int>, m: Mem, m': Mem, c: int)
    requires Buffered(bufferCaches, m) && c !in bufferCaches && OthersKept(m, m', c)
    ensures Buffered(bufferCaches, m')
  {
    forall i | 0 <= i < |bufferCaches| && bufferCaches[i] != -1
      ensures bufferCaches[i] in m'.caches && m'.caches[bufferCaches[i]].objectSize == Pow2(i + 5)
    {
      assert bufferCaches[i] in bufferCaches;
      assert SameSizes(m.caches[bufferCaches[i]], m'.caches[bufferCaches[i]]);
    }
  }

  /** Cache `c` is new, for objects of `size` bytes; the others are still there. */
  ghost predicate Created(m: Mem, m': Mem, c: int, size: nat) {
    && c !in m.caches && c in m'.caches && m'.caches[c].objectSize == size
    && m'.caches.Keys == m.caches.Keys + {c}
    && (forall e :: e in m.caches ==> SameSizes(m.caches[e], m'.caches[e]))
    && (forall x :: x in m.slabs ==> x in m'.slabs)
  }

  lemma NewCacheLive(m: Mem, c: int, ca: Cache)
    requires c !in m.caches && AllSorted(m) && (forall x :: x in m.slabs ==> m.slabs[x].cache in m.caches)
    ensures SameLiveObjects(m, NewCache(m, c, ca)) && AllSorted(NewCache(m, c, ca))
    ensures Created(m, NewCache(m, c, ca), c, ca.objectSize)
  {
    var m' := NewCache(m, c, ca);
    forall e | e in m'.lists ensures Sorted(m'.slabs, m'.lists[e]) {
      assert e != c ==> Sorted(m.slabs, m.lists[e]);
    }
  }

  lemma CreatedThenGrew(m: Mem, m1: Mem, m2: Mem, c: int, size: nat, ok: bool)
    requires Created(m, m1, c, size) && SameLiveObjects(m, m1) && SameLiveObjects(m1, m2)
    requires m1.slabs == m.slabs
    requires ok ==> exists x :: Grew(m1, m2, c, x)
    requires !ok ==> m2.slabs == m1.slabs && m2.caches == m1.caches[c := m1.caches[c].(errorState := true)]
    ensures Created(m, m2, c, size) && SameLiveObjects(m, m2)
  {
    if ok {
      var x :| Grew(m1, m2, c, x);
    }
  }

  /** The cache of a live object, found through the slab its header names. */
  method FindCache(m: Mem, a: int, ghost b: Bank) returns (cache: int)
    requires Inv(m, {}, -1, b) && LiveObject(m, a)
    ensures cache in m.caches && LiveIn(m, a, cache)
  {
    ghost var c :| LiveIn(m, a, c);
    ghost var y :| IsLive(m, a, y) && m.slabs[y].cache == c;
    LiveInside(m, {}, -1, a, y);
    cache := m.slabs[m.objects[a].slab].cache;
  }

  /** The same objects are live, and no slab has gone. */
  ghost predicate Steady(m: Mem, m': Mem) {
    SameLiveObjects(m, m') && forall x :: x in m.slabs ==> x in m'.slabs
  }

  /** One more object is live, in a cache for objects of at least `size` bytes. */
  ghost predicate Served(m: Mem, m': Mem, objp: int, size: nat) {
    exists c :: c in m'.caches && m'.caches[c].objectSize >= size && OneMore(m, m', objp, c)
  }

  ghost predicate LiveObject(m: Mem, a: int) {
    exists c :: LiveIn(m, a, c)
  }

  ghost predicate OneMoreObject(m: Mem, m': Mem, objp: int) {
    exists c :: OneMore(m, m', objp, c)
  }

  lemma SteadyThen(m: Mem, m1: Mem, m2: Mem, objp: int, c: int)
    requires Steady(m, m1)
    ensures SameLiveObjects(m1, m2) ==> SameLiveObjects(m, m2)
    ensures OneMore(m1, m2, objp, c) ==> OneMore(m, m2, objp, c)
  {
    if OneMore(m1, m2, objp, c) {
      var s :| MoreIn(m1, m2, objp, c, s);
      assert MoreIn(m, m2, objp, c, s);
    }
  }

  /** `index` is the size class of `size`: the least one whose objects are large enough. */
  ghost predicate ClassOf(size: nat, index: nat) {
    size <= Pow2(index + 5) && (index > 0 ==> Pow2(index + 4) < size)
  }

  lemma OneClass(size: nat, i: nat, j: nat)
    requires ClassOf(size, i) && ClassOf(size, j)
    ensures i == j
  {
    if i < j {
      Pow2Monotonic(i + 5, j + 4);
    } else if j < i {
      Pow2Monotonic(j + 5, i + 4);
    }
  }

  lemma BufferFacts(m: Mem, b: Bank, c: int, index: nat, size: nat)
    requires Inv(m, {}, -1, b) && c in m.caches && m.caches[c].objectSize == Pow2(index + 5)
    requires 1 <= size && ClassOf(size, index)
    ensures HoldsObjects(m, c) <==> size <= MAX_SERVED
    ensures CanAlloc(m, Blocks(b.chunks, b.k), c, b.k) ==> size <= MAX_SERVED
  {
    assert CacheOk(m, c, -1);
    var blocks := m.caches[c].slabSize;
    HoldsAnObject(Pow2(index + 5), blocks);
    ServedClass(index, size);
    if HasFreeObject(m, c) {
      var x :| x in m.slabs && m.slabs[x].cache == c && m.slabs[x].numFree > 0;
      assert SlabOk(x, m.slabs[x], m.caches[c], m.objects, m.free[x]);
      var a := m.free[x][0];
      assert a in m.free[x];
    }
  }

  /** What the outcome of kmem_cache_alloc on a buffer cache means for kmalloc. */
  lemma ServedOrNot(m: Mem, m1: Mem, m2: Mem, b: Bank, c: int, index: nat, size: nat, objp: int)
    requires Steady(m, m1) && Inv(m1, {}, -1, b) && c in m1.caches && m1.caches[c].objectSize == Pow2(index + 5)
    requires 1 <= size && ClassOf(size, index) && SameCaches(m1, m2)
    requires objp == -1 <==> !CanAlloc(m1, Blocks(b.chunks, b.k), c, b.k)
    requires objp == -1 ==> SameLiveObjects(m1, m2)
    requires objp != -1 ==> OneMore(m1, m2, objp, c)
    ensures objp == -1 ==> SameLiveObjects(m, m2)
    ensures objp != -1 ==> size <= MAX_SERVED && Served(m, m2, objp, size)
  {
    BufferFacts(m1, b, c, index, size);
    SteadyThen(m, m1, m2, objp, c);
    assert SameSizes(m1.caches[c], m2.caches[c]);
  }

  lemma ServedClass(index: nat, size: nat)
    requires 1 <= size && ClassOf(size, index)
    ensures size <= MAX_SERVED <==> Pow2(index + 5) <= 65472
  {
    assert Pow2(8) == 256 && Pow2(15) == 128 * Pow2(8) && Pow2(16) == 2 * Pow2(15);
    if index <= 10 {
      Pow2Monotonic(index + 5, 15);
    } else {
      Pow2Monotonic(15, index + 4);
    }
  }

  lemma OneSlabSize(objectSize: nat, a: nat, b: nat)
    requires IsSlabSize(objectSize, a) && IsSlabSize(objectSize, b)
    ensures a == b
  {
  }

  /** After its first slab was asked for, a new cache can serve exactly if there was a run for that slab. */
  lemma FirstSlab(m1: Mem, m2: Mem, F1: set<int>, F2: set<int>, c: int, ok: bool, k: nat)
    requires c in m1.caches && c in m2.caches && forall x :: x in m1.slabs ==> m1.slabs[x].cache != c
    requires ok <==> HasRun(F1, CeilLog2(m1.caches[c].slabSize), k)
    requires ok ==> exists x :: Grew(m1, m2, c, x)
    requires !ok ==> m2.slabs == m1.slabs && F2 == F1 && SameSizes(m1.caches[c], m2.caches[c])
    ensures SameSizes(m1.caches[c], m2.caches[c])
    ensures CanAlloc(m2, F2, c, k) <==> HoldsObjects(m2, c) && ok
  {
    if ok {
      var x :| Grew(m1, m2, c, x);
      assert x in m2.slabs && m2.slabs[x].cache == c;
      forall y | y in m2.slabs && y != x ensures m2.slabs[y].cache != c {
        assert y in m1.slabs && SameBody(m1.slabs[y], m2.slabs[y]);
      }
    }
  }

  /** kmem_cache_create of `size` bytes ends with a cache that can serve. */
  ghost predicate CreateServes(F: set<int>, size: nat, k: nat) {
    exists blocks: nat :: IsSlabSize(size, blocks) && ObjectsPerSlab(size, blocks * BLOCK_SIZE) > 0
                     && HasRun(F, CeilLog2(blocks), k) && |F| > blocks
  }

  /** Size class `index` can serve: its cache can, or it has none yet and there is room for both the record of
      the cache and its first slab. */
  ghost predicate CanServe(m: Mem, buffers: seq<int>, F: set<int>, index: nat, k: nat)
    requires index < |buffers|
  {
    if buffers[index] == -1 then CreateServes(F, Pow2(index + 5), k)
    else CanAlloc(m, F, buffers[index], k)
  }

  lemma CreatedServes(b: Bank, b1: Bank, c: nat, m: Mem, size: nat, d: int)
    requires Takes(b, Chunk(0, c), b1) && Good(b.chunks, b.k) && d in m.caches
    requires m.caches[d].objectSize == size && IsSlabSize(size, m.caches[d].slabSize)
    ensures HoldsObjects(m, d) && HasRun(Blocks(b1.chunks, b.k), CeilLog2(m.caches[d].slabSize), b.k)
            <==> CreateServes(Blocks(b.chunks, b.k), size, b.k)
  {
    var blocks := m.caches[d].slabSize;
    SlabOrder(size, blocks);
    RunLeft(b.chunks, Chunk(0, c), b1.chunks, CeilLog2(blocks), b.k);
    forall a | IsSlabSize(size, a) ensures a == blocks {
      OneSlabSize(size, a, blocks);
    }
  }

  /** Without a block for its record there is no cache. */
  lemma NoRecord(F: set<int>, size: nat, k: nat)
    requires !HasRun(F, 0, k)
    ensures !CreateServes(F, size, k)
  {
    hide HasRun, IsSlabSize, CeilLog2, ObjectsPerSlab;
    forall blocks: nat | IsSlabSize(size, blocks) ensures !HasRun(F, CeilLog2(blocks), k) {
      RunDown(F, 0, CeilLog2(blocks), k);
    }
  }

  lemma NothingYet(b: Bank)
    requires b.chunks == {Chunk(b.k, 0)} && b.freeBlocks == b.totalBlocks == Pow2(b.k)
    ensures var m := Mem(map[], map[], map[], map[], map[]); Inv(m, {}, -1, b) && AllSorted(m)
  {
    InitialAccounts(b.k);
    TopChunkGood(b.k);
    assert Owned(Mem(map[], map[], map[], map[], map[])) == {};
  }

  lemma SlabSizeKnown(m: Mem, c: int, b: Bank)
    requires Inv(m, {}, -1, b) && c in m.caches
    ensures 1 <= m.caches[c].slabSize <= 16
  {
    assert CacheOk(m, c, -1);
  }

  class KmemAllocator {
    const buddy: BuddyAllocator
    var mem: Mem
    var bufferCaches: seq<int>
    ghost var bank: Bank

    ghost function BankOf(): Bank
      reads buddy
    {
      Bank(buddy.FreeChunks(), buddy.TopOrder(), buddy.freeBlocks, buddy.totalBlocks)
    }

    /** The records and the buddy allocator agree. */
    ghost predicate Core()
      reads `mem, `bank, buddy, buddy.freeList, buddy.next
    {
      buddy.Valid() && bank == BankOf() && Inv(mem, {}, -1, bank) && AllSorted(mem)
    }

    ghost predicate Valid()
      reads this, buddy, buddy.freeList, buddy.next
    {
      Core() && Buffered(bufferCaches, mem)
    }

    constructor (blockNum: nat)
      requires IsPow2(blockNum) && blockNum <= 8192
      ensures Valid() && mem.caches == map[] && mem.slabs == map[]
      ensures buddy.freeBlocks == buddy.totalBlocks == blockNum
      ensures fresh(buddy) && fresh(buddy.freeList) && fresh(buddy.next)
    {
      buddy := new BuddyAllocator(blockNum);
      mem := Mem(map[], map[], map[], map[], map[]);
      bufferCaches := seq(NUM_BUFFER_CACHES, _ => -1);
      new;
      Start();
    }

    /** Places the buddy allocator's one chunk, all of which is free. */
    method Start()
      requires buddy.Shape() && buddy.freeBlocks == buddy.totalBlocks <= 8192
      requires forall o :: 0 <= o < MAX_ORDER ==> buddy.lists[o] == []
      requires mem == Mem(map[], map[], map[], map[], map[]) && Buffered(bufferCaches, mem)
      modifies `bank, buddy, buddy.freeList, buddy.next
      ensures Valid() && buddy.freeBlocks == old(buddy.freeBlocks) && buddy.totalBlocks == old(buddy.totalBlocks)
    {
      hide Inv, AllSorted, BuddyAllocator.Valid;
      buddy.PlaceChunks();
      bank := BankOf();
      NothingYet(bank);
    }

    method BuddyAlloc(blocks: nat) returns (x: int)
      requires buddy.Valid() && 1 <= blocks <= 16
      modifies buddy, buddy.freeList, buddy.next
      ensures buddy.Valid() && buddy.totalBlocks == old(buddy.totalBlocks) && buddy.maxOrder == old(buddy.maxOrder)
      ensures x == -1 <==> !HasRun(old(buddy.Free()), CeilLog2(blocks), buddy.TopOrder())
      ensures x == -1 ==> BankOf() == old(BankOf())
      ensures x != -1 ==> x >= 0 && Takes(old(BankOf()), Chunk(CeilLog2(blocks), x), BankOf())
    {
      hide BuddyAllocator.Valid, Inv, AllSorted;
      x := buddy.Alloc(blocks);
    }

    method BuddyFree(x: nat, blocks: nat)
      requires buddy.Valid() && 1 <= blocks <= 16
      requires Fits(Chunk(CeilLog2(blocks), x), buddy.TopOrder())
      requires Run(Chunk(CeilLog2(blocks), x)) !! buddy.Free()
      modifies buddy, buddy.freeList, buddy.next
      ensures buddy.Valid() && buddy.totalBlocks == old(buddy.totalBlocks) && buddy.maxOrder == old(buddy.maxOrder)
      ensures Returns(old(BankOf()), Chunk(CeilLog2(blocks), x), BankOf())
    {
      hide BuddyAllocator.Valid, Inv, AllSorted;
      buddy.Release(x, blocks);
    }

    /** Free blocks and the blocks of all caches always add up to the region. */
    lemma BlocksConserved()
      requires Core()
      ensures buddy.freeBlocks + Sum(HeldByCounter(mem)) == buddy.totalBlocks
    {
      Conservation(mem, {}, bank);
    }

    /** Adds an empty slab to the cache, exactly when the buddy allocator has a run for it. */
    method Grow(c: int) returns (ok: bool)
      requires Core() && c in mem.caches
      modifies `mem, `bank, buddy, buddy.freeList, buddy.next
      ensures Core() && bank.k == old(bank.k) && bank.totalBlocks == old(bank.totalBlocks)
      ensures ok <==> HasRun(Blocks(old(bank).chunks, bank.k), CeilLog2(old(mem).caches[c].slabSize), bank.k)
      ensures SameLiveObjects(old(mem), mem)
      ensures ok ==> exists x :: Grew(old(mem), mem, c, x)
      ensures !ok ==> mem.slabs == old(mem).slabs && bank == old(bank)
                      && mem.caches == old(mem).caches[c := old(mem).caches[c].(errorState := true)]
    {
      hide BuddyAllocator.Valid, Inv, AllSorted;
      SlabSizeKnown(mem, c, bank);
      var x := BuddyAlloc(mem.caches[c].slabSize);
      RecordIn(c, x, BankOf());
      ok := x != -1;
    }

    method RecordIn(c: int, x: int, ghost b: Bank)
      requires Inv(mem, {}, -1, bank) && AllSorted(mem) && c in mem.caches
      requires if x == -1 then b == bank else x >= 0 && Takes(bank, Chunk(CeilLog2(mem.caches[c].slabSize), x), b)
      modifies `mem, `bank
      ensures bank == b && Inv(mem, {}, -1, bank) && AllSorted(mem) && SameLiveObjects(old(mem), mem)
      ensures x != -1 ==> Grew(old(mem), mem, c, x)
      ensures x == -1 ==> mem.slabs == old(mem).slabs
                          && mem.caches == old(mem).caches[c := old(mem).caches[c].(errorState := true)]
    {
      hide BuddyAllocator.Valid, Inv, AllSorted;
      mem := Record(mem, c, x, bank, b);
      bank := b;
    }

    method MaybeAlloc(need: bool, blocks: nat) returns (x: int)
      requires buddy.Valid() && 1 <= blocks <= 16
      modifies buddy, buddy.freeList, buddy.next
      ensures buddy.Valid() && buddy.totalBlocks == old(buddy.totalBlocks) && buddy.maxOrder == old(buddy.maxOrder)
      ensures need ==> (x == -1 <==> !HasRun(old(buddy.Free()), CeilLog2(blocks), buddy.TopOrder()))
      ensures if !need || x == -1 then BankOf() == old(BankOf())
              else x >= 0 && Takes(old(BankOf()), Chunk(CeilLog2(blocks), x), BankOf())
    {
      hide BuddyAllocator.Valid, Inv, AllSorted;
      x := -1;
      if need {
        x := BuddyAlloc(blocks);
      }
    }

    /** One more object is live, exactly when there is one to be had. */
    method CacheAlloc(c: int) returns (objp: int)
      requires Valid()
      modifies `mem, `bank, buddy, buddy.freeList, buddy.next
      ensures Valid() && bank.k == old(bank.k) && bank.totalBlocks == old(bank.totalBlocks)
      ensures objp == -1 <==> !CanAlloc(old(mem), Blocks(old(bank).chunks, bank.k), c, bank.k)
      ensures objp == -1 ==> SameLiveObjects(old(mem), mem)
      ensures objp == -1 ==> bank == old(bank) || !HoldsObjects(old(mem), c)
      ensures SameCaches(old(mem), mem)
      ensures objp != -1 ==> objp >= SIZEOF_OBJECT && OneMore(old(mem), mem, objp, c)
      ensures objp != -1 ==> c in old(mem).lists && FromSlab(old(mem), mem, objp, c)
      ensures Roomy(old(mem), c) ==> bank == old(bank)
    {
      hide BuddyAllocator.Valid, Inv, AllSorted, FromSlab;
      objp := -1;
      if c in mem.caches {
        ghost var m := mem;
        objp := AllocFrom(c);
        StillBuffered(bufferCaches, m, mem);
      }
    }

    method AllocFrom(c: int) returns (objp: int)
      requires Core() && c in mem.caches
      modifies `mem, `bank, buddy, buddy.freeList, buddy.next
      ensures Core() && SameCaches(old(mem), mem) && bank.k == old(bank.k) && bank.totalBlocks == old(bank.totalBlocks)
      ensures objp == -1 <==> !CanAlloc(old(mem), Blocks(old(bank).chunks, bank.k), c, bank.k)
      ensures objp == -1 ==> SameLiveObjects(old(mem), mem)
      ensures objp == -1 ==> bank == old(bank) || !HoldsObjects(old(mem), c)
      ensures objp != -1 ==> objp >= SIZEOF_OBJECT && OneMore(old(mem), mem, objp, c)
      ensures objp != -1 ==> c in old(mem).lists && FromSlab(old(mem), mem, objp, c)
      ensures Roomy(old(mem), c) ==> bank == old(bank)
    {
      hide BuddyAllocator.Valid, Inv, AllSorted, FromSlab;
      SlabSizeKnown(mem, c, bank);
      var need := NeedsSlab(mem, c, bank);
      var x := MaybeAlloc(need, mem.caches[c].slabSize);
      objp := ServeIn(c, need, x, BankOf());
    }

    method ServeIn(c: int, need: bool, x: int, ghost b: Bank) returns (objp: int)
      requires Inv(mem, {}, -1, bank) && AllSorted(mem) && c in mem.caches && mem.caches[c].slabSize >= 1
      requires need <==> mem.lists[c].partial == [] && mem.lists[c].empty == []
      requires if !need || x == -1 then b == bank
               else x >= 0 && Takes(bank, Chunk(CeilLog2(mem.caches[c].slabSize), x), b)
      modifies `mem, `bank
      ensures bank == b && Inv(mem, {}, -1, bank) && AllSorted(mem) && SameCaches(old(mem), mem)
      ensures objp == -1 ==> SameLiveObjects(old(mem), mem)
      ensures objp != -1 ==> objp >= SIZEOF_OBJECT && OneMore(old(mem), mem, objp, c)
      ensures objp != -1 <==>
              HasFreeObject(old(mem), c)
              || (need && x != -1
                  && ObjectsPerSlab(old(mem).caches[c].objectSize, old(mem).caches[c].slabSize * BLOCK_SIZE) > 0)
      ensures objp != -1 ==> FromSlab(old(mem), mem, objp, c)
    {
      hide BuddyAllocator.Valid, Inv, AllSorted;
      mem, objp := Serve(mem, c, need, x, bank, b);
      bank := b;
    }

    /** Takes back a live object of the cache. */
    method CacheFree(c: int, objp: int)
      requires Valid()
      requires c in mem.caches && objp != -1 ==> LiveIn(mem, objp - SIZEOF_OBJECT, c)
      modifies `mem
      ensures Valid()
      ensures c in old(mem).caches && objp != -1 ==>
                OneMore(mem, old(mem), objp, c) && FreedLast(old(mem), mem, objp - SIZEOF_OBJECT)
      ensures c !in old(mem).caches || objp == -1 ==> mem == old(mem)
    {
      hide BuddyAllocator.Valid, Inv, AllSorted;
      if c in mem.caches && objp != -1 {
        ghost var m := mem;
        FreeIn(c, objp);
        StillBuffered(bufferCaches, m, mem);
      }
    }

    method FreeIn(c: int, objp: int)
      requires Inv(mem, {}, -1, bank) && AllSorted(mem) && LiveIn(mem, objp - SIZEOF_OBJECT, c)
      modifies `mem
      ensures Inv(mem, {}, -1, bank) && AllSorted(mem) && SameCaches(old(mem), mem) && OneMore(mem, old(mem), objp, c)
      ensures FreedLast(old(mem), mem, objp - SIZEOF_OBJECT)
    {
      hide BuddyAllocator.Valid, Inv, AllSorted;
      mem := GiveBack(mem, c, objp, bank);
    }

    /** The invariant while cache `d`, if any, is being taken apart. */
    ghost predicate Draining(d: int)
      reads `mem, `bank, buddy, buddy.freeList, buddy.next
    {
      buddy.Valid() && bank == BankOf() && Inv(mem, {}, d, bank) && AllSorted(mem)
    }

    /** Gives the first slab of a list back to the buddy allocator. */
    method FreeFirst(c: int, kind: Kind, counted: bool, ghost d: int) returns (ghost m1: Mem, ghost x: int)
      requires buddy.Valid() && bank == BankOf() && Inv(mem, {}, d, bank)
      requires c in mem.caches && mem.lists[c].On(kind) != []
      requires d == c || (counted && Spare(mem, mem.lists[c].On(kind)[0]))
      modifies `mem, `bank, buddy, buddy.freeList, buddy.next
      ensures buddy.Valid() && bank == BankOf() && Inv(mem, {}, d, bank) && SameRegion(old(bank), bank)
      ensures TakenOff(old(mem), m1, c, kind, x) && mem == LessSlab(m1, x, if counted then 1 else 0)
    {
      hide BuddyAllocator.Valid, Inv, AllSorted;
      var m, y := TakeOff(mem, c, kind, d, bank);
      m1, x := m, y;
      Surrender(m, y, counted, d);
    }

    /** kmem_slab_destroy on a slab that is on no list. */
    method Surrender(m: Mem, x: int, counted: bool, ghost d: int)
      requires buddy.Valid() && bank == BankOf() && Inv(m, {x}, d, bank)
      requires x in m.slabs && x >= 0 && m.slabs[x].cache in m.caches
      requires m.slabs[x].cache == d || (counted && Spare(m, x))
      modifies `mem, `bank, buddy, buddy.freeList, buddy.next
      ensures buddy.Valid() && bank == BankOf() && Inv(mem, {}, d, bank) && SameRegion(old(bank), bank)
      ensures mem == LessSlab(m, x, if counted then 1 else 0)
    {
      hide BuddyAllocator.Valid, Inv, AllSorted;
      MayReturn(m, m.slabs[x].cache, x, d, bank);
      BuddyFree(x, m.caches[m.slabs[x].cache].slabSize);
      Forget(m, x, counted, d, BankOf());
    }

    method Forget(m: Mem, x: int, counted: bool, ghost d: int, ghost b: Bank)
      requires Inv(m, {x}, d, bank) && x in m.slabs && x >= 0 && m.slabs[x].cache in m.caches
      requires m.slabs[x].cache == d || (counted && Spare(m, x))
      requires Returns(bank, SlabChunk(m, x), b)
      modifies `mem, `bank
      ensures bank == b && Inv(mem, {}, d, bank) && mem == LessSlab(m, x, if counted then 1 else 0)
    {
      hide BuddyAllocator.Valid, Inv, AllSorted;
      mem := DropSlab(m, x, counted, d, bank, b);
      bank := b;
    }

    /** Gives every slab of one list back; the counter follows if `counted`. */
    method FreeSlabs(c: int, kind: Kind, counted: bool, ghost d: int) returns (freed: nat)
      requires Draining(d) && c in mem.caches && (d == c || (counted && kind == Empty))
      modifies `mem, `bank, buddy, buddy.freeList, buddy.next
      ensures Draining(d) && SameRegion(old(bank), bank) && c in old(mem).lists
      ensures Drained(old(mem), mem, c, kind, |old(mem).lists[c].On(kind)|, counted)
      ensures freed == Times(|old(mem).lists[c].On(kind)|, old(mem).caches[c].slabSize)
    {
      hide BuddyAllocator.Valid, Inv, AllSorted;
      ghost var m0, j := mem, 0;
      freed := 0;
      NoneDrained(m0, c, kind, counted, d, bank);
      while Head(mem.caches[c], kind) != -1
        invariant Draining(d) && SameRegion(old(bank), bank)
        invariant c in m0.lists && c in m0.caches && 0 <= j <= |m0.lists[c].On(kind)|
        invariant Drained(m0, mem, c, kind, j, counted) && c in mem.caches
        invariant freed == Times(j, m0.caches[c].slabSize)
        decreases |m0.lists[c].On(kind)| - j
      {
        MoreToDrain(m0, mem, c, kind, j, counted, d, bank);
        freed := freed + mem.caches[c].slabSize;
        ghost var m := mem;
        ghost var m1, x := FreeFirst(c, kind, counted, d);
        DrainedOne(m0, m, m1, c, kind, j, counted, x);
        j := j + 1;
      }
      AllDrained(m0, mem, c, kind, j, counted, d, bank);
    }

    /** Gives back exactly the empty slabs, and only if the cache has not grown
        since the last call. */
    method CacheShrink(c: int) returns (freed: int)
      requires Valid()
      modifies `mem, `bank, buddy, buddy.freeList, buddy.next
      ensures Valid() && SameRegion(old(bank), bank) && SameLiveObjects(old(mem), mem)
      ensures c in old(mem).caches ==> Shrunk(old(mem), mem, c, freed)
      ensures c !in old(mem).caches ==> freed == -1 && mem == old(mem)
    {
      hide BuddyAllocator.Valid, Inv, AllSorted;
      freed := -1;
      if c in mem.caches {
        ghost var m := mem;
        freed := ShrinkOrNote(c);
        StillBuffered(bufferCaches, m, mem);
      }
    }

    method ShrinkOrNote(c: int) returns (freed: int)
      requires Core() && c in mem.caches
      modifies `mem, `bank, buddy, buddy.freeList, buddy.next
      ensures Core() && SameRegion(old(bank), bank) && SameLiveObjects(old(mem), mem) && SameCaches(old(mem), mem)
      ensures Shrunk(old(mem), mem, c, freed)
    {
      hide BuddyAllocator.Valid, AllSorted;
      if mem.caches[c].numGrown > mem.caches[c].lastShrinkState {
        Note(c, mem.caches[c].(lastShrinkState := mem.caches[c].numGrown));
        freed := 0;
      } else {
        freed := ShrinkIn(c);
      }
    }

    method Note(c: int, ca: Cache)
      requires Core() && c in mem.caches && SameCount(mem.caches[c], ca) && SameHeads(mem.caches[c], ca)
      modifies `mem
      ensures Core() && mem == old(mem).(caches := old(mem).caches[c := ca])
      ensures SameLiveObjects(old(mem), mem) && SameCaches(old(mem), mem)
    {
      hide BuddyAllocator.Valid, Inv, AllSorted;
      NoteIn(c, ca);
    }

    method NoteIn(c: int, ca: Cache)
      requires Inv(mem, {}, -1, bank) && AllSorted(mem)
      requires c in mem.caches && SameCount(mem.caches[c], ca) && SameHeads(mem.caches[c], ca)
      modifies `mem
      ensures Inv(mem, {}, -1, bank) && AllSorted(mem) && mem == old(mem).(caches := old(mem).caches[c := ca])
      ensures SameLiveObjects(old(mem), mem) && SameCaches(old(mem), mem)
    {
      hide BuddyAllocator.Valid, Inv, AllSorted;
      Noted(mem, c, ca, bank);
      mem := mem.(caches := mem.caches[c := ca]);
    }

    method ShrinkIn(c: int) returns (freed: nat)
      requires Core() && c in mem.caches
      modifies `mem, `bank, buddy, buddy.freeList, buddy.next
      ensures Core() && SameRegion(old(bank), bank) && SameLiveObjects(old(mem), mem) && SameCaches(old(mem), mem)
      ensures c in old(mem).lists && SlabsGone(old(mem), mem, old(mem).lists[c].empty)
      ensures freed == Times(|old(mem).lists[c].empty|, old(mem).caches[c].slabSize)
      ensures mem.lists == old(mem).lists[c := old(mem).lists[c].(empty := [])]
    {
      hide BuddyAllocator.Valid, Inv, AllSorted;
      freed := FreeEmpty(c);
      Note(c, if freed > 0 then mem.caches[c].(numShrunk := mem.caches[c].numShrunk + 1) else mem.caches[c]);
    }

    method FreeEmpty(c: int) returns (freed: nat)
      requires Core() && c in mem.caches
      modifies `mem, `bank, buddy, buddy.freeList, buddy.next
      ensures Core() && SameRegion(old(bank), bank) && SameLiveObjects(old(mem), mem) && SameCaches(old(mem), mem)
      ensures c in old(mem).lists && SlabsGone(old(mem), mem, old(mem).lists[c].empty)
      ensures freed == Times(|old(mem).lists[c].empty|, old(mem).caches[c].slabSize)
      ensures mem.lists == old(mem).lists[c := old(mem).lists[c].(empty := [])]
    {
      hide BuddyAllocator.Valid, Inv, AllSorted;
      ghost var m0, b0 := mem, bank;
      freed := FreeSlabs(c, Empty, true, -1);
      DrainedLive(m0, mem, c, b0);
    }

    /** Gives back everything the cache holds; the live objects of other caches stay. */
    method CacheDestroy(c: int)
      requires Valid() && c !in bufferCaches
      modifies `mem, `bank, buddy, buddy.freeList, buddy.next
      ensures Valid() && SameRegion(old(bank), bank)
      ensures c !in mem.caches && OthersKept(old(mem), mem, c)
      ensures mem.caches.Keys == old(mem).caches.Keys - {c}
    {
      hide BuddyAllocator.Valid, Inv, AllSorted;
      if c in mem.caches {
        ghost var m := mem;
        DestroyIn(c);
        BufferedWithout(bufferCaches, m, mem, c);
      } else {
        KeptItself(mem, c);
      }
    }

    method DestroyIn(c: int)
      requires Core() && c in mem.caches
      modifies `mem, `bank, buddy, buddy.freeList, buddy.next
      ensures Core() && SameRegion(old(bank), bank) && OthersKept(old(mem), mem, c)
      ensures mem.caches.Keys == old(mem).caches.Keys - {c}
    {
      hide BuddyAllocator.Valid, Inv, AllSorted;
      ghost var m0 := mem;
      Dying(mem, c, bank);
      FreeAll(c);
      DropCache(c, m0);
    }

    /** The three loops of kmem_cache_destroy. */
    method FreeAll(c: int)
      requires Draining(c) && c in mem.caches
      modifies `mem, `bank, buddy, buddy.freeList, buddy.next
      ensures Draining(c) && SameRegion(old(bank), bank) && OthersKept(old(mem), mem, c)
      ensures mem.caches.Keys == old(mem).caches.Keys && c in mem.caches && c >= 0
      ensures forall x :: x in mem.slabs ==> mem.slabs[x].cache != c
    {
      hide BuddyAllocator.Valid, Inv, AllSorted;
      ghost var m0 := mem;
      KeptItself(mem, c);
      FreeKind(c, Empty, m0);
      FreeKind(c, Partial, m0);
      FreeKind(c, Full, m0);
      NothingLeft(mem, c, bank);
    }

    method FreeKind(c: int, kind: Kind, ghost m0: Mem)
      requires Draining(c) && c in mem.caches && OthersKept(m0, mem, c)
      modifies `mem, `bank, buddy, buddy.freeList, buddy.next
      ensures Draining(c) && SameRegion(old(bank), bank) && OthersKept(m0, mem, c)
      ensures mem.caches.Keys == old(mem).caches.Keys && c in old(mem).lists
      ensures mem.lists == old(mem).lists[c := old(mem).lists[c].With(kind, [])]
    {
      hide BuddyAllocator.Valid, AllSorted;
      ghost var m, b := mem, bank;
      var n := FreeSlabs(c, kind, false, c);
      DrainedKeeps(m, mem, c, kind, b);
      KeptTwice(m0, m, mem, c);
    }

    method DropCache(c: int, ghost m0: Mem)
      requires Draining(c) && c in mem.caches && c >= 0 && OthersKept(m0, mem, c)
      requires forall x :: x in mem.slabs ==> mem.slabs[x].cache != c
      modifies `mem, `bank, buddy, buddy.freeList, buddy.next
      ensures Core() && SameRegion(old(bank), bank) && OthersKept(m0, mem, c)
      ensures mem.caches.Keys == old(mem).caches.Keys - {c}
    {
      hide BuddyAllocator.Valid, Inv, AllSorted;
      OwnCache(mem, c, bank);
      BuddyFree(c, 1);
      ForgetCache(c, BankOf(), m0);
    }

    method ForgetCache(c: nat, ghost b: Bank, ghost m0: Mem)
      requires Inv(mem, {}, c, bank) && AllSorted(mem) && c in mem.caches && Returns(bank, Chunk(0, c), b)
      requires forall x :: x in mem.slabs ==> mem.slabs[x].cache != c
      requires OthersKept(m0, mem, c)
      modifies `mem, `bank
      ensures bank == b && Inv(mem, {}, -1, bank) && AllSorted(mem) && OthersKept(m0, mem, c)
      ensures mem.caches.Keys == old(mem).caches.Keys - {c}
    {
      hide BuddyAllocator.Valid, Inv, AllSorted;
      InvCacheDropped(mem, bank, b, c);
      KeptWithout(m0, mem, c);
      mem := LessCache(mem, c);
      bank := b;
    }

    /** A new cache, exactly when the size is one the allocator serves and a block is left for its record. */
    method CacheCreate(size: nat) returns (c: int)
      requires Valid()
      modifies `mem, `bank, buddy, buddy.freeList, buddy.next
      ensures Valid() && SameRegion(old(bank), bank) && SameLiveObjects(old(mem), mem)
      ensures c == -1 <==>
              size == 0 || size > MAX_BUFFER_SIZE || !HasRun(Blocks(old(bank).chunks, bank.k), 0, bank.k)
      ensures c == -1 ==> mem == old(mem) && bank == old(bank)
      ensures c != -1 ==> Created(old(mem), mem, c, size)
                          && (CanAlloc(mem, Blocks(bank.chunks, bank.k), c, bank.k)
                              <==> CreateServes(Blocks(old(bank).chunks, bank.k), size, bank.k))
    {
      hide BuddyAllocator.Valid, Inv, AllSorted;
      c := -1;
      if size != 0 && size <= MAX_BUFFER_SIZE {
        c := CreateIn(size);
      }
    }

    method CreateIn(size: nat) returns (c: int)
      requires Valid()
      modifies `mem, `bank, buddy, buddy.freeList, buddy.next
      ensures Valid() && SameRegion(old(bank), bank) && SameLiveObjects(old(mem), mem)
      ensures c == -1 <==> !HasRun(Blocks(old(bank).chunks, bank.k), 0, bank.k)
      ensures c == -1 ==> mem == old(mem) && bank == old(bank)
      ensures c != -1 ==> Created(old(mem), mem, c, size)
                          && (CanAlloc(mem, Blocks(bank.chunks, bank.k), c, bank.k)
                              <==> CreateServes(Blocks(old(bank).chunks, bank.k), size, bank.k))
    {
      hide BuddyAllocator.Valid, AllSorted;
      ghost var m := mem;
      c := AddCache(size);
      if c != -1 {
        ghost var b := bank;
        GrowNew(c, size, m);
        assert CacheOk(mem, c, -1);
        CreatedServes(old(bank), b, c, mem, size, c);
      }
    }

    /** The first slab of a new cache; without it the cache only starts with its error flag set. */
    method GrowNew(c: int, ghost size: nat, ghost m: Mem)
      requires Core() && Created(m, mem, c, size) && mem.slabs == m.slabs && SameLiveObjects(m, mem)
      requires Buffered(bufferCaches, m) && forall x :: x in mem.slabs ==> mem.slabs[x].cache != c
      modifies `mem, `bank, buddy, buddy.freeList, buddy.next
      ensures Valid() && SameRegion(old(bank), bank) && SameLiveObjects(m, mem) && Created(m, mem, c, size)
      ensures CanAlloc(mem, Blocks(bank.chunks, bank.k), c, bank.k)
              <==> HoldsObjects(mem, c)
                   && HasRun(Blocks(old(bank).chunks, bank.k), CeilLog2(mem.caches[c].slabSize), bank.k)
    {
      hide BuddyAllocator.Valid, Inv, AllSorted;
      ghost var m1, b := mem, bank;
      var ok := Grow(c);
      FirstSlab(m1, mem, Blocks(b.chunks, b.k), Blocks(bank.chunks, bank.k), c, ok, bank.k);
      CreatedThenGrew(m, m1, mem, c, size, ok);
      StillBuffered(bufferCaches, m, mem);
    }

    method AddCache(size: nat) returns (c: int)
      requires Core()
      modifies `mem, `bank, buddy, buddy.freeList, buddy.next
      ensures Core() && SameRegion(old(bank), bank) && SameLiveObjects(old(mem), mem)
      ensures c == -1 <==> !HasRun(Blocks(old(bank).chunks, bank.k), 0, bank.k)
      ensures c == -1 ==> mem == old(mem) && bank == old(bank)
      ensures c != -1 ==> Created(old(mem), mem, c, size) && mem.slabs == old(mem).slabs
                          && c >= 0 && Takes(old(bank), Chunk(0, c), bank) && Good(old(bank).chunks, bank.k)
                          && forall x :: x in mem.slabs ==> mem.slabs[x].cache != c
    {
      hide Inv, AllSorted;
      var blocks := CalculateSlabSize(size);
      c := BuddyAlloc(1);
      RecordCache(c, size, blocks, BankOf());
    }

    method RecordCache(c: int, size: nat, blocks: nat, ghost b: Bank)
      requires Inv(mem, {}, -1, bank) && AllSorted(mem) && IsSlabSize(size, blocks)
      requires if c == -1 then b == bank else c >= 0 && Takes(bank, Chunk(0, c), b)
      modifies `mem, `bank
      ensures bank == b && Inv(mem, {}, -1, bank) && AllSorted(mem) && SameLiveObjects(old(mem), mem)
      ensures c == -1 ==> mem == old(mem)
      ensures c != -1 ==> Created(old(mem), mem, c, size) && mem.slabs == old(mem).slabs
                          && forall x :: x in mem.slabs ==> mem.slabs[x].cache != c
    {
      hide BuddyAllocator.Valid, AllSorted;
      if c != -1 {
        var ca := Cache(size, blocks, -1, -1, -1, 0, 0, 0, 0, 0, false);
        InvCacheAdded(mem, bank, b, c, ca);
        NewCacheLive(mem, c, ca);
        mem := NewCache(mem, c, ca);
        bank := b;
      }
    }

    /** Serves an object of at least `size` bytes.  It never does above 32768
        bytes, although sizes up to 131072 are accepted; below, it does exactly when
        the size class of `size` could serve before the call. */
    method Kmalloc(size: nat) returns (objp: int)
      requires Valid()
      modifies `mem, `bank, `bufferCaches, buddy, buddy.freeList, buddy.next
      ensures Valid() && SameRegion(old(bank), bank)
      ensures objp == -1 ==> SameLiveObjects(old(mem), mem)
      ensures objp != -1 ==> 1 <= size <= MAX_SERVED && Served(old(mem), mem, objp, size)
      ensures forall i :: 0 <= i < NUM_BUFFER_CACHES && 1 <= size <= MAX_SERVED && ClassOf(size, i) ==>
                (objp != -1 <==> CanServe(old(mem), old(bufferCaches), Blocks(old(bank).chunks, bank.k), i, bank.k))
    {
      hide BuddyAllocator.Valid, Inv, AllSorted;
      objp := -1;
      if 1 <= size <= MAX_BUFFER_SIZE {
        ghost var index;
        objp, index := KmallocIn(size);
        forall i | 0 <= i < NUM_BUFFER_CACHES && ClassOf(size, i) ensures i == index {
          OneClass(size, i, index);
        }
      }
    }

    method KmallocIn(size: nat) returns (objp: int, ghost i: nat)
      requires Valid() && 1 <= size <= MAX_BUFFER_SIZE
      modifies `mem, `bank, `bufferCaches, buddy, buddy.freeList, buddy.next
      ensures Valid() && SameRegion(old(bank), bank) && i < NUM_BUFFER_CACHES && ClassOf(size, i)
      ensures objp == -1 ==> SameLiveObjects(old(mem), mem)
      ensures objp != -1 ==> size <= MAX_SERVED && Served(old(mem), mem, objp, size)
      ensures objp != -1 <==> CanServe(old(mem), old(bufferCaches), Blocks(old(bank).chunks, bank.k), i, bank.k)
    {
      hide BuddyAllocator.Valid, Inv, AllSorted;
      var rounded;
      rounded, i := RoundUpPow2(size);
      var index := GetBufferCacheIndex(rounded, i);
      ghost var m := mem;
      EnsureBuffer(index, rounded);
      objp := BufferAlloc(index, size, m);
    }

    /** Creates the buffer cache of a size class on its first use. */
    method EnsureBuffer(index: nat, rounded: nat)
      requires Valid() && index < NUM_BUFFER_CACHES && rounded == Pow2(index + 5) <= MAX_BUFFER_SIZE
      modifies `mem, `bank, `bufferCaches, buddy, buddy.freeList, buddy.next
      ensures Valid() && SameRegion(old(bank), bank) && Steady(old(mem), mem)
      ensures Readied(old(mem), old(bufferCaches), Blocks(old(bank).chunks, bank.k), index)
    {
      hide BuddyAllocator.Valid, Inv, AllSorted;
      if bufferCaches[index] == -1 {
        CreateBuffer(index, rounded);
      }
    }

    /** The size class has a cache that can serve exactly if the class could serve before. */
    ghost predicate Readied(m: Mem, buffers: seq<int>, F: set<int>, index: nat)
      requires index < |buffers| == |bufferCaches|
      reads this
    {
      CanServe(m, buffers, F, index, bank.k) <==>
      bufferCaches[index] != -1 && CanAlloc(mem, Blocks(bank.chunks, bank.k), bufferCaches[index], bank.k)
    }

    method CreateBuffer(index: nat, rounded: nat)
      requires Valid() && index < NUM_BUFFER_CACHES && rounded == Pow2(index + 5) <= MAX_BUFFER_SIZE
      requires bufferCaches[index] == -1
      modifies `mem, `bank, `bufferCaches, buddy, buddy.freeList, buddy.next
      ensures Valid() && SameRegion(old(bank), bank) && Steady(old(mem), mem)
      ensures Readied(old(mem), old(bufferCaches), Blocks(old(bank).chunks, bank.k), index)
    {
      hide BuddyAllocator.Valid, Inv, AllSorted;
      var c := CacheCreate(rounded);
      if c == -1 {
        NoRecord(Blocks(bank.chunks, bank.k), rounded, bank.k);
      }
      SetBuffer(index, c);
    }

    method SetBuffer(index: nat, c: int)
      requires Valid() && index < NUM_BUFFER_CACHES
      requires c != -1 ==> c in mem.caches && mem.caches[c].objectSize == Pow2(index + 5)
      modifies `bufferCaches
      ensures Valid() && bufferCaches == old(bufferCaches)[index := c]
    {
      hide BuddyAllocator.Valid, Inv, AllSorted;
      BufferSet(bufferCaches, mem, index, c);
      bufferCaches := bufferCaches[index := c];
    }

    method BufferAlloc(index: nat, ghost size: nat, ghost m: Mem) returns (objp: int)
      requires Valid() && index < NUM_BUFFER_CACHES && Steady(m, mem) && 1 <= size && ClassOf(size, index)
      modifies `mem, `bank, buddy, buddy.freeList, buddy.next
      ensures Valid() && SameRegion(old(bank), bank)
      ensures objp == -1 ==> SameLiveObjects(m, mem)
      ensures objp != -1 ==> size <= MAX_SERVED && Served(m, mem, objp, size)
      ensures objp != -1 <==> bufferCaches[index] != -1
                              && CanAlloc(old(mem), Blocks(old(bank).chunks, bank.k), bufferCaches[index], bank.k)
    {
      hide BuddyAllocator.Valid, Inv, AllSorted;
      objp := -1;
      if bufferCaches[index] != -1 {
        objp := AllocServed(bufferCaches[index], index, size, m);
      }
    }

    method AllocServed(c: int, ghost index: nat, ghost size: nat, ghost m: Mem) returns (objp: int)
      requires Valid() && c in mem.caches && mem.caches[c].objectSize == Pow2(index + 5) && Steady(m, mem)
      requires 1 <= size && ClassOf(size, index)
      modifies `mem, `bank, buddy, buddy.freeList, buddy.next
      ensures Valid() && SameRegion(old(bank), bank)
      ensures objp == -1 ==> SameLiveObjects(m, mem)
      ensures objp != -1 ==> size <= MAX_SERVED && Served(m, mem, objp, size)
      ensures objp != -1 <==> CanAlloc(old(mem), Blocks(old(bank).chunks, bank.k), c, bank.k)
    {
      hide BuddyAllocator.Valid, Inv, AllSorted;
      ghost var m1, b := mem, bank;
      objp := CacheAlloc(c);
      ServedOrNot(m, m1, mem, b, c, index, size, objp);
    }

    /** Finds the cache of the object through its slab, and takes the object back. */
    method Kfree(objp: int)
      requires Valid() && (objp != -1 ==> LiveObject(mem, objp - SIZEOF_OBJECT))
      modifies `mem
      ensures Valid() && (objp == -1 ==> mem == old(mem))
      ensures objp != -1 ==> OneMoreObject(mem, old(mem), objp)
    {
      hide BuddyAllocator.Valid, Inv, AllSorted;
      if objp != -1 {
        var cache := FindCache(mem, objp - SIZEOF_OBJECT, bank);
        CacheFree(cache, objp);
      }
    }
  }

  ghost predicate Spare(m: Mem, x: int) {
    x in m.slabs ==> m.slabs[x].numFree == m.slabs[x].numMax
  }

  /** The first slab to take from without growing: partial ones before empty ones. */
  method Front(m: Mem, c: int, ghost b: Bank) returns (x: int, kind: Kind)
    requires Inv(m, {}, -1, b) && AllSorted(m) && c in m.caches
    ensures kind != Full && c in m.lists && m.caches[c].slabSize >= 1
    ensures x != -1 ==> OnFront(m, c, kind, x) && (kind == Partial <==> m.lists[c].partial != [])
                        && (m.slabs[x].numFree > 0 <==> HasFreeObject(m, c))
                        && (m.slabs[x].numFree == 0 ==>
                              ObjectsPerSlab(m.caches[c].objectSize, m.caches[c].slabSize * BLOCK_SIZE) == 0)
    ensures x == -1 ==> !HasFreeObject(m, c) && m.lists[c].partial == [] && m.lists[c].empty == []
  {
    HeadsOfLists(m, c, b);
    if m.caches[c].partial != -1 {
      FrontPartial(m, c, b);
      x, kind := m.caches[c].partial, Partial;
      assert Head(m.caches[c], Partial) == At(m.lists[c].On(Partial), 0);
    } else if m.caches[c].empty != -1 {
      assert Head(m.caches[c], Partial) == -1;
      assert Head(m.caches[c], Empty) == At(m.lists[c].On(Empty), 0);
      FrontEmpty(m, c, b);
      x, kind := m.caches[c].empty, Empty;
    } else {
      assert Head(m.caches[c], Partial) == -1 && Head(m.caches[c], Empty) == -1;
      NoneFree(m, c, b);
      x, kind := -1, Empty;
    }
  }

  /** Slab `x` is the first on one of the lists of cache `c`. */
  ghost predicate OnFront(m: Mem, c: int, kind: Kind, x: int) {
    x in m.slabs && c in m.lists && m.lists[c].On(kind) != [] && m.lists[c].On(kind)[0] == x
  }

  /** What kmem_cache_grow records once buddy_alloc has answered `x`. */
  method Record(m: Mem, c: int, x: int, ghost b: Bank, ghost b': Bank) returns (m': Mem)
    requires Inv(m, {}, -1, b) && AllSorted(m) && c in m.caches
    requires if x == -1 then b' == b else x >= 0 && Takes(b, Chunk(CeilLog2(m.caches[c].slabSize), x), b')
    ensures Inv(m', {}, -1, b') && AllSorted(m') && SameLiveObjects(m, m')
    ensures x != -1 ==> Grew(m, m', c, x)
    ensures x == -1 ==> m'.slabs == m.slabs && m'.caches == m.caches[c := m.caches[c].(errorState := true)]
  {
    if x == -1 {
      m' := Flag(m, c, b);
    } else {
      m' := InstallSlab(m, c, x, b, b');
    }
  }

  method Flag(m: Mem, c: int, ghost b: Bank) returns (m': Mem)
    requires Inv(m, {}, -1, b) && AllSorted(m) && c in m.caches
    ensures m'.slabs == m.slabs && m'.caches == m.caches[c := m.caches[c].(errorState := true)]
    ensures Inv(m', {}, -1, b) && AllSorted(m') && SameLiveObjects(m, m') && SameCaches(m, m')
  {
    Noted(m, c, m.caches[c].(errorState := true), b);
    m' := m.(caches := m.caches[c := m.caches[c].(errorState := true)]);
  }

  /** Flags and statistics are in nobody's invariant. */
  lemma Noted(m: Mem, c: int, ca: Cache, b: Bank)
    requires Inv(m, {}, -1, b) && AllSorted(m) && c in m.caches
    requires SameCount(m.caches[c], ca) && SameHeads(m.caches[c], ca)
    ensures var m' := m.(caches := m.caches[c := ca]);
            Inv(m', {}, -1, b) && AllSorted(m') && SameLiveObjects(m, m') && SameCaches(m, m')
  {
    var m' := m.(caches := m.caches[c := ca]);
    LinksByHeads(m.caches, m'.caches, m.slabs, m.lists, {});
    InvRelinked(m, m', {}, {}, -1, b);
    SameLive(m, m');
  }
}
