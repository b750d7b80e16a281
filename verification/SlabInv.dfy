/** The invariant of the whole slab layer over the buddy allocator, as a
    predicate on values, and how each elementary change keeps it. */
module SlabInv {
  import opened Bits
  import opened Common
  import opened Chunks
  import opened Buddy
  import opened Sums
  import opened SlabState

  /** The records in memory, with the shape of the lists threaded through them. */
  datatype Mem = Mem(
    caches: map<int, Cache>, slabs: map<int, Slab>, objects: map<int, Object>,
    ghost lists: map<int, Lists>, ghost free: map<int, seq<int>>)

  ghost function UsedMap(slabs: map<int, Slab>, c: int): map<int, int> {
    map x | x in slabs && slabs[x].cache == c :: slabs[x].numMax - slabs[x].numFree
  }

  /** num_slabs counts the slabs of a cache and num_allocated its live objects. */
  ghost predicate CountOk(ca: Cache, slabs: map<int, Slab>, c: int) {
    ca.numSlabs == |UsedMap(slabs, c)| && ca.numAllocated == Sum(UsedMap(slabs, c))
  }

  ghost predicate ObjectsOk(m: Mem) {
    && m.free.Keys == m.slabs.Keys
    && (forall x :: x in m.slabs ==>
          && m.slabs[x].cache in m.caches
          && SlabOk(x, m.slabs[x], m.caches[m.slabs[x].cache], m.objects, m.free[x]))
  }

  ghost function SlabChunk(m: Mem, x: int): Chunk
    requires x >= 0 && x in m.slabs && m.slabs[x].cache in m.caches
  {
    Chunk(CeilLog2(m.caches[m.slabs[x].cache].slabSize), x)
  }

  /** The runs of blocks the layer holds: one block a cache, one run a slab. */
  ghost function Owned(m: Mem): set<Chunk> {
    (set c | c in m.caches && c >= 0 :: Chunk(0, c))
    + (set x | x in m.slabs && x >= 0 && m.slabs[x].cache in m.caches :: SlabChunk(m, x))
  }

  /** Lists, objects and counters agree; `loose` slabs are on no list, and the
      counters of the cache being destroyed, if any, are no longer kept. */
  ghost predicate Sound(m: Mem, loose: set<int>, dying: int) {
    && Links(m.caches, m.slabs, m.lists, loose)
    && ObjectsOk(m)
    && m.caches.Keys !! m.slabs.Keys
    && (forall c :: c in m.caches ==> CacheOk(m, c, dying))
  }

  ghost predicate CacheOk(m: Mem, c: int, dying: int)
    requires c in m.caches
  {
    && c >= 0 && IsSlabSize(m.caches[c].objectSize, m.caches[c].slabSize)
    && (c != dying ==> CountOk(m.caches[c], m.slabs, c))
  }

  /** The number of blocks a cache holds: its own record and its slabs. */
  ghost function HeldBy(slabs: map<int, Slab>, c: int, slabSize: nat): int {
    1 + Times(|UsedMap(slabs, c)|, slabSize)
  }

  ghost function Held(m: Mem): map<int, int> {
    map c | c in m.caches :: HeldBy(m.slabs, c, m.caches[c].slabSize)
  }

  /** The buddy allocator's free chunks `C` cover exactly the blocks the layer does not hold. */
  ghost predicate Backed(m: Mem, C: set<Chunk>, k: nat) {
    Accounts(C, Owned(m), k)
  }

  /** num_free decides the list a slab is on. */
  ghost predicate Sorted(slabs: map<int, Slab>, l: Lists) {
    && (forall x :: x in l.empty && x in slabs ==> slabs[x].numFree == slabs[x].numMax)
    && (forall x :: x in l.partial && x in slabs ==> 0 < slabs[x].numFree < slabs[x].numMax)
    && (forall x :: x in l.full && x in slabs ==> 0 == slabs[x].numFree < slabs[x].numMax)
  }

  ghost predicate AllSorted(m: Mem) {
    forall c :: c in m.lists ==> Sorted(m.slabs, m.lists[c])
  }

  // ---- Live objects ----

  ghost predicate IsLive(m: Mem, a: int, x: int) {
    && x in m.slabs && m.slabs[x].cache in m.caches && x in m.free && a !in m.free[x]
    && IsObject(a, x, m.caches[m.slabs[x].cache].objectSize, m.slabs[x].numMax)
  }

  ghost predicate LiveIn(m: Mem, a: int, c: int) {
    exists x :: IsLive(m, a, x) && m.slabs[x].cache == c
  }

  /** The bytes of a live object lie inside its slab's run, behind the header. */
  lemma LiveInside(m: Mem, loose: set<int>, d: int, a: int, x: int)
    requires Sound(m, loose, d) && IsLive(m, a, x)
    ensures x >= 0 && x * BLOCK_SIZE + SIZEOF_SLAB <= a
    ensures a + SIZEOF_OBJECT + m.caches[m.slabs[x].cache].objectSize
            <= (x + Pow2(SlabChunk(m, x).order)) * BLOCK_SIZE
    ensures a in m.objects && m.objects[a].slab == x
  {
    var ca := m.caches[m.slabs[x].cache];
    assert SlabOk(x, m.slabs[x], ca, m.objects, m.free[x]);
    var i :| 0 <= i < m.slabs[x].numMax && a == ObjAddr(x, i, ca.objectSize);
    assert ObjectOk(x, i, ca.objectSize, m.objects, m.free[x]);
    ObjectsApart(x, i, i + 1, ca.objectSize, ca.slabSize);
    SlabOrder(ca.objectSize, ca.slabSize);
  }

  /** The block a byte address falls in belongs to the run of the slab it is an object of. */
  lemma ObjectBlock(m: Mem, a: int, x: int)
    requires x in m.slabs && m.slabs[x].cache in m.caches
    requires SlabOk(x, m.slabs[x], m.caches[m.slabs[x].cache], m.objects, if x in m.free then m.free[x] else [])
    requires IsObject(a, x, m.caches[m.slabs[x].cache].objectSize, m.slabs[x].numMax)
    ensures a >= 0 && InChunk(a / BLOCK_SIZE, SlabChunk(m, x))
  {
    var ca := m.caches[m.slabs[x].cache];
    var i :| 0 <= i < m.slabs[x].numMax && a == ObjAddr(x, i, ca.objectSize);
    ObjectsApart(x, i, i + 1, ca.objectSize, ca.slabSize);
    SlabOrder(ca.objectSize, ca.slabSize);
  }

  /** No address is an object of two slabs. */
  lemma ObjectOfOneSlab(m: Mem, loose: set<int>, d: int, C: set<Chunk>, k: nat, a: int, x: int, y: int)
    requires Sound(m, loose, d) && Backed(m, C, k) && x in m.slabs && y in m.slabs
    requires IsObject(a, x, m.caches[m.slabs[x].cache].objectSize, m.slabs[x].numMax)
    requires IsObject(a, y, m.caches[m.slabs[y].cache].objectSize, m.slabs[y].numMax)
    ensures x == y
  {
    ObjectBlock(m, a, x);
    ObjectBlock(m, a, y);
    assert SlabChunk(m, x) in Owned(m) && SlabChunk(m, y) in Owned(m);
  }

  /** Two different live objects, of whatever caches, share no byte. */
  lemma LiveObjectsDisjoint(m: Mem, loose: set<int>, d: int, C: set<Chunk>, k: nat, a: int, x: int, b: int, y: int)
    requires Sound(m, loose, d) && Backed(m, C, k) && IsLive(m, a, x) && IsLive(m, b, y) && a < b
    ensures a + SIZEOF_OBJECT + m.caches[m.slabs[x].cache].objectSize <= b
  {
    LiveInside(m, loose, d, a, x);
    LiveInside(m, loose, d, b, y);
    if x == y {
      var ca := m.caches[m.slabs[x].cache];
      var i :| 0 <= i < m.slabs[x].numMax && a == ObjAddr(x, i, ca.objectSize);
      var j :| 0 <= j < m.slabs[x].numMax && b == ObjAddr(x, j, ca.objectSize);
      assert SlabOk(x, m.slabs[x], ca, m.objects, m.free[x]);
      if j < i {
        ObjectsApart(x, j, i, ca.objectSize, ca.slabSize);
        assert false;
      }
      ObjectsApart(x, i, j, ca.objectSize, ca.slabSize);
    } else {
      var p, q := SlabChunk(m, x), SlabChunk(m, y);
      assert p in Owned(m) && q in Owned(m);
      RunsApart(Owned(m), p, q);
    }
  }

  lemma RunsApart(L: set<Chunk>, p: Chunk, q: Chunk)
    requires Disjoint(L) && p in L && q in L && p != q
    ensures p.start + Pow2(p.order) <= q.start || q.start + Pow2(q.order) <= p.start
  {
    assert InChunk(p.start, p) && InChunk(q.start, q);
  }

  /** The block of a cache record is not in the run of a slab. */
  lemma CacheApart(m: Mem, loose: set<int>, d: int, c: int, x: int, k: nat)
    requires Sound(m, loose, d) && Tiling(Owned(m), k) && c in m.caches && x in m.slabs && x >= 0
    ensures !InChunk(c, SlabChunk(m, x))
  {
    assert CacheOk(m, c, d);
    var own := Chunk(0, c);
    assert own in Owned(m) && SlabChunk(m, x) in Owned(m) && InChunk(c, own);
    assert c != x;
  }

  /** A live object touches no cache record, no slab header and no free block. */
  lemma LiveObjectsMissRecords(m: Mem, loose: set<int>, d: int, C: set<Chunk>, k: nat, a: int, x: int, byte: int)
    requires Sound(m, loose, d) && Backed(m, C, k) && IsLive(m, a, x)
    requires a <= byte < a + SIZEOF_OBJECT + m.caches[m.slabs[x].cache].objectSize
    ensures byte >= 0 && byte / BLOCK_SIZE !in Blocks(C, k)
    ensures byte / BLOCK_SIZE !in m.caches
    ensures forall y :: y in m.slabs ==> !(y * BLOCK_SIZE <= byte < y * BLOCK_SIZE + SIZEOF_SLAB)
  {
    LiveInside(m, loose, d, a, x);
    var ch, block := SlabChunk(m, x), byte / BLOCK_SIZE;
    assert ch in Owned(m) && InChunk(block, ch);
    ChunkInBlocks(Owned(m), k, ch);
    assert block in Run(ch);
    forall c | c in m.caches ensures c != block {
      CacheApart(m, loose, d, c, x, k);
    }
    forall y | y in m.slabs ensures !(y * BLOCK_SIZE <= byte < y * BLOCK_SIZE + SIZEOF_SLAB) {
      assert SlabOk(y, m.slabs[y], m.caches[m.slabs[y].cache], m.objects, m.free[y]);
      assert SlabChunk(m, y) in Owned(m) && InChunk(y, SlabChunk(m, y));
      if y != x {
        assert !InChunk(y, ch);
      }
    }
  }

  // ---- Elementary changes ----

  /** The same caches and slabs, of the same sizes. */
  ghost predicate SameExtents(m: Mem, m': Mem) {
    && m.caches.Keys == m'.caches.Keys && m.slabs.Keys == m'.slabs.Keys
    && (forall c :: c in m.caches ==> SameSizes(m.caches[c], m'.caches[c]))
    && (forall x :: x in m.slabs ==> m'.slabs[x].cache == m.slabs[x].cache && m'.slabs[x].numMax == m.slabs[x].numMax)
  }

  predicate SameSizes(ca: Cache, ca': Cache) {
    ca'.objectSize == ca.objectSize && ca'.slabSize == ca.slabSize
  }

  lemma SameOwned(m: Mem, m': Mem)
    requires SameExtents(m, m')
    ensures Owned(m') == Owned(m)
  {
    assert forall x :: x in m.slabs && x >= 0 && m.slabs[x].cache in m.caches ==> SlabChunk(m', x) == SlabChunk(m, x);
  }

  /** Relinking lists changes nothing that is counted, owned or live. */
  lemma OnlyRelinked(m: Mem, m': Mem, loose: set<int>, loose': set<int>, d: int)
    requires Sound(m, loose, d) && Links(m'.caches, m'.slabs, m'.lists, loose')
    requires SameCounts(m.caches, m'.caches) && SameBodies(m.slabs, m'.slabs)
    requires m'.objects == m.objects && m'.free == m.free
    ensures Sound(m', loose', d) && Owned(m') == Owned(m)
  {
    assert SameExtents(m, m');
    SameOwned(m, m');
    RelinkedObjects(m, m');
    forall c | c in m'.caches ensures CacheOk(m', c, d) {
      assert CacheOk(m, c, d);
      RelinkedUsed(m.slabs, m'.slabs, c);
    }
  }

  lemma RelinkedUsed(slabs: map<int, Slab>, slabs': map<int, Slab>, c: int)
    requires SameBodies(slabs, slabs')
    ensures UsedMap(slabs', c) == UsedMap(slabs, c)
  {
    var w, w' := UsedMap(slabs, c), UsedMap(slabs', c);
    assert forall x :: x in w' ==> x in slabs.Keys && slabs[x].cache == c;
    assert forall x :: x in w ==> x in slabs'.Keys && slabs'[x].cache == c;
    assert w.Keys <= w'.Keys && w'.Keys <= w.Keys;
    assert forall x :: x in w ==> w'[x] == w[x];
  }

  lemma RelinkedObjects(m: Mem, m': Mem)
    requires ObjectsOk(m) && SameCounts(m.caches, m'.caches) && SameBodies(m.slabs, m'.slabs)
    requires m'.objects == m.objects && m'.free == m.free
    ensures ObjectsOk(m')
  {
    forall x | x in m'.slabs
      ensures SlabOk(x, m'.slabs[x], m'.caches[m'.slabs[x].cache], m'.objects, m'.free[x])
    {
      var c := m.slabs[x].cache;
      SlabOkFrame(x, m.slabs[x], m'.slabs[x], m.caches[c], m'.caches[c], m.objects, m'.objects, m.free[x]);
    }
  }

  lemma SameLive(m: Mem, m': Mem)
    requires SameExtents(m, m') && m'.free == m.free
    ensures forall a, x :: IsLive(m', a, x) <==> IsLive(m, a, x)
  {
  }

  /** The memory after `delta` more objects of slab `x` are in use, the free ones being `fr`. */
  function WithSlab(m: Mem, x: int, sl: Slab, a: int, ob: Object, ghost fr: seq<int>): Mem
    requires x in m.slabs && m.slabs[x].cache in m.caches
  {
    var c := m.slabs[x].cache;
    Mem(m.caches[c := m.caches[c].(numAllocated := m.caches[c].numAllocated + m.slabs[x].numFree - sl.numFree)],
        m.slabs[x := sl], m.objects[a := ob], m.lists, m.free[x := fr])
  }

  /** Handing out or taking back an object of one slab leaves all others as they are. */
  lemma OneSlabChanged(m: Mem, loose: set<int>, d: int, C: set<Chunk>, k: nat,
                       x: int, sl: Slab, a: int, ob: Object, fr: seq<int>)
    requires Sound(m, loose, d) && Backed(m, C, k) && x in m.slabs
    requires sl == m.slabs[x].(freeList := sl.freeList, numFree := sl.numFree)
    requires IsObject(a, x, m.caches[m.slabs[x].cache].objectSize, sl.numMax)
    requires SlabOk(x, sl, m.caches[m.slabs[x].cache], m.objects[a := ob], fr)
    ensures var m' := WithSlab(m, x, sl, a, ob, fr);
            Sound(m', loose, d) && Owned(m') == Owned(m)
  {
    var m' := WithSlab(m, x, sl, a, ob, fr);
    assert SameExtents(m, m');
    SameOwned(m, m');
    LinksIgnoreObjects(m, loose, x, sl, m'.caches[m.slabs[x].cache]);
    OneSlabObjects(m, loose, d, C, k, x, sl, a, ob, fr);
    OneSlabCounts(m, d, x, sl, a, ob, fr);
  }

  lemma OneSlabObjects(m: Mem, loose: set<int>, d: int, C: set<Chunk>, k: nat,
                       x: int, sl: Slab, a: int, ob: Object, fr: seq<int>)
    requires Sound(m, loose, d) && Backed(m, C, k) && x in m.slabs
    requires sl == m.slabs[x].(freeList := sl.freeList, numFree := sl.numFree)
    requires IsObject(a, x, m.caches[m.slabs[x].cache].objectSize, sl.numMax)
    requires SlabOk(x, sl, m.caches[m.slabs[x].cache], m.objects[a := ob], fr)
    ensures ObjectsOk(WithSlab(m, x, sl, a, ob, fr))
  {
    var m' := WithSlab(m, x, sl, a, ob, fr);
    var c := m.slabs[x].cache;
    forall y | y in m'.slabs
      ensures SlabOk(y, m'.slabs[y], m'.caches[m'.slabs[y].cache], m'.objects, m'.free[y])
    {
      if y == x {
        SlabOkFrame(x, sl, sl, m.caches[c], m'.caches[c], m'.objects, m'.objects, fr);
      } else {
        var e := m.slabs[y].cache;
        assert SlabOk(y, m.slabs[y], m.caches[e], m.objects, m.free[y]);
        if IsObject(a, y, m.caches[e].objectSize, m.slabs[y].numMax) {
          ObjectOfOneSlab(m, loose, d, C, k, a, x, y);
        }
        SlabOkFrame(y, m.slabs[y], m.slabs[y], m.caches[e], m'.caches[e], m.objects, m'.objects, m.free[y]);
      }
    }
  }

  lemma OneSlabCounts(m: Mem, d: int, x: int, sl: Slab, a: int, ob: Object, fr: seq<int>)
    requires (forall e :: e in m.caches ==> CacheOk(m, e, d)) && x in m.slabs && m.slabs[x].cache in m.caches
    requires sl == m.slabs[x].(freeList := sl.freeList, numFree := sl.numFree)
    ensures var m' := WithSlab(m, x, sl, a, ob, fr);
            forall e :: e in m'.caches ==> CacheOk(m', e, d)
  {
    var m' := WithSlab(m, x, sl, a, ob, fr);
    var c := m.slabs[x].cache;
    var w := UsedMap(m.slabs, c);
    SumUpdate(w, x, sl.numMax - sl.numFree);
    forall e | e in m'.caches ensures CacheOk(m', e, d) {
      assert CacheOk(m, e, d);
      if e == c {
        assert UsedMap(m'.slabs, c) == w[x := sl.numMax - sl.numFree];
      } else {
        assert UsedMap(m'.slabs, e) == UsedMap(m.slabs, e);
      }
    }
  }

  lemma LinksIgnoreObjects(m: Mem, loose: set<int>, x: int, sl: Slab, ca: Cache)
    requires Links(m.caches, m.slabs, m.lists, loose) && x in m.slabs
    requires sl.next == m.slabs[x].next && sl.prev == m.slabs[x].prev && sl.cache == m.slabs[x].cache
    requires var was := m.caches[m.slabs[x].cache];
             ca.empty == was.empty && ca.partial == was.partial && ca.full == was.full
    ensures Links(m.caches[m.slabs[x].cache := ca], m.slabs[x := sl], m.lists, loose)
  {
    var caches', slabs' := m.caches[m.slabs[x].cache := ca], m.slabs[x := sl];
    forall c | c in caches' ensures CacheLinks(c, caches'[c], slabs', m.lists[c]) {
      assert CacheLinks(c, m.caches[c], m.slabs, m.lists[c]);
      CacheLinksFrame(c, m.caches[c], caches'[c], m.slabs, slabs', m.lists[c]);
    }
  }

  // ---- Slabs come and go ----

  function NewSlab(m: Mem, x: int, sl: Slab, objects: map<int, Object>, ghost fr: seq<int>): Mem
    requires sl.cache in m.caches
  {
    var ca := m.caches[sl.cache];
    Mem(m.caches[sl.cache := ca.(numSlabs := ca.numSlabs + 1, numGrown := ca.numGrown + 1)],
        m.slabs[x := sl], objects, m.lists, m.free[x := fr])
  }

  /** `a` is the address of an object of slab `y`, live or not. */
  ghost predicate ObjectAt(m: Mem, a: int, y: int) {
    y in m.slabs && m.slabs[y].cache in m.caches
    && IsObject(a, y, m.caches[m.slabs[y].cache].objectSize, m.slabs[y].numMax)
  }

  /** A run just taken from the buddy allocator holds no cache, no slab and no object. */
  lemma TakenIsNew(m: Mem, loose: set<int>, d: int, C: set<Chunk>, k: nat, ch: Chunk, C': set<Chunk>)
    requires Sound(m, loose, d) && Backed(m, C, k) && Step(C, Taken(ch), C', k)
    ensures ch.start !in m.slabs && ch.start !in m.caches
    ensures Accounts(C', Owned(m) + {ch}, k)
    ensures forall a, y :: ObjectAt(m, a, y) ==> a >= 0 && !InChunk(a / BLOCK_SIZE, ch)
  {
    TakenAccounts(C, ch, C', Owned(m), k);
    assert InChunk(ch.start, ch);
    var L := Owned(m);
    assert ch.start in m.caches ==> Chunk(0, ch.start) in L && InChunk(ch.start, Chunk(0, ch.start));
    assert ch.start in m.slabs ==> SlabChunk(m, ch.start) in L && InChunk(ch.start, SlabChunk(m, ch.start));
    forall a, y | ObjectAt(m, a, y) ensures a >= 0 && !InChunk(a / BLOCK_SIZE, ch) {
      assert SlabOk(y, m.slabs[y], m.caches[m.slabs[y].cache], m.objects, m.free[y]);
      ObjectBlock(m, a, y);
      assert SlabChunk(m, y) in L;
    }
  }

  lemma SlabAdded(m: Mem, d: int, C: set<Chunk>, k: nat, C': set<Chunk>,
                  x: nat, sl: Slab, objects: map<int, Object>, fr: seq<int>, ch: Chunk)
    requires Sound(m, {}, d) && Backed(m, C, k) && sl.cache in m.caches && sl.cache != d
    requires ch == Chunk(CeilLog2(m.caches[sl.cache].slabSize), x) && Step(C, Taken(ch), C', k)
    requires OutsideKept(m.objects, objects, ch)
    requires SlabOk(x, sl, m.caches[sl.cache], objects, fr) && sl.numFree == sl.numMax
    ensures x !in m.slabs
    ensures var m' := NewSlab(m, x, sl, objects, fr);
            Sound(m', {x}, d) && Backed(m', C', k)
  {
    TakenIsNew(m, {}, d, C, k, ch, C');
    var m' := NewSlab(m, x, sl, objects, fr);
    AddedLinks(m, x, sl, m'.caches[sl.cache]);
    AddedObjects(m, x, sl, objects, fr, ch);
    AddedCounts(m, d, x, sl, objects, fr);
    AddedOwned(m, x, sl, objects, fr);
  }

  /** The objects outside a run of blocks are untouched. */
  ghost predicate OutsideKept(objects: map<int, Object>, objects': map<int, Object>, ch: Chunk) {
    forall a :: a in objects && a >= 0 && !InChunk(a / BLOCK_SIZE, ch) ==> a in objects' && objects'[a] == objects[a]
  }

  lemma AddedLinks(m: Mem, x: int, sl: Slab, ca: Cache)
    requires Links(m.caches, m.slabs, m.lists, {}) && x !in m.slabs && sl.cache in m.caches
    requires var was := m.caches[sl.cache];
             ca.empty == was.empty && ca.partial == was.partial && ca.full == was.full
    ensures Links(m.caches[sl.cache := ca], m.slabs[x := sl], m.lists, {x})
  {
    var caches', slabs' := m.caches[sl.cache := ca], m.slabs[x := sl];
    forall c | c in caches' ensures !OnSome(m.lists[c], x) {
      assert CacheLinks(c, m.caches[c], m.slabs, m.lists[c]);
    }
    forall c | c in caches' ensures CacheLinks(c, caches'[c], slabs', m.lists[c]) {
      assert CacheLinks(c, m.caches[c], m.slabs, m.lists[c]);
      CacheLinksFrame(c, m.caches[c], caches'[c], m.slabs, slabs', m.lists[c]);
    }
  }

  lemma AddedObjects(m: Mem, x: int, sl: Slab, objects: map<int, Object>, fr: seq<int>, ch: Chunk)
    requires ObjectsOk(m) && x !in m.slabs && sl.cache in m.caches
    requires forall a, y :: ObjectAt(m, a, y) ==> a >= 0 && !InChunk(a / BLOCK_SIZE, ch)
    requires OutsideKept(m.objects, objects, ch)
    requires SlabOk(x, sl, m.caches[sl.cache], objects, fr)
    ensures ObjectsOk(NewSlab(m, x, sl, objects, fr))
  {
    var m' := NewSlab(m, x, sl, objects, fr);
    forall y | y in m'.slabs
      ensures SlabOk(y, m'.slabs[y], m'.caches[m'.slabs[y].cache], objects, m'.free[y])
    {
      if y == x {
        SlabOkFrame(x, sl, sl, m.caches[sl.cache], m'.caches[sl.cache], objects, objects, fr);
      } else {
        var e := m.slabs[y].cache;
        assert SlabOk(y, m.slabs[y], m.caches[e], m.objects, m.free[y]);
        forall a | IsObject(a, y, m.caches[e].objectSize, m.slabs[y].numMax) && a in m.objects
          ensures a in objects && objects[a] == m.objects[a]
        {
          assert ObjectAt(m, a, y);
        }
        SlabOkFrame(y, m.slabs[y], m.slabs[y], m.caches[e], m'.caches[e], m.objects, objects, m.free[y]);
      }
    }
  }

  lemma UsedAdd(slabs: map<int, Slab>, x: int, sl: Slab, c: int)
    requires x !in slabs
    ensures UsedMap(slabs[x := sl], c)
            == if sl.cache == c then UsedMap(slabs, c)[x := sl.numMax - sl.numFree] else UsedMap(slabs, c)
  {
  }

  lemma UsedLess(slabs: map<int, Slab>, x: int, c: int)
    requires x in slabs
    ensures UsedMap(slabs - {x}, c) == if slabs[x].cache == c then UsedMap(slabs, c) - {x} else UsedMap(slabs, c)
  {
  }

  lemma UsedNone(slabs: map<int, Slab>, c: int)
    requires forall x :: x in slabs ==> slabs[x].cache != c
    ensures UsedMap(slabs, c) == map[] && |UsedMap(slabs, c)| == 0 && Sum(UsedMap(slabs, c)) == 0
  {
    var w := UsedMap(slabs, c);
    assert forall x :: x !in w;
    assert w == map[];
  }

  lemma HeldByNone(slabs: map<int, Slab>, c: int, slabSize: nat)
    requires forall x :: x in slabs ==> slabs[x].cache != c
    ensures HeldBy(slabs, c, slabSize) == 1
  {
    UsedNone(slabs, c);
  }

  lemma AddedCounts(m: Mem, d: int, x: int, sl: Slab, objects: map<int, Object>, fr: seq<int>)
    requires (forall e :: e in m.caches ==> CacheOk(m, e, d)) && x !in m.slabs && sl.cache in m.caches
             && sl.numFree == sl.numMax
    ensures var m' := NewSlab(m, x, sl, objects, fr);
            forall e :: e in m'.caches ==> CacheOk(m', e, d)
  {
    var m', c := NewSlab(m, x, sl, objects, fr), sl.cache;
    var w := UsedMap(m.slabs, c);
    SumAdd(w, x, 0);
    forall e | e in m'.caches ensures CacheOk(m', e, d) {
      assert CacheOk(m, e, d);
      UsedAdd(m.slabs, x, sl, e);
    }
  }

  lemma AddedOwned(m: Mem, x: nat, sl: Slab, objects: map<int, Object>, fr: seq<int>)
    requires x !in m.slabs && sl.cache in m.caches
    requires forall y :: y in m.slabs ==> m.slabs[y].cache in m.caches
    ensures Owned(NewSlab(m, x, sl, objects, fr)) == Owned(m) + {Chunk(CeilLog2(m.caches[sl.cache].slabSize), x)}
  {
    var m' := NewSlab(m, x, sl, objects, fr);
    assert SlabChunk(m', x) in Owned(m');
    forall y | y in m.slabs && y >= 0 ensures SlabChunk(m', y) == SlabChunk(m, y) {
    }
  }

  /** Every record is somewhere of its own, and every slab belongs to a cache. */
  ghost predicate Placed(m: Mem) {
    && m.caches.Keys !! m.slabs.Keys
    && (forall c :: c in m.caches ==> c >= 0 && IsSlabSize(m.caches[c].objectSize, m.caches[c].slabSize))
    && (forall x :: x in m.slabs ==> x >= 0 && m.slabs[x].cache in m.caches)
  }

  lemma SoundPlaced(m: Mem, loose: set<int>, d: int)
    requires Sound(m, loose, d)
    ensures Placed(m)
  {
    forall c | c in m.caches ensures c >= 0 && IsSlabSize(m.caches[c].objectSize, m.caches[c].slabSize) {
      assert CacheOk(m, c, d);
    }
    forall x | x in m.slabs ensures x >= 0 {
      assert SlabOk(x, m.slabs[x], m.caches[m.slabs[x].cache], m.objects, m.free[x]);
    }
  }

  /** The memory without the loose slab `x`, its cache counting `drop` slabs less. */
  function LessSlab(m: Mem, x: int, drop: int): Mem
    requires x in m.slabs && m.slabs[x].cache in m.caches
  {
    var c := m.slabs[x].cache;
    Mem(m.caches[c := m.caches[c].(numSlabs := m.caches[c].numSlabs - drop)],
        m.slabs - {x}, m.objects, m.lists, m.free - {x})
  }

  lemma SlabDropped(m: Mem, d: int, x: int, drop: int)
    requires Sound(m, {x}, d) && x in m.slabs
    requires m.slabs[x].cache == d || (drop == 1 && m.slabs[x].numFree == m.slabs[x].numMax)
    ensures var m', ch := LessSlab(m, x, drop), SlabChunk(m, x);
            Sound(m', {}, d) && ch in Owned(m) && Owned(m') == Owned(m) - {ch}
  {
    DroppedLinks(m, x, drop);
    DroppedObjects(m, x, drop);
    DroppedCounts(m, d, x, drop);
    SoundPlaced(m, {x}, d);
    DroppedOwned(m, x, drop);
  }

  lemma DroppedLinks(m: Mem, x: int, drop: int)
    requires Links(m.caches, m.slabs, m.lists, {x}) && x in m.slabs
    ensures var m' := LessSlab(m, x, drop); Links(m'.caches, m'.slabs, m'.lists, {})
  {
    var m' := LessSlab(m, x, drop);
    forall c | c in m'.caches ensures CacheLinks(c, m'.caches[c], m'.slabs, m.lists[c]) {
      assert CacheLinks(c, m.caches[c], m.slabs, m.lists[c]);
      forall y | OnSome(m.lists[c], y) ensures SameLinks(m.slabs, m'.slabs, y) {
        assert y != x;
      }
      CacheLinksFrame(c, m.caches[c], m'.caches[c], m.slabs, m'.slabs, m.lists[c]);
    }
  }

  lemma DroppedObjects(m: Mem, x: int, drop: int)
    requires ObjectsOk(m) && x in m.slabs
    ensures ObjectsOk(LessSlab(m, x, drop))
  {
    var m' := LessSlab(m, x, drop);
    assert m'.free.Keys == m.free.Keys - {x} && m'.slabs.Keys == m.slabs.Keys - {x};
    forall y | y in m'.slabs
      ensures SlabOk(y, m'.slabs[y], m'.caches[m'.slabs[y].cache], m.objects, m'.free[y])
    {
      var e := m.slabs[y].cache;
      assert SlabOk(y, m.slabs[y], m.caches[e], m.objects, m.free[y]);
      SlabOkFrame(y, m.slabs[y], m.slabs[y], m.caches[e], m'.caches[e], m.objects, m.objects, m.free[y]);
    }
  }

  lemma DroppedCounts(m: Mem, d: int, x: int, drop: int)
    requires (forall e :: e in m.caches ==> CacheOk(m, e, d)) && x in m.slabs && m.slabs[x].cache in m.caches
    requires m.slabs[x].cache == d || (drop == 1 && m.slabs[x].numFree == m.slabs[x].numMax)
    ensures var m' := LessSlab(m, x, drop);
            forall e :: e in m'.caches ==> CacheOk(m', e, d)
  {
    var m', c := LessSlab(m, x, drop), m.slabs[x].cache;
    SumDrop(UsedMap(m.slabs, c), x);
    forall e | e in m'.caches ensures CacheOk(m', e, d) {
      assert CacheOk(m, e, d);
      UsedLess(m.slabs, x, e);
    }
  }

  lemma DroppedHeld(m: Mem, x: int, drop: int)
    requires Placed(m) && x in m.slabs
    ensures Sum(Held(LessSlab(m, x, drop))) == Sum(Held(m)) - m.caches[m.slabs[x].cache].slabSize
  {
    var m', c := LessSlab(m, x, drop), m.slabs[x].cache;
    forall e | e in m.caches && e != c ensures Held(m')[e] == Held(m)[e] {
      UsedLess(m.slabs, x, e);
    }
    SumDrop(UsedMap(m.slabs, c), x);
    UsedLess(m.slabs, x, c);
    SumChanged(Held(m), Held(m'), c, 0 - m.caches[c].slabSize);
  }

  lemma DroppedOwned(m: Mem, x: int, drop: int)
    requires Placed(m) && x in m.slabs
    ensures SlabChunk(m, x) in Owned(m) && Owned(LessSlab(m, x, drop)) == Owned(m) - {SlabChunk(m, x)}
  {
    var m' := LessSlab(m, x, drop);
    forall y | y in m'.slabs && y >= 0 ensures SlabChunk(m', y) == SlabChunk(m, y) {
    }
  }

  // ---- Caches come and go ----

  function NewCache(m: Mem, c: int, ca: Cache): Mem {
    m.(caches := m.caches[c := ca], lists := m.lists[c := Lists([], [], [])])
  }

  lemma CacheAdded(m: Mem, c: nat, ca: Cache, C: set<Chunk>, k: nat, C': set<Chunk>)
    requires Sound(m, {}, -1) && Backed(m, C, k) && Step(C, Taken(Chunk(0, c)), C', k)
    requires IsSlabSize(ca.objectSize, ca.slabSize) && ca.numSlabs == ca.numAllocated == 0
    requires ca.empty == ca.partial == ca.full == -1
    ensures var m' := NewCache(m, c, ca);
            c !in m.caches && Sound(m', {}, -1) && Backed(m', C', k)
  {
    TakenIsNew(m, {}, -1, C, k, Chunk(0, c), C');
    CacheAddedCounts(m, c, ca);
    CacheAddedOwned(m, c, ca);
    CacheAddedSound(m, c, ca);
  }

  lemma CacheAddedSound(m: Mem, c: nat, ca: Cache)
    requires Sound(m, {}, -1) && c !in m.caches && c !in m.slabs
    requires ca.empty == ca.partial == ca.full == -1
    requires forall e :: e in NewCache(m, c, ca).caches ==> CacheOk(NewCache(m, c, ca), e, -1)
    ensures Sound(NewCache(m, c, ca), {}, -1)
  {
    assert CacheLinks(c, ca, m.slabs, Lists([], [], []));
  }

  lemma CacheAddedCounts(m: Mem, c: nat, ca: Cache)
    requires (forall e :: e in m.caches ==> CacheOk(m, e, -1)) && c !in m.caches
    requires forall x :: x in m.slabs ==> m.slabs[x].cache in m.caches
    requires IsSlabSize(ca.objectSize, ca.slabSize) && ca.numSlabs == ca.numAllocated == 0
    ensures var m' := NewCache(m, c, ca);
            forall e :: e in m'.caches ==> CacheOk(m', e, -1)
  {
    var m' := NewCache(m, c, ca);
    UsedNone(m.slabs, c);
    forall e | e in m'.caches ensures CacheOk(m', e, -1) {
      if e != c {
        assert CacheOk(m, e, -1);
      }
    }
  }

  lemma HeldNew(m: Mem, c: int, ca: Cache)
    requires c !in m.caches && forall x :: x in m.slabs ==> m.slabs[x].cache != c
    ensures var h, h' := Held(m), Held(NewCache(m, c, ca));
            h'.Keys == h.Keys + {c} && c !in h && h'[c] == 1 && forall e :: e in h ==> h'[e] == h[e]
  {
    var h, h' := Held(m), Held(NewCache(m, c, ca));
    assert h.Keys == m.caches.Keys && h'.Keys == m.caches.Keys + {c};
    forall e | e in m.caches ensures h'[e] == h[e] {
    }
    HeldByNone(m.slabs, c, ca.slabSize);
  }

  lemma CacheAddedHeld(m: Mem, c: int, ca: Cache)
    requires c !in m.caches && forall x :: x in m.slabs ==> m.slabs[x].cache != c
    ensures Sum(Held(NewCache(m, c, ca))) == Sum(Held(m)) + 1
  {
    HeldNew(m, c, ca);
    SumExtended(Held(m), Held(NewCache(m, c, ca)), c, 1);
  }

  lemma CacheAddedOwned(m: Mem, c: nat, ca: Cache)
    requires c !in m.caches && forall x :: x in m.slabs ==> m.slabs[x].cache in m.caches
    ensures Owned(NewCache(m, c, ca)) == Owned(m) + {Chunk(0, c)}
  {
    var m' := NewCache(m, c, ca);
    assert forall y :: y in m.slabs && y >= 0 ==> SlabChunk(m', y) == SlabChunk(m, y);
  }

  function LessCache(m: Mem, c: int): Mem {
    m.(caches := m.caches - {c}, lists := m.lists - {c})
  }

  lemma CacheDropped(m: Mem, c: int)
    requires Sound(m, {}, c) && c in m.caches
    requires forall x :: x in m.slabs ==> m.slabs[x].cache != c
    ensures var m' := LessCache(m, c);
            Sound(m', {}, -1) && Chunk(0, c) in Owned(m) && Owned(m') == Owned(m) - {Chunk(0, c)}
  {
    assert CacheOk(m, c, c);
    CacheDroppedSound(m, c);
    SoundPlaced(m, {}, c);
    CacheDroppedOwned(m, c);
  }

  lemma CacheDroppedHeld(m: Mem, c: int)
    requires c in m.caches && forall x :: x in m.slabs ==> m.slabs[x].cache != c
    ensures Sum(Held(LessCache(m, c))) == Sum(Held(m)) - 1
  {
    var m' := LessCache(m, c);
    assert NewCache(m', c, m.caches[c]).caches == m.caches;
    CacheAddedHeld(m', c, m.caches[c]);
  }

  lemma CacheDroppedSound(m: Mem, c: int)
    requires Sound(m, {}, c) && c in m.caches
    requires forall x :: x in m.slabs ==> m.slabs[x].cache != c
    ensures Sound(LessCache(m, c), {}, -1)
  {
    var m' := LessCache(m, c);
    assert m'.caches.Keys == m.caches.Keys - {c} && m'.lists.Keys == m.lists.Keys - {c};
    forall e | e in m'.caches ensures CacheOk(m', e, -1) && CacheLinks(e, m'.caches[e], m.slabs, m'.lists[e]) {
      assert CacheOk(m, e, c) && CacheLinks(e, m.caches[e], m.slabs, m.lists[e]);
    }
  }

  lemma CacheDroppedOwned(m: Mem, c: int)
    requires Placed(m) && c in m.caches
    requires forall x :: x in m.slabs ==> m.slabs[x].cache != c
    ensures Chunk(0, c) in Owned(m) && Owned(LessCache(m, c)) == Owned(m) - {Chunk(0, c)}
  {
    var m' := LessCache(m, c);
    assert forall y :: y in m.slabs && y >= 0 ==> SlabChunk(m', y) == SlabChunk(m, y);
  }

  // ---- The invariant together with the state of the buddy allocator ----

  datatype Bank = Bank(chunks: set<Chunk>, k: nat, freeBlocks: int, totalBlocks: int)

  /** Lists, objects and counters agree, and the blocks the buddy allocator does
      not have free are exactly those of the caches and slabs. */
  ghost predicate Inv(m: Mem, loose: set<int>, d: int, b: Bank) {
    && Sound(m, loose, d)
    && Backed(m, b.chunks, b.k)
  }

  /** The buddy allocator handed out the run `ch`. */
  ghost predicate Takes(b: Bank, ch: Chunk, b': Bank) {
    && b' == b.(chunks := b'.chunks, freeBlocks := b.freeBlocks - Pow2(ch.order))
    && Step(b.chunks, Taken(ch), b'.chunks, b.k)
  }

  /** The buddy allocator took back the run `ch`. */
  ghost predicate Returns(b: Bank, ch: Chunk, b': Bank) {
    && b' == b.(chunks := b'.chunks, freeBlocks := b.freeBlocks + Pow2(ch.order))
    && Step(b.chunks, Returned(ch), b'.chunks, b.k)
  }

  lemma InvRelinked(m: Mem, m': Mem, loose: set<int>, loose': set<int>, d: int, b: Bank)
    requires Inv(m, loose, d, b) && Links(m'.caches, m'.slabs, m'.lists, loose')
    requires SameCounts(m.caches, m'.caches) && SameBodies(m.slabs, m'.slabs)
    requires m'.objects == m.objects && m'.free == m.free
    ensures Inv(m', loose', d, b)
  {
    OnlyRelinked(m, m', loose, loose', d);
  }

  lemma InvSlabAdded(m: Mem, b: Bank, b': Bank, x: nat, sl: Slab, objects: map<int, Object>, fr: seq<int>, ch: Chunk)
    requires Inv(m, {}, -1, b) && sl.cache in m.caches && sl.cache != -1
    requires ch == Chunk(CeilLog2(m.caches[sl.cache].slabSize), x) && Takes(b, ch, b')
    requires OutsideKept(m.objects, objects, ch)
    requires SlabOk(x, sl, m.caches[sl.cache], objects, fr) && sl.numFree == sl.numMax
    ensures x !in m.slabs && Inv(NewSlab(m, x, sl, objects, fr), {x}, -1, b')
  {
    SlabAdded(m, -1, b.chunks, b.k, b'.chunks, x, sl, objects, fr, ch);
    SlabOrder(m.caches[sl.cache].objectSize, m.caches[sl.cache].slabSize);
  }

  /** The run of a slab or a cache may be given back. */
  lemma OwnedReturns(m: Mem, loose: set<int>, d: int, b: Bank, ch: Chunk)
    requires Inv(m, loose, d, b) && ch in Owned(m)
    ensures Fits(ch, b.k) && Run(ch) !! Blocks(b.chunks, b.k)
    ensures forall b' :: Returns(b, ch, b') ==> Accounts(b'.chunks, Owned(m) - {ch}, b.k)
  {
    ReturnedAccounts(b.chunks, ch, Owned(m), b.k);
  }

  lemma InvSlabDropped(m: Mem, d: int, b: Bank, b': Bank, x: int, drop: int)
    requires Inv(m, {x}, d, b) && x in m.slabs && x >= 0
    requires m.slabs[x].cache == d || (drop == 1 && m.slabs[x].numFree == m.slabs[x].numMax)
    requires Returns(b, SlabChunk(m, x), b')
    ensures Inv(LessSlab(m, x, drop), {}, d, b')
  {
    SlabDropped(m, d, x, drop);
    OwnedReturns(m, {x}, d, b, SlabChunk(m, x));
    assert CacheOk(m, m.slabs[x].cache, d);
    SlabOrder(m.caches[m.slabs[x].cache].objectSize, m.caches[m.slabs[x].cache].slabSize);
  }

  lemma InvCacheAdded(m: Mem, b: Bank, b': Bank, c: nat, ca: Cache)
    requires Inv(m, {}, -1, b) && Takes(b, Chunk(0, c), b')
    requires IsSlabSize(ca.objectSize, ca.slabSize) && ca.numSlabs == ca.numAllocated == 0
    requires ca.empty == ca.partial == ca.full == -1
    ensures c !in m.caches && Inv(NewCache(m, c, ca), {}, -1, b')
  {
    CacheAdded(m, c, ca, b.chunks, b.k, b'.chunks);
  }

  lemma InvCacheDropped(m: Mem, b: Bank, b': Bank, c: nat)
    requires Inv(m, {}, c, b) && c in m.caches && Returns(b, Chunk(0, c), b')
    requires forall x :: x in m.slabs ==> m.slabs[x].cache != c
    ensures Inv(LessCache(m, c), {}, -1, b')
  {
    CacheDropped(m, c);
    OwnedReturns(m, {}, c, b, Chunk(0, c));
  }

  lemma InvOneSlab(m: Mem, loose: set<int>, d: int, b: Bank, x: int, sl: Slab, a: int, ob: Object, fr: seq<int>)
    requires Inv(m, loose, d, b) && x in m.slabs
    requires sl == m.slabs[x].(freeList := sl.freeList, numFree := sl.numFree)
    requires IsObject(a, x, m.caches[m.slabs[x].cache].objectSize, sl.numMax)
    requires SlabOk(x, sl, m.caches[m.slabs[x].cache], m.objects[a := ob], fr)
    ensures Inv(WithSlab(m, x, sl, a, ob, fr), loose, d, b)
  {
    OneSlabChanged(m, loose, d, b.chunks, b.k, x, sl, a, ob, fr);
  }

  // ---- Conservation of blocks ----

  /** The layer holds one block a cache and its slab size a slab. */
  lemma {:induction false} OwnedSize(m: Mem, k: nat)
    requires Placed(m) && Tiling(Owned(m), k)
    ensures |Blocks(Owned(m), k)| == Sum(Held(m))
    decreases |m.slabs|, |m.caches|
  {
    if exists x :: x in m.slabs {
      var x :| x in m.slabs;
      var m' := LessSlab(m, x, 0);
      assert m'.slabs.Keys == m.slabs.Keys - {x};
      LessPlaced(m, x);
      DroppedOwned(m, x, 0);
      OwnedSize(m', k);
      SlabSizeGone(m, x, k);
    } else if exists c :: c in m.caches {
      var c :| c in m.caches;
      var m' := LessCache(m, c);
      assert m'.caches.Keys == m.caches.Keys - {c};
      CacheDroppedOwned(m, c);
      OwnedSize(m', k);
      CacheDroppedHeld(m, c);
      ChunkGone(Owned(m), Chunk(0, c), k);
    } else {
      NothingOwned(m, k);
    }
  }

  lemma NothingOwned(m: Mem, k: nat)
    requires (forall x :: x !in m.slabs) && (forall c :: c !in m.caches)
    ensures |Blocks(Owned(m), k)| == 0 && Sum(Held(m)) == 0
  {
    assert Owned(m) == {};
    assert Blocks({}, k) == {};
    assert forall c :: c !in Held(m);
  }

  lemma SlabSizeGone(m: Mem, x: int, k: nat)
    requires Placed(m) && Tiling(Owned(m), k) && x in m.slabs
    requires |Blocks(Owned(LessSlab(m, x, 0)), k)| == Sum(Held(LessSlab(m, x, 0)))
    ensures |Blocks(Owned(m), k)| == Sum(Held(m))
  {
    var c := m.slabs[x].cache;
    DroppedOwned(m, x, 0);
    DroppedHeld(m, x, 0);
    SlabOrder(m.caches[c].objectSize, m.caches[c].slabSize);
    ChunkGone(Owned(m), SlabChunk(m, x), k);
  }

  lemma LessPlaced(m: Mem, x: int)
    requires Placed(m) && x in m.slabs
    ensures Placed(LessSlab(m, x, 0))
  {
  }

  lemma ChunkGone(L: set<Chunk>, c: Chunk, k: nat)
    requires Tiling(L, k) && c in L
    ensures |Blocks(L, k)| == |Blocks(L - {c}, k)| + Pow2(c.order)
  {
    BlocksWithout(L, c, k);
    ChunkInBlocks(L, k, c);
    ChunkSize(c);
  }

  /** Free blocks and the blocks of all caches always add up to the region:
      free_blocks + sum over caches of (1 + num_slabs * slab_size) == total_blocks. */
  lemma Conservation(m: Mem, loose: set<int>, b: Bank)
    requires Inv(m, loose, -1, b) && b.freeBlocks == |Blocks(b.chunks, b.k)| && b.totalBlocks == Pow2(b.k)
    ensures b.freeBlocks + Sum(HeldByCounter(m)) == b.totalBlocks
  {
    SoundPlaced(m, loose, -1);
    OwnedSize(m, b.k);
    AccountsSize(b.chunks, Owned(m), b.k);
    HeldCounts(m, loose);
  }

  lemma AccountsSize(C: set<Chunk>, L: set<Chunk>, k: nat)
    requires Accounts(C, L, k)
    ensures |Blocks(C, k)| + |Blocks(L, k)| == Pow2(k)
  {
    var top := Chunk(k, 0);
    ChunkSize(top);
    forall x | x in Blocks(L, k) ensures x in Run(top) {
      assert InChunk(x, top);
    }
    assert Run(top) == Blocks(C, k) + Blocks(L, k);
  }

  /** The blocks of each cache, in terms of its own counter. */
  ghost function HeldByCounter(m: Mem): map<int, int> {
    map c | c in m.caches :: 1 + m.caches[c].numSlabs * m.caches[c].slabSize
  }

  lemma HeldCount(m: Mem, loose: set<int>, c: int)
    requires Sound(m, loose, -1) && c in m.caches
    ensures HeldByCounter(m)[c] == Held(m)[c]
  {
    assert CacheOk(m, c, -1);
    TimesIsProduct(|UsedMap(m.slabs, c)|, m.caches[c].slabSize);
  }

  lemma HeldCounts(m: Mem, loose: set<int>)
    requires Sound(m, loose, -1)
    ensures HeldByCounter(m) == Held(m)
  {
    hide Sound, HeldBy;
    forall c | c in m.caches ensures HeldByCounter(m)[c] == Held(m)[c] {
      HeldCount(m, loose, c);
    }
  }
}
