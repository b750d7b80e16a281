/** The records of kernel/slab.c as they lie in memory, and the invariants over
    them.  A slab and a cache are named by the index of the first block they
    occupy, an object by its byte address; -1 is the null pointer. */
module SlabState {
  import opened Bits
  import opened Common
  import opened Chunks
  import opened Buddy

  const BLOCK_SIZE := 4096
  const SIZEOF_SLAB := 48
  const SIZEOF_OBJECT := 16

  datatype Slab = Slab(next: int, prev: int, numMax: nat, numFree: nat, freeList: int, cache: int)

  datatype Object = Object(next: int, slab: int)

  datatype Cache = Cache(
    objectSize: nat, slabSize: nat,
    partial: int, full: int, empty: int,
    numSlabs: int, numAllocated: int, numGrown: nat, numShrunk: nat, lastShrinkState: nat,
    errorState: bool)

  datatype Kind = Empty | Partial | Full

  /** The three slab lists of one cache, front first. */
  datatype Lists = Lists(empty: seq<int>, partial: seq<int>, full: seq<int>) {
    function On(kind: Kind): seq<int> {
      match kind case Empty => empty case Partial => partial case Full => full
    }
    function With(kind: Kind, s: seq<int>): Lists {
      match kind case Empty => this.(empty := s) case Partial => this.(partial := s) case Full => this.(full := s)
    }
  }

  function Head(c: Cache, kind: Kind): int {
    match kind case Empty => c.empty case Partial => c.partial case Full => c.full
  }

  function WithHead(c: Cache, kind: Kind, x: int): Cache {
    match kind case Empty => c.(empty := x) case Partial => c.(partial := x) case Full => c.(full := x)
  }

  // ---- Doubly linked slab lists ----

  function At(s: seq<int>, i: int): int {
    if 0 <= i < |s| then s[i] else -1
  }

  /** `s` is the list that starts at `head`, linked both ways. */
  ghost predicate DList(head: int, m: map<int, Slab>, s: seq<int>) {
    && head == At(s, 0) && Distinct(s)
    && forall i :: 0 <= i < |s| ==> NodeOk(m, s, i)
  }

  predicate NodeOk(m: map<int, Slab>, s: seq<int>, i: nat)
    requires i < |s|
  {
    s[i] >= 0 && s[i] in m && m[s[i]].next == At(s, i + 1) && m[s[i]].prev == At(s, i - 1)
  }

  ghost predicate SameLinks(m: map<int, Slab>, m': map<int, Slab>, x: int) {
    x in m && x in m' && m'[x].next == m[x].next && m'[x].prev == m[x].prev && m'[x].cache == m[x].cache
  }

  lemma DListFrame(head: int, m: map<int, Slab>, m': map<int, Slab>, s: seq<int>)
    requires DList(head, m, s)
    requires forall x :: x in s ==> SameLinks(m, m', x)
    ensures DList(head, m', s)
  {
    forall i | 0 <= i < |s| ensures NodeOk(m', s, i) {
      assert s[i] in s && NodeOk(m, s, i);
    }
  }

  /** The pointer writes of add_slab_to_list. */
  function Pushed(m: map<int, Slab>, head: int, x: int): map<int, Slab>
    requires x in m && (head == -1 || head in m)
  {
    var m1 := m[x := m[x].(next := head, prev := -1)];
    if head != -1 then m1[head := m1[head].(prev := x)] else m1
  }

  /** The pointer writes of remove_slab_from_list. */
  function Unlinked(m: map<int, Slab>, x: int): map<int, Slab>
    requires x in m && (m[x].prev == -1 || m[x].prev in m) && (m[x].next == -1 || m[x].next in m)
  {
    var m1 := if m[x].prev != -1 then m[m[x].prev := m[m[x].prev].(next := m[x].next)] else m;
    var m2 := if m1[x].next != -1 then m1[m1[x].next := m1[m1[x].next].(prev := m1[x].prev)] else m1;
    m2[x := m2[x].(next := -1, prev := -1)]
  }

  lemma PushedList(m: map<int, Slab>, head: int, x: int, s: seq<int>)
    requires DList(head, m, s) && x in m && x !in s && x >= 0
    ensures head == -1 || head in m
    ensures DList(x, Pushed(m, head, x), [x] + s)
  {
    assert s != [] ==> NodeOk(m, s, 0);
    var m', t := Pushed(m, head, x), [x] + s;
    forall i | 0 <= i < |t| ensures NodeOk(m', t, i) {
      if i > 0 {
        assert t[i] == s[i - 1] && s[i - 1] in s;
        assert NodeOk(m, s, i - 1);
        assert i > 1 ==> s[0] != s[i - 1];
      }
    }
  }

  lemma UnlinkedList(m: map<int, Slab>, head: int, s: seq<int>, i: nat)
    requires DList(head, m, s) && i < |s|
    ensures s[i] in m && m[s[i]].next == At(s, i + 1) && m[s[i]].prev == At(s, i - 1)
    ensures m[s[i]].prev == -1 || m[s[i]].prev in m
    ensures m[s[i]].next == -1 || m[s[i]].next in m
    ensures DList(if m[s[i]].prev == -1 then m[s[i]].next else head, Unlinked(m, s[i]), RemoveAt(s, i))
  {
    var x := s[i];
    assert NodeOk(m, s, i);
    assert i > 0 ==> NodeOk(m, s, i - 1);
    assert i + 1 < |s| ==> NodeOk(m, s, i + 1);
    var m', t := Unlinked(m, x), RemoveAt(s, i);
    forall j | 0 <= j < |t| ensures NodeOk(m', t, j) {
      var k := if j < i then j else j + 1;
      assert t[j] == s[k] && s[k] != x;
      assert At(t, j + 1) == if j + 1 == i then At(s, i + 1) else At(s, k + 1);
      assert At(t, j - 1) == if j == i then At(s, i - 1) else At(s, k - 1);
      assert NodeOk(m, s, k);
      assert k + 1 < i ==> s[k] != s[i - 1];
      assert k > i + 1 ==> s[k] != s[i + 1];
      assert i > 0 && k > i ==> s[k] != s[i - 1];
      assert i + 1 < |s| && k < i ==> s[k] != s[i + 1];
    }
    forall a, b | 0 <= a < b < |t| ensures t[a] != t[b] {
      assert t[a] == (if a < i then s[a] else s[a + 1]) && t[b] == (if b < i then s[b] else s[b + 1]);
    }
  }

  /** Everything but the two link fields is the same. */
  ghost predicate SameBodies(m: map<int, Slab>, m': map<int, Slab>) {
    && m.Keys == m'.Keys
    && forall x :: x in m ==> m'[x] == m[x].(next := m'[x].next, prev := m'[x].prev)
  }

  /** The sizes and the counters that the invariant speaks of are the same. */
  ghost predicate SameCounts(caches: map<int, Cache>, caches': map<int, Cache>) {
    && caches.Keys == caches'.Keys
    && forall c :: c in caches ==> SameCount(caches[c], caches'[c])
  }

  predicate SameCount(ca: Cache, ca': Cache) {
    && ca'.objectSize == ca.objectSize && ca'.slabSize == ca.slabSize
    && ca'.numSlabs == ca.numSlabs && ca'.numAllocated == ca.numAllocated
  }

  /** Nothing but list heads differs. */
  ghost predicate SameButHeads(caches: map<int, Cache>, caches': map<int, Cache>) {
    && caches.Keys == caches'.Keys
    && forall c :: c in caches ==>
         caches'[c] == caches[c].(empty := caches'[c].empty, partial := caches'[c].partial, full := caches'[c].full)
  }

  predicate SameHeads(ca: Cache, ca': Cache) {
    ca'.empty == ca.empty && ca'.partial == ca.partial && ca'.full == ca.full
  }

  /** The lists do not depend on the fields of a cache other than its heads. */
  lemma LinksByHeads(caches: map<int, Cache>, caches': map<int, Cache>, slabs: map<int, Slab>,
                     lists: map<int, Lists>, loose: set<int>)
    requires Links(caches, slabs, lists, loose) && caches.Keys == caches'.Keys
    requires forall c :: c in caches ==> SameHeads(caches[c], caches'[c])
    ensures Links(caches', slabs, lists, loose)
  {
    forall c | c in caches' ensures CacheLinks(c, caches'[c], slabs, lists[c]) {
      assert CacheLinks(c, caches[c], slabs, lists[c]);
    }
  }

  predicate OnSome(l: Lists, x: int) {
    x in l.empty || x in l.partial || x in l.full
  }

  /** The three lists of cache `c`: well linked, without a common slab, all slabs its own. */
  ghost predicate CacheLinks(c: int, ca: Cache, slabs: map<int, Slab>, l: Lists) {
    && DList(ca.empty, slabs, l.empty) && DList(ca.partial, slabs, l.partial) && DList(ca.full, slabs, l.full)
    && (forall x :: x in l.empty ==> x !in l.partial && x !in l.full)
    && (forall x :: x in l.partial ==> x !in l.full)
    && (forall x :: OnSome(l, x) ==> x in slabs && slabs[x].cache == c)
  }

  /** Every slab that is not loose is on exactly one list, and that of its own cache. */
  ghost predicate Links(caches: map<int, Cache>, slabs: map<int, Slab>, lists: map<int, Lists>, loose: set<int>) {
    && lists.Keys == caches.Keys
    && (forall c :: c in caches ==> CacheLinks(c, caches[c], slabs, lists[c]))
    && (forall x :: x in slabs ==>
          slabs[x].cache in caches && (OnSome(lists[slabs[x].cache], x) <==> x !in loose))
  }

  lemma CacheLinksFrame(c: int, ca: Cache, ca': Cache, slabs: map<int, Slab>, slabs': map<int, Slab>, l: Lists)
    requires CacheLinks(c, ca, slabs, l)
    requires ca'.empty == ca.empty && ca'.partial == ca.partial && ca'.full == ca.full
    requires forall x :: OnSome(l, x) ==> SameLinks(slabs, slabs', x)
    ensures CacheLinks(c, ca', slabs', l)
  {
    DListFrame(ca.empty, slabs, slabs', l.empty);
    DListFrame(ca.partial, slabs, slabs', l.partial);
    DListFrame(ca.full, slabs, slabs', l.full);
  }

  lemma UnlinkedElsewhere(m: map<int, Slab>, head: int, s: seq<int>, i: nat)
    requires DList(head, m, s) && i < |s|
    ensures s[i] in m && (m[s[i]].prev == -1 || m[s[i]].prev in m) && (m[s[i]].next == -1 || m[s[i]].next in m)
    ensures SameBodies(m, Unlinked(m, s[i]))
    ensures forall y :: y in m && y !in s ==> Unlinked(m, s[i])[y] == m[y]
  {
    UnlinkedList(m, head, s, i);
    assert i > 0 ==> s[i - 1] in s;
    assert i + 1 < |s| ==> s[i + 1] in s;
  }

  /** The cache record after remove_slab_from_list on one of its lists. */
  function Removed(ca: Cache, kind: Kind, sl: Slab): Cache {
    if sl.prev == -1 then WithHead(ca, kind, sl.next) else ca
  }

  lemma RemoveKeepsCacheLinks(c: int, ca: Cache, slabs: map<int, Slab>, l: Lists, kind: Kind, i: nat)
    requires CacheLinks(c, ca, slabs, l) && i < |l.On(kind)|
    ensures var x := l.On(kind)[i];
            && x in slabs && (slabs[x].prev == -1 || slabs[x].prev in slabs)
            && (slabs[x].next == -1 || slabs[x].next in slabs)
            && var l' := l.With(kind, RemoveAt(l.On(kind), i));
            && CacheLinks(c, Removed(ca, kind, slabs[x]), Unlinked(slabs, x), l')
            && (forall y :: OnSome(l', y) <==> OnSome(l, y) && y != x)
  {
    var s := l.On(kind);
    var x := s[i];
    assert DList(Head(ca, kind), slabs, s);
    UnlinkedList(slabs, Head(ca, kind), s, i);
    UnlinkedElsewhere(slabs, Head(ca, kind), s, i);
    RemoveAtMembers(s, i);
    var slabs' := Unlinked(slabs, x);
    assert x in s;
    if kind != Empty {
      DListFrame(ca.empty, slabs, slabs', l.empty);
    }
    if kind != Partial {
      DListFrame(ca.partial, slabs, slabs', l.partial);
    }
    if kind != Full {
      DListFrame(ca.full, slabs, slabs', l.full);
    }
  }

  /** Rewriting links of slabs of cache `c` alone does not touch the other caches' lists. */
  lemma OthersKeepLinks(caches: map<int, Cache>, slabs: map<int, Slab>, slabs': map<int, Slab>,
                        lists: map<int, Lists>, loose: set<int>, c: int)
    requires Links(caches, slabs, lists, loose)
    requires forall y :: y in slabs && slabs[y].cache != c ==> SameLinks(slabs, slabs', y)
    ensures forall d :: d in caches && d != c ==> CacheLinks(d, caches[d], slabs', lists[d])
  {
    forall d | d in caches && d != c ensures CacheLinks(d, caches[d], slabs', lists[d]) {
      assert CacheLinks(d, caches[d], slabs, lists[d]);
      CacheLinksFrame(d, caches[d], caches[d], slabs, slabs', lists[d]);
    }
  }

  lemma Relinked(caches: map<int, Cache>, slabs: map<int, Slab>, lists: map<int, Lists>, loose: set<int>,
                 c: int, ca': Cache, slabs': map<int, Slab>, l': Lists, loose': set<int>)
    requires Links(caches, slabs, lists, loose) && c in caches
    requires SameBodies(slabs, slabs')
    requires forall y :: y in slabs && slabs[y].cache != c ==> slabs'[y] == slabs[y]
    requires CacheLinks(c, ca', slabs', l')
    requires forall y :: y in slabs && slabs[y].cache == c ==> (OnSome(l', y) <==> y !in loose')
    requires forall y :: y in slabs && slabs[y].cache != c ==> (y in loose <==> y in loose')
    ensures Links(caches[c := ca'], slabs', lists[c := l'], loose')
  {
    OthersKeepLinks(caches, slabs, slabs', lists, loose, c);
  }

  /** Taking a slab off its list leaves every list of every cache well formed. */
  lemma RemoveKeepsLinks(caches: map<int, Cache>, slabs: map<int, Slab>, lists: map<int, Lists>,
                         loose: set<int>, c: int, kind: Kind, i: nat)
    requires Links(caches, slabs, lists, loose) && c in caches && i < |lists[c].On(kind)|
    ensures var x := lists[c].On(kind)[i];
            && x in slabs && (slabs[x].prev == -1 || slabs[x].prev in slabs)
            && (slabs[x].next == -1 || slabs[x].next in slabs)
            && var caches' := caches[c := Removed(caches[c], kind, slabs[x])];
            && Links(caches', Unlinked(slabs, x),
                     lists[c := lists[c].With(kind, RemoveAt(lists[c].On(kind), i))], loose + {x})
            && SameBodies(slabs, Unlinked(slabs, x))
  {
    var s := lists[c].On(kind);
    var x := s[i];
    assert CacheLinks(c, caches[c], slabs, lists[c]);
    RemoveKeepsCacheLinks(c, caches[c], slabs, lists[c], kind, i);
    UnlinkedElsewhere(slabs, Head(caches[c], kind), s, i);
    assert forall y :: y in s ==> OnSome(lists[c], y);
    assert x in s;
    Relinked(caches, slabs, lists, loose, c, Removed(caches[c], kind, slabs[x]), Unlinked(slabs, x),
             lists[c].With(kind, RemoveAt(s, i)), loose + {x});
  }

  lemma RemovedHeads(caches: map<int, Cache>, c: int, kind: Kind, sl: Slab)
    requires c in caches
    ensures var caches' := caches[c := Removed(caches[c], kind, sl)];
            SameCounts(caches, caches') && SameButHeads(caches, caches')
  {
  }

  lemma PushKeepsCacheLinks(c: int, ca: Cache, slabs: map<int, Slab>, l: Lists, kind: Kind, x: int)
    requires CacheLinks(c, ca, slabs, l) && x in slabs && x >= 0 && slabs[x].cache == c && !OnSome(l, x)
    ensures Head(ca, kind) == -1 || Head(ca, kind) in slabs
    ensures SameBodies(slabs, Pushed(slabs, Head(ca, kind), x))
    ensures forall y :: y in slabs && y != x && y !in l.On(kind) ==> Pushed(slabs, Head(ca, kind), x)[y] == slabs[y]
    ensures var l' := l.With(kind, [x] + l.On(kind));
            && CacheLinks(c, WithHead(ca, kind, x), Pushed(slabs, Head(ca, kind), x), l')
            && (forall y :: OnSome(l', y) <==> OnSome(l, y) || y == x)
  {
    var s := l.On(kind);
    assert DList(Head(ca, kind), slabs, s);
    PushedList(slabs, Head(ca, kind), x, s);
    var slabs' := Pushed(slabs, Head(ca, kind), x);
    assert s != [] ==> s[0] in s;
    if kind != Empty {
      DListFrame(ca.empty, slabs, slabs', l.empty);
    }
    if kind != Partial {
      DListFrame(ca.partial, slabs, slabs', l.partial);
    }
    if kind != Full {
      DListFrame(ca.full, slabs, slabs', l.full);
    }
  }

  /** Putting a loose slab on a list of its cache leaves every list well formed. */
  lemma PushKeepsLinks(caches: map<int, Cache>, slabs: map<int, Slab>, lists: map<int, Lists>,
                       loose: set<int>, c: int, kind: Kind, x: int)
    requires Links(caches, slabs, lists, loose) && c in caches
    requires x in slabs && x >= 0 && slabs[x].cache == c && x in loose
    ensures Head(caches[c], kind) == -1 || Head(caches[c], kind) in slabs
    ensures SameBodies(slabs, Pushed(slabs, Head(caches[c], kind), x))
    ensures Links(caches[c := WithHead(caches[c], kind, x)], Pushed(slabs, Head(caches[c], kind), x),
                  lists[c := lists[c].With(kind, [x] + lists[c].On(kind))], loose - {x})
  {
    assert CacheLinks(c, caches[c], slabs, lists[c]);
    PushKeepsCacheLinks(c, caches[c], slabs, lists[c], kind, x);
    assert forall y :: y in lists[c].On(kind) ==> OnSome(lists[c], y);
    Relinked(caches, slabs, lists, loose, c, WithHead(caches[c], kind, x),
             Pushed(slabs, Head(caches[c], kind), x),
             lists[c].With(kind, [x] + lists[c].On(kind)), loose - {x});
  }

  // ---- Sizes ----

  function ObjectsPerSlab(objectSize: nat, slabBytes: nat): nat
    requires slabBytes >= SIZEOF_SLAB
  {
    (slabBytes - SIZEOF_SLAB) / (objectSize + SIZEOF_OBJECT)
  }

  /** The least power of two up to 16 that gives at least eight objects a slab, or else 16. */
  predicate IsSlabSize(objectSize: nat, blocks: nat) {
    && blocks in {1, 2, 4, 8, 16}
    && (blocks < 16 ==> ObjectsPerSlab(objectSize, blocks * BLOCK_SIZE) >= 8)
    && (forall b :: b in {1, 2, 4, 8} && b < blocks ==> ObjectsPerSlab(objectSize, b * BLOCK_SIZE) < 8)
  }

  lemma SlabOrder(objectSize: nat, blocks: nat)
    requires IsSlabSize(objectSize, blocks)
    ensures Pow2(CeilLog2(blocks)) == blocks
  {
    CeilLog2Unique(blocks, if blocks == 1 then 0 else if blocks == 2 then 1 else if blocks == 4 then 2
                           else if blocks == 8 then 3 else 4);
  }

  /** A slab holds an object exactly when the object size is at most 65472, half
      of what kmem_cache_create accepts. */
  lemma HoldsAnObject(objectSize: nat, blocks: nat)
    requires IsSlabSize(objectSize, blocks)
    ensures ObjectsPerSlab(objectSize, blocks * BLOCK_SIZE) >= 1 <==> objectSize <= 65472
  {
    if blocks < 16 {
      QuotientAtLeast(blocks * BLOCK_SIZE - SIZEOF_SLAB, objectSize + SIZEOF_OBJECT, 8);
    } else {
      QuotientAtLeast(16 * BLOCK_SIZE - SIZEOF_SLAB, objectSize + SIZEOF_OBJECT, 1);
    }
  }

  lemma QuotientAtLeast(n: nat, d: nat, q: nat)
    requires d >= 1
    ensures n / d >= q <==> n >= q * d
  {
    assert n == d * (n / d) + n % d;
    if n / d >= q {
      assert d * (n / d) >= d * q;
    } else {
      assert d * (n / d + 1) <= d * q;
    }
  }

  /** The header of object `i` in the slab that starts at block `x`. */
  function ObjAddr(x: int, i: int, objectSize: nat): int {
    x * BLOCK_SIZE + SIZEOF_SLAB + i * (objectSize + SIZEOF_OBJECT)
  }

  /** Objects lie inside their slab, behind its header, one after the other. */
  lemma ObjectsApart(x: int, i: nat, j: nat, objectSize: nat, blocks: nat)
    requires blocks >= 1 && i < j <= ObjectsPerSlab(objectSize, blocks * BLOCK_SIZE)
    ensures x * BLOCK_SIZE + SIZEOF_SLAB <= ObjAddr(x, i, objectSize)
    ensures ObjAddr(x, i, objectSize) + SIZEOF_OBJECT + objectSize <= ObjAddr(x, j, objectSize)
    ensures ObjAddr(x, j, objectSize) <= (x + blocks) * BLOCK_SIZE
  {
    var a, n := objectSize + SIZEOF_OBJECT, ObjectsPerSlab(objectSize, blocks * BLOCK_SIZE);
    QuotientAtLeast(blocks * BLOCK_SIZE - SIZEOF_SLAB, a, n);
    Multiples(i, j, n, a);
  }

  lemma {:induction false} Multiples(i: nat, j: nat, n: nat, a: nat)
    requires i < j <= n
    ensures 0 <= i * a && i * a + a <= j * a <= n * a
  {
    MultiplesApart(i, j, a);
    if j < n {
      MultiplesApart(j, n, a);
    }
  }

  lemma {:induction false} MultiplesApart(i: nat, j: nat, a: nat)
    requires i < j
    ensures 0 <= i * a && i * a + a <= j * a
    decreases j
  {
    assert j * a == (j - 1) * a + a;
    if i < j - 1 {
      MultiplesApart(i, j - 1, a);
    }
  }

  ghost predicate IsObject(a: int, x: int, objectSize: nat, numMax: nat) {
    exists i :: 0 <= i < numMax && a == ObjAddr(x, i, objectSize)
  }

  // ---- Free objects of one slab ----

  predicate ObjNode(objects: map<int, Object>, fr: seq<int>, i: nat)
    requires i < |fr|
  {
    fr[i] >= 0 && fr[i] in objects && objects[fr[i]].next == At(fr, i + 1)
  }

  ghost predicate ObjList(head: int, objects: map<int, Object>, fr: seq<int>) {
    && head == At(fr, 0) && Distinct(fr)
    && forall i :: 0 <= i < |fr| ==> ObjNode(objects, fr, i)
  }

  /** The slab at `x` with free objects `fr`: the rest of its objects are live
      and know their slab. */
  ghost predicate SlabOk(x: int, sl: Slab, ca: Cache, objects: map<int, Object>, fr: seq<int>) {
    && x >= 0 && IsSlabSize(ca.objectSize, ca.slabSize)
    && sl.numMax == ObjectsPerSlab(ca.objectSize, ca.slabSize * BLOCK_SIZE)
    && sl.numFree == |fr| && ObjList(sl.freeList, objects, fr)
    && (forall a :: a in fr ==> IsObject(a, x, ca.objectSize, sl.numMax))
    && (forall i :: 0 <= i < sl.numMax ==> ObjectOk(x, i, ca.objectSize, objects, fr))
  }

  predicate ObjectOk(x: int, i: int, objectSize: nat, objects: map<int, Object>, fr: seq<int>) {
    var a := ObjAddr(x, i, objectSize);
    a in objects && (a !in fr ==> objects[a].slab == x)
  }

  lemma SlabOkFrame(x: int, sl: Slab, sl': Slab, ca: Cache, ca': Cache,
                    objects: map<int, Object>, objects': map<int, Object>, fr: seq<int>)
    requires SlabOk(x, sl, ca, objects, fr)
    requires sl'.numMax == sl.numMax && sl'.numFree == sl.numFree && sl'.freeList == sl.freeList
    requires ca'.objectSize == ca.objectSize && ca'.slabSize == ca.slabSize
    requires forall a :: IsObject(a, x, ca.objectSize, sl.numMax) && a in objects ==>
                           a in objects' && objects'[a] == objects[a]
    ensures SlabOk(x, sl', ca', objects', fr)
  {
    forall i | 0 <= i < |fr| ensures ObjNode(objects', fr, i) {
      assert fr[i] in fr && ObjNode(objects, fr, i);
    }
    forall i | 0 <= i < sl.numMax ensures ObjectOk(x, i, ca.objectSize, objects', fr) {
      assert ObjectOk(x, i, ca.objectSize, objects, fr);
      assert IsObject(ObjAddr(x, i, ca.objectSize), x, ca.objectSize, sl.numMax);
    }
  }

  /** Handing out the first free object. */
  lemma PopObject(x: int, sl: Slab, ca: Cache, objects: map<int, Object>, fr: seq<int>)
    requires SlabOk(x, sl, ca, objects, fr) && fr != []
    ensures sl.freeList == fr[0] && fr[0] in objects && sl.numFree >= 1
    ensures SlabOk(x, sl.(freeList := objects[fr[0]].next, numFree := sl.numFree - 1), ca,
                   objects[fr[0] := objects[fr[0]].(slab := x)], fr[1..])
    ensures fr[0] !in fr[1..]
  {
    assert ObjNode(objects, fr, 0);
    var objects' := objects[fr[0] := objects[fr[0]].(slab := x)];
    forall i | 0 <= i < |fr[1..]| ensures ObjNode(objects', fr[1..], i) {
      assert ObjNode(objects, fr, i + 1);
    }
    forall i | 0 <= i < sl.numMax ensures ObjectOk(x, i, ca.objectSize, objects', fr[1..]) {
      assert ObjectOk(x, i, ca.objectSize, objects, fr);
    }
  }

  /** Taking back a live object. */
  lemma PushObject(x: int, sl: Slab, ca: Cache, objects: map<int, Object>, fr: seq<int>, a: int)
    requires SlabOk(x, sl, ca, objects, fr) && IsObject(a, x, ca.objectSize, sl.numMax) && a !in fr
    ensures a in objects
    ensures SlabOk(x, sl.(freeList := a, numFree := sl.numFree + 1), ca,
                   objects[a := objects[a].(next := sl.freeList)], [a] + fr)
  {
    var k :| 0 <= k < sl.numMax && a == ObjAddr(x, k, ca.objectSize);
    assert ObjectOk(x, k, ca.objectSize, objects, fr);
    ObjectsApart(x, k, k + 1, ca.objectSize, ca.slabSize);
    var objects', fr' := objects[a := objects[a].(next := sl.freeList)], [a] + fr;
    forall i | 0 <= i < |fr'| ensures ObjNode(objects', fr', i) {
      if i > 0 {
        assert ObjNode(objects, fr, i - 1) && fr[i - 1] in fr;
      }
    }
    forall i | 0 <= i < sl.numMax ensures ObjectOk(x, i, ca.objectSize, objects', fr') {
      assert ObjectOk(x, i, ca.objectSize, objects, fr);
    }
  }

  /** A slab with a live object has fewer free objects than objects. */
  lemma LiveObjectCounts(x: int, sl: Slab, ca: Cache, objects: map<int, Object>, fr: seq<int>, a: int)
    requires SlabOk(x, sl, ca, objects, fr) && IsObject(a, x, ca.objectSize, sl.numMax) && a !in fr
    ensures sl.numFree < sl.numMax
  {
    var objs := ObjSet(x, sl.numMax, ca.objectSize);
    ObjSetSize(x, sl.numMax, ca.objectSize);
    var free := set b | b in fr;
    DistinctSetSize(fr);
    assert free <= objs - {a};
    SubsetSize(free, objs - {a});
  }

  ghost function ObjSet(x: int, n: nat, objectSize: nat): set<int> {
    set i | 0 <= i < n :: ObjAddr(x, i, objectSize)
  }

  lemma {:induction false} ObjSetSize(x: int, n: nat, objectSize: nat)
    ensures |ObjSet(x, n, objectSize)| <= n
  {
    if n > 0 {
      ObjSetSize(x, n - 1, objectSize);
      assert ObjSet(x, n, objectSize) == ObjSet(x, n - 1, objectSize) + {ObjAddr(x, n - 1, objectSize)};
    }
  }
}
