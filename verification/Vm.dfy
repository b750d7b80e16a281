/** The page allocator of kernel/kalloc.c and the page-table operations of kernel/vm.c. */
module Vm {
  import opened Common
  import opened PageTable
  import opened FreeWalk
  import opened Ways

  const PGSIZE := 4096

  /** The tables, the contents of pages, and which frames are in use, where. */
  datatype Mem = Mem(t: Tables, d: map<nat, seq<int>>, at: map<nat, Node>)

  ghost predicate DataOk(data: map<nat, seq<int>>, at: map<nat, Node>) {
    forall c :: c in at && at[c].level == -1 ==> c in data && |data[c]| == PGSIZE
  }

  ghost predicate Sound(m: Mem) {
    GraphOk(m.t, m.at, {}) && DataOk(m.d, m.at)
  }

  ghost predicate Root(m: Mem, r: nat) {
    IsRoot(m.at, r)
  }

  /** The entry that table `r` shows for a page, and whether it holds the frame. */
  ghost function At(m: Mem, r: nat, p: nat): (int, bool) {
    Seen(m.t, m.at, r, p)
  }

  /** Each frame of the pool is free, in use or in the hands of the caller. */
  ghost predicate Accounted(free: seq<nat>, at: map<nat, Node>, frames: set<nat>, loose: set<nat>) {
    && (forall i, j :: 0 <= i < j < |free| ==> free[i] != free[j])
    && (forall c :: c in free ==> c !in at && c !in loose)
    && (forall c :: c in loose ==> c !in at)
    && (forall c :: c in frames <==> c in free || c in at || c in loose)
  }

  lemma PutToUse(free: seq<nat>, at: map<nat, Node>, frames: set<nat>, loose: set<nat>, c: nat, node: Node)
    requires Accounted(free, at, frames, loose) && c in loose
    ensures Accounted(free, at[c := node], frames, loose - {c})
  {
  }

  lemma TakenOut(free: seq<nat>, at: map<nat, Node>, frames: set<nat>, loose: set<nat>, c: nat)
    requires Accounted(free, at, frames, loose) && c in at
    ensures Accounted(free, at - {c}, frames, loose + {c}) && c !in loose
  {
  }

  // ---- Relations between two states ----

  ghost predicate SameRoots(m: Mem, m': Mem) {
    forall r :: Root(m, r) <==> Root(m', r)
  }

  /** Frames in use stay where they are, and pages keep their contents. */
  ghost predicate Kept(m: Mem, m': Mem) {
    forall c :: c in m.at ==> c in m'.at && m'.at[c] == m.at[c]
                              && (m.at[c].level == -1 && c in m.d ==> c in m'.d && m'.d[c] == m.d[c])
  }

  /** The given frames keep their contents. */
  ghost predicate SameData(m: Mem, m': Mem, cs: set<nat>) {
    forall c :: c in cs && c in m.d ==> c in m'.d && m'.d[c] == m.d[c]
  }

  /** Frames that have come into use are under `root`. */
  ghost predicate Grows(m: Mem, m': Mem, root: nat) {
    forall c :: c in m'.at && c !in m.at ==> Under(m'.at, c, root)
  }

  lemma GrowsThen(m: Mem, m1: Mem, m2: Mem, root: nat)
    requires Sound(m1) && Sound(m2) && Kept(m1, m2) && Grows(m, m1, root) && Grows(m1, m2, root)
    ensures Grows(m, m2, root)
  {
    forall c | c in m2.at && c !in m.at ensures Under(m2.at, c, root) {
      if c in m1.at {
        UnderWithin(m2.t, m2.at, {}, m1.t, m1.at, {}, c, root);
      }
    }
  }

  /** Tables may have been added under `root`, but every page table shows what it did. */
  ghost predicate Extended(m: Mem, m': Mem, root: nat, loose: set<nat>) {
    && (forall r, p :: Root(m, r) && 0 <= p < MAX_PAGE ==> At(m', r, p) == At(m, r, p))
    && SameRoots(m, m') && Kept(m, m') && SameData(m, m', loose) && Grows(m, m', root)
  }

  lemma AtTop(m: Mem, root: nat, page: nat, loose: set<nat>)
    ensures Extended(m, m, root, loose) && TableAt(m.t, root, page, 2) == root
    ensures DownTo(m.t, m.t, root, page, 2) && Made(m.t, root, page, 2) == 0
  {
  }

  lemma ExtendedThen(m: Mem, m1: Mem, m2: Mem, root: nat, loose: set<nat>)
    requires Sound(m1) && Sound(m2) && Extended(m, m1, root, loose) && Extended(m1, m2, root, loose)
    ensures Extended(m, m2, root, loose)
  {
    GrowsThen(m, m1, m2, root);
    forall r, p | Root(m, r) && 0 <= p < MAX_PAGE ensures At(m2, r, p) == At(m, r, p) {
      assert Root(m1, r) && At(m1, r, p) == At(m, r, p);
    }
  }

  /** Page `page` of `root` shows `e` now, and every other page what it did. */
  ghost predicate OnePage(m: Mem, m': Mem, root: nat, page: nat, e: (int, bool)) {
    && (forall r, p :: Root(m, r) && 0 <= p < MAX_PAGE ==>
          At(m', r, p) == if r == root && p == page then e else At(m, r, p))
    && SameRoots(m, m')
  }

  lemma ExtendedThenPage(m: Mem, m1: Mem, m2: Mem, root: nat, page: nat, e: (int, bool), loose: set<nat>)
    requires Sound(m1) && Sound(m2) && Extended(m, m1, root, loose)
    requires OnePage(m1, m2, root, page, e) && Kept(m1, m2) && SameData(m1, m2, loose) && Grows(m1, m2, root)
    ensures OnePage(m, m2, root, page, e) && Kept(m, m2) && SameData(m, m2, loose) && Grows(m, m2, root)
  {
    GrowsThen(m, m1, m2, root);
    forall r, p | Root(m, r) && 0 <= p < MAX_PAGE
      ensures At(m2, r, p) == if r == root && p == page then e else At(m, r, p)
    {
      assert Root(m1, r) && At(m1, r, p) == At(m, r, p);
    }
  }

  /** The mappings of `n` pages are gone, and nothing else: of the frames in use only those that these pages
      held have left. */
  ghost predicate Cut(m: Mem, m': Mem, root: nat, page: nat, n: nat, loose: set<nat>) {
    && (forall r, p :: Root(m, r) && 0 <= p < MAX_PAGE ==>
          At(m', r, p) == if r == root && page <= p < page + n then (0, false) else At(m, r, p))
    && SameRoots(m, m') && Kept(m', m) && SameData(m, m', loose)
    && (forall c :: c in m.at && c !in m'.at ==> m.at[c].level == -1 && InRange(m, c, root, page, n))
  }

  /** Frame `c` is held by one of `n` pages. */
  ghost predicate InRange(m: Mem, c: nat, root: nat, page: nat, n: nat) {
    exists p :: page <= p < page + n && At(m, root, p).1 && Frame(At(m, root, p).0) == c
  }

  lemma NotYetCut(m: Mem, m1: Mem, root: nat, page: nat, k: nat, next: nat, loose: set<nat>)
    requires Cut(m, m1, root, page, k, loose) && Root(m, root) && next == page + k < MAX_PAGE
    ensures At(m1, root, next) == At(m, root, next)
  {
  }

  lemma CutNothing(m: Mem, root: nat, page: nat, loose: set<nat>)
    ensures Cut(m, m, root, page, 0, loose)
  {
  }

  lemma CutByOne(m: Mem, m': Mem, root: nat, page: nat, loose: set<nat>)
    requires OnePage(m, m', root, page, (0, false)) && SameData(m, m', loose)
    requires if At(m, root, page).1
             then var c := Frame(At(m, root, page).0);
                  c >= 0 && c in m.at && m.at[c].level == -1 && m'.at == m.at - {c}
                  && forall x :: x != c && x in m'.d ==> x in m.d && m.d[x] == m'.d[x]
             else m'.at == m.at && m'.d == m.d
    ensures Cut(m, m', root, page, 1, loose)
  {
  }

  lemma CutMore(m: Mem, m1: Mem, m2: Mem, root: nat, page: nat, n: nat, next: nat, more: set<nat>, loose: set<nat>)
    requires Cut(m, m1, root, page, n, loose) && Cut(m1, m2, root, next, 1, more) && next == page + n && loose <= more
    requires Root(m, root) && next < MAX_PAGE
    ensures Cut(m, m2, root, page, n + 1, loose)
  {
    forall r, p | Root(m, r) && 0 <= p < MAX_PAGE
      ensures At(m2, r, p) == if r == root && page <= p < page + (n + 1) then (0, false) else At(m, r, p)
    {
      assert Root(m1, r);
      assert At(m1, r, p) == if r == root && page <= p < page + n then (0, false) else At(m, r, p);
    }
    forall c | c in m.at && c !in m2.at ensures m.at[c].level == -1 && InRange(m, c, root, page, n + 1) {
      if c in m1.at {
        var p :| next <= p < next + 1 && At(m1, root, p).1 && Frame(At(m1, root, p).0) == c;
        assert At(m1, root, p) == At(m, root, p);
      } else {
        var p :| page <= p < page + n && At(m, root, p).1 && Frame(At(m, root, p).0) == c;
      }
    }
  }

  /** The pages in the range are unmapped, or hold their frame. */
  ghost predicate Held(m: Mem, root: nat, page: nat, n: nat) {
    forall p :: page <= p < page + n ==> At(m, root, p).0 == 0 || At(m, root, p).1
  }

  ghost predicate Vacant(m: Mem, root: nat, page: nat, n: nat) {
    forall p :: page <= p < page + n ==> At(m, root, p).0 == 0
  }

  // ---- Single steps ----

  /** What a new table does to everything else. */
  lemma Linked(m: Mem, d': map<nat, seq<int>>, root: nat, page: nat, level: nat, f: nat, i: nat, c: nat,
               loose: set<nat>)
    requires Sound(m) && Root(m, root) && page < MAX_PAGE && 1 <= level <= 2 && c !in loose
    requires f == TableAt(m.t, root, page, level) && i == Px(level, page)
    requires CanLink(m.t, m.at, f, i, c) && m.at[f].level == level
    requires c in d' && d' == m.d[c := d'[c]]
    ensures var m' := Mem(WithTable(m.t, f, i, c), d', m.at[c := Node(level - 1, f, i)]);
            Sound(m') && Extended(m, m', root, loose) && TableAt(m'.t, root, page, level - 1) == c
  {
    LinkedGraph(m.t, m.at, f, i, c);
    var m' := Mem(WithTable(m.t, f, i, c), d', m.at[c := Node(level - 1, f, i)]);
    forall r, p | Root(m, r) && 0 <= p < MAX_PAGE ensures At(m', r, p) == At(m, r, p) {
      LinkedSeen(m.t, m.at, f, i, c, r, p);
    }
    LinkedWay(m.t, m.at, f, i, c, root, page, level);
    WayUnder(m.t, m.at, root, page, level);
    UnderWithin(m'.t, m'.at, {}, m.t, m.at, {}, f, root);
    UnderParent(m'.t, m'.at, {}, c, root);
  }

  /** Page `page` of `root` gets frame `c`, to hold or to borrow. */
  lemma Mapped(m: Mem, root: nat, page: nat, f: nat, i: nat, c: nat, e: int, own: bool)
    requires Sound(m) && Root(m, root) && page < MAX_PAGE && f == TableAt(m.t, root, page, 0) && i == Px(0, page)
    requires At(m, root, page).0 == 0 && IsValid(e) && IsLeaf(e) && Frame(e) == c
    requires own ==> c !in m.at && c in m.d && |m.d[c]| == PGSIZE
    ensures f in m.t && |m.t[f]| == ENTRIES
    ensures var m' := m.(t := WithEntry(m.t, f, i, e), at := WithPage(m.at, f, i, c, own));
            Sound(m') && OnePage(m, m', root, page, (e, own)) && Kept(m, m') && Grows(m, m', root)
            && SameTables(m.t, m'.t, root)
  {
    TableAtOk(m.t, m.at, root, page, 0);
    WayUnder(m.t, m.at, root, page, 0);
    MappedGraph(m.t, m.at, f, i, c, e, own);
    var m' := m.(t := WithEntry(m.t, f, i, e), at := WithPage(m.at, f, i, c, own));
    forall r, p | Root(m, r) && 0 <= p < MAX_PAGE
      ensures At(m', r, p) == if r == root && p == page then (e, own) else At(m, r, p)
    {
      MappedSeen(m.t, m.at, root, page, c, e, own, r, p);
    }
    LeafTables(m, root, f, i, e);
    if own {
      UnderWithin(m'.t, m'.at, {}, m.t, m.at, {}, f, root);
      UnderParent(m'.t, m'.at, {}, c, root);
    }
  }

  /** The same tables are on the way to every page. */
  ghost predicate SameTables(t: Tables, t': Tables, root: nat) {
    forall p: nat, l: nat :: p < MAX_PAGE && l <= 1 ==> TableAt(t', root, p, l) == TableAt(t, root, p, l)
  }

  lemma LeafTables(m: Mem, root: nat, f: nat, i: nat, e: int)
    requires Sound(m) && Root(m, root) && f in m.at && m.at[f].level == 0 && f in m.t && |m.t[f]| == ENTRIES
    requires i < ENTRIES
    ensures SameTables(m.t, WithEntry(m.t, f, i, e), root)
  {
    forall p: nat, l: nat | p < MAX_PAGE && l <= 1
      ensures TableAt(WithEntry(m.t, f, i, e), root, p, l) == TableAt(m.t, root, p, l)
    {
      LeafWay(m.t, m.at, f, i, e, root, p, l);
    }
  }

  /** Page `page` of `root` loses its frame. */
  lemma Unmapped(m: Mem, root: nat, page: nat, f: nat, i: nat)
    requires Sound(m) && Root(m, root) && page < MAX_PAGE && f == TableAt(m.t, root, page, 0) && i == Px(0, page)
    requires At(m, root, page).0 != 0
    ensures f in m.t && |m.t[f]| == ENTRIES && m.t[f][i] == At(m, root, page).0 && Frame(m.t[f][i]) >= 0
    ensures At(m, root, page).1 <==> Frame(m.t[f][i]) in m.at && m.at[Frame(m.t[f][i])] == Node(-1, f, i)
    ensures var m' := m.(t := WithEntry(m.t, f, i, 0), at := WithoutPage(m.at, f, i, Frame(m.t[f][i])));
            Sound(m') && OnePage(m, m', root, page, (0, false))
  {
    TableAtOk(m.t, m.at, root, page, 0);
    UnmappedGraph(m.t, m.at, f, i);
    var m' := m.(t := WithEntry(m.t, f, i, 0), at := WithoutPage(m.at, f, i, Frame(m.t[f][i])));
    forall r, p | Root(m, r) && 0 <= p < MAX_PAGE
      ensures At(m', r, p) == if r == root && p == page then (0, false) else At(m, r, p)
    {
      UnmappedSeen(m.t, m.at, root, page, r, p);
    }
  }

  // ---- Filling a range with fresh pages ----

  /** In `n` pages of `root` there may be new mappings, each holding a frame that was not in use; nothing else
      changed. */
  ghost predicate Filled(m: Mem, m': Mem, root: nat, page: nat, n: nat, loose: set<nat>) {
    && (forall r, p :: Root(m, r) && 0 <= p < MAX_PAGE && !(r == root && page <= p < page + n) ==>
          At(m', r, p) == At(m, r, p))
    && (forall p :: page <= p < page + n && At(m', root, p).0 != 0 ==> HoldsFresh(m, m', root, p))
    && SameRoots(m, m') && Kept(m, m') && SameData(m, m', loose) && Grows(m, m', root)
  }

  ghost predicate HoldsFresh(m: Mem, m': Mem, root: nat, p: nat) {
    At(m', root, p).1 && Fresh(m, m', Frame(At(m', root, p).0))
  }

  ghost predicate Fresh(m: Mem, m': Mem, c: int) {
    c >= 0 && c !in m.at && c in m'.at
  }

  lemma FilledNothing(m: Mem, root: nat, page: nat, loose: set<nat>)
    ensures Filled(m, m, root, page, 0, loose)
  {
  }

  /** The tables may have grown in between. */
  lemma FilledExtended(m: Mem, m1: Mem, m2: Mem, root: nat, page: nat, n: nat, loose: set<nat>)
    requires Filled(m, m1, root, page, n, loose) && Extended(m1, m2, root, loose) && Sound(m1) && Sound(m2)
    requires Root(m, root) && page + n <= MAX_PAGE
    ensures Filled(m, m2, root, page, n, loose)
  {
    GrowsThen(m, m1, m2, root);
    forall r, p | Root(m, r) && 0 <= p < MAX_PAGE ensures At(m2, r, p) == At(m1, r, p) {
      assert Root(m1, r);
    }
    forall p | page <= p < page + n && At(m2, root, p).0 != 0 ensures HoldsFresh(m, m2, root, p) {
      assert HoldsFresh(m, m1, root, p);
    }
  }

  lemma FilledMore(m: Mem, m1: Mem, m2: Mem, root: nat, page: nat, n: nat, next: nat, e: (int, bool), loose: set<nat>)
    requires Filled(m, m1, root, page, n, loose) && Root(m, root) && next == page + n < MAX_PAGE
    requires OnePage(m1, m2, root, next, e) && Kept(m1, m2) && SameData(m1, m2, loose)
    requires Sound(m1) && Sound(m2) && Grows(m1, m2, root)
    requires e.0 != 0 ==> e.1 && Fresh(m1, m2, Frame(e.0))
    ensures Filled(m, m2, root, page, n + 1, loose)
  {
    GrowsThen(m, m1, m2, root);
    forall r, p | Root(m, r) && 0 <= p < MAX_PAGE
      ensures At(m2, r, p) == if r == root && p == next then e else At(m1, r, p)
    {
      assert Root(m1, r);
    }
    forall p | page <= p < page + (n + 1) && At(m2, root, p).0 != 0 ensures HoldsFresh(m, m2, root, p) {
      if p < next {
        assert HoldsFresh(m, m1, root, p);
      }
    }
  }

  /** What was filled can be undone. */
  lemma FilledHeld(m: Mem, m': Mem, root: nat, page: nat, n: nat, loose: set<nat>)
    requires Filled(m, m', root, page, n, loose)
    ensures Held(m', root, page, n)
  {
    forall p | page <= p < page + n ensures At(m', root, p).0 == 0 || At(m', root, p).1 {
      assert At(m', root, p).0 != 0 ==> HoldsFresh(m, m', root, p);
    }
  }

  /** Undoing it gives every page table back what it showed. */
  lemma FilledThenCut(m: Mem, m1: Mem, m2: Mem, root: nat, page: nat, n: nat, loose: set<nat>)
    requires Filled(m, m1, root, page, n, loose) && Cut(m1, m2, root, page, n, loose)
    requires Root(m, root) && page + n <= MAX_PAGE && Sound(m1) && Sound(m2) && Vacant(m, root, page, n)
    ensures Extended(m, m2, root, loose)
  {
    forall c | c in m2.at && c !in m.at ensures Under(m2.at, c, root) {
      UnderWithin(m1.t, m1.at, {}, m2.t, m2.at, {}, c, root);
    }
    forall r, p | Root(m, r) && 0 <= p < MAX_PAGE ensures At(m2, r, p) == At(m, r, p) {
      assert Root(m1, r);
      assert !(r == root && page <= p < page + n) ==> At(m1, r, p) == At(m, r, p);
    }
    forall c | c in m.at ensures c in m2.at && m2.at[c] == m.at[c] {
      assert c in m1.at && m1.at[c] == m.at[c];
      assert !InRange(m1, c, root, page, n);
    }
  }

  /** The contents of a frame not in use do not matter. */
  lemma Prepared(m: Mem, m1: Mem, m2: Mem, c: nat, root: nat, loose: set<nat>)
    requires m1.t == m.t && m1.at == m.at && c !in m.at && c !in loose
    requires forall x :: x in m.d && x != c ==> x in m1.d && m1.d[x] == m.d[x]
    requires Kept(m1, m2) && SameData(m1, m2, loose) && Grows(m1, m2, root)
    ensures Kept(m, m2) && SameData(m, m2, loose) && Grows(m, m2, root)
    ensures forall r, p :: At(m1, r, p) == At(m, r, p)
    ensures forall r :: Root(m1, r) <==> Root(m, r)
  {
  }

  lemma Abandoned(m: Mem, m1: Mem, m2: Mem, m3: Mem, c: nat, root: nat, loose: set<nat>)
    requires m1.t == m.t && m1.at == m.at && c !in m.at && c !in loose && c !in m2.at
    requires forall x :: x in m.d && x != c ==> x in m1.d && m1.d[x] == m.d[x]
    requires Extended(m1, m2, root, loose + {c}) && m3.t == m2.t && m3.at == m2.at && c in m3.d
             && m3.d == m2.d[c := m3.d[c]]
    ensures Extended(m, m3, root, loose)
  {
    forall r, p | Root(m, r) && 0 <= p < MAX_PAGE ensures At(m3, r, p) == At(m, r, p) {
      assert Root(m1, r) && At(m2, r, p) == At(m1, r, p);
    }
    forall r ensures Root(m, r) <==> Root(m3, r) {
      assert Root(m1, r) <==> Root(m2, r);
    }
  }

  /** PGROUNDUP, in pages. */
  function PagesUp(size: nat): (n: nat)
    ensures n * PGSIZE >= size && (n > 0 ==> (n - 1) * PGSIZE < size)
  {
    (size + PGSIZE - 1) / PGSIZE
  }

  lemma BelowSize(p: nat, size: nat)
    ensures p * PGSIZE < size <==> p < PagesUp(size)
    ensures PagesUp(p * PGSIZE) == p
  {
  }

  function ZeroPage(): (z: seq<int>)
    ensures |z| == PGSIZE
  {
    seq(PGSIZE, _ => 0)
  }

  /** The pages in the range are mapped with the given flags and hold zeros. */
  ghost predicate Zeroed(m: Mem, root: nat, page: nat, n: nat, flags: int) {
    forall p :: page <= p < page + n ==> ZeroedAt(m, root, p, flags)
  }

  ghost predicate ZeroedAt(m: Mem, root: nat, p: nat, flags: int) {
    var e := At(m, root, p).0;
    At(m, root, p).1 && Flags(e) == flags && Frame(e) in m.d && m.d[Frame(e)] == ZeroPage()
  }

  lemma ZeroedNothing(m: Mem, root: nat, page: nat, flags: int)
    ensures Zeroed(m, root, page, 0, flags)
  {
  }

  /** Pages filled earlier are not touched by the next one. */
  lemma ZeroedMore(m: Mem, m': Mem, root: nat, page: nat, n: nat, next: nat, c: nat, perm: nat)
    requires Zeroed(m, root, page, n, perm + 1) && next == page + n < MAX_PAGE && perm < FLAGS && perm % 2 == 0
    requires Root(m, root) && OnePage(m, m', root, next, (MakePte(c, perm), true)) && Kept(m, m')
    requires c in m'.d && m'.d[c] == ZeroPage()
    ensures Zeroed(m', root, page, n + 1, perm + 1)
  {
    var flags := perm + 1;
    forall p | page <= p < page + (n + 1) ensures ZeroedAt(m', root, p, flags) {
      if p < next {
        assert ZeroedAt(m, root, p, flags);
      }
    }
  }

  // ---- Copying an address space ----

  /** Page `p` is mapped in both tables or in neither, with the same flags and contents. */
  ghost predicate CopyAt(m: Mem, m': Mem, src: nat, dst: nat, p: nat) {
    var e, e' := At(m, src, p).0, At(m', dst, p).0;
    if e == 0 then e' == 0
    else
      && At(m', dst, p).1 && Flags(e') == Flags(e) && Frame(e) >= 0 && Frame(e') >= 0
      && Frame(e) in m.d && Frame(e') in m'.d && m'.d[Frame(e')] == m.d[Frame(e)]
  }

  ghost predicate Copied(m: Mem, m': Mem, src: nat, dst: nat, n: nat) {
    forall p :: 0 <= p < n ==> CopyAt(m, m', src, dst, p)
  }

  lemma CopiedNothing(m: Mem, src: nat, dst: nat)
    ensures Copied(m, m, src, dst, 0) && MappedIn(m, src, 0) == {}
  {
  }

  /** The mapped ones of the first `n` pages. */
  ghost function MappedIn(m: Mem, root: nat, n: nat): (ps: set<nat>) {
    set p: nat | p < n && At(m, root, p).0 != 0
  }

  lemma OneMapped(m: Mem, root: nat, n: nat)
    requires n <= MAX_PAGE
    ensures AllPages(MappedIn(m, root, n)) && n !in MappedIn(m, root, n)
    ensures MappedIn(m, root, n + 1) == MappedIn(m, root, n) + if At(m, root, n).0 != 0 then {n} else {}
  {
  }

  lemma MoreMapped(m: Mem, src: nat, dst: nat, n: nat, k: nat)
    requires n <= k
    ensures var ps, qs := MappedIn(m, src, n), MappedIn(m, src, k);
            |ps| + TablesFor(m.t, dst, ps) <= |qs| + TablesFor(m.t, dst, qs)
  {
    hide TablesFor;
    var ps, qs := MappedIn(m, src, n), MappedIn(m, src, k);
    SubsetSize(ps, qs);
    TablesGrow(m.t, dst, ps, qs);
  }

  /** Pages copied earlier are not touched by the next one. */
  lemma CopiedMore(m0: Mem, m: Mem, m': Mem, src: nat, dst: nat, n: nat, e: (int, bool))
    requires Copied(m0, m, src, dst, n) && n < MAX_PAGE && Root(m, dst)
    requires OnePage(m, m', dst, n, e) && Kept(m, m') && CopyAt(m0, m', src, dst, n)
    ensures Copied(m0, m', src, dst, n + 1)
  {
    forall p | 0 <= p < n ensures CopyAt(m0, m', src, dst, p) {
      assert CopyAt(m0, m, src, dst, p);
    }
  }

  /** A fresh page with the contents and the flags of the parent's. */
  lemma CopiedPage(m0: Mem, m: Mem, m': Mem, src: nat, dst: nat, k: nat, e: int, c: nat)
    requires e == At(m0, src, k).0 && At(m0, src, k).1 && IsValid(e) && IsLeaf(e) && 0 <= Flags(e) < FLAGS
    requires Frame(e) in m0.d && Kept(m0, m)
    requires Frame(e) in m.d && c in m'.d && m'.d[c] == m.d[Frame(e)] && At(m', dst, k) == (MakePte(c, Flags(e)), true)
    ensures CopyAt(m0, m', src, dst, k)
  {
    FlagsAsPerm(e);
  }

  lemma EntryShown(m: Mem, root: nat, page: nat)
    requires Sound(m) && Root(m, root) && At(m, root, page).0 != 0
    ensures var e := At(m, root, page).0; IsValid(e) && IsLeaf(e) && Frame(e) >= 0
  {
    TableAtOk(m.t, m.at, root, page, 0);
    assert EntryOk(m.t, m.at, TableAt(m.t, root, page, 0), Px(0, page));
  }

  // ---- Whole page tables ----

  lemma NewRoot(m: Mem, d': map<nat, seq<int>>, c: nat, loose: set<nat>)
    requires Sound(m) && c !in m.at && c !in loose && c in d' && d' == m.d[c := d'[c]]
    ensures var m' := Mem(m.t[c := Empty()], d', m.at[c := ROOT_NODE]);
            Sound(m') && Created(m, m', c, loose) && Bare(m'.t, c)
  {
    var m' := Mem(m.t[c := Empty()], d', m.at[c := ROOT_NODE]);
    NewRootGraph(m.t, m.at, c);
    forall r, p | Root(m, r) && 0 <= p < MAX_PAGE ensures At(m', r, p) == At(m, r, p) {
      NewRootSeen(m.t, m.at, c, r, p);
    }
    forall p | 0 <= p < 0 + MAX_PAGE ensures At(m', c, p).0 == 0 {
      Missing(m'.t, c, p, 1);
    }
    assert forall p: nat :: !Has(m'.t, c, p, 1);
    assert forall p: nat :: !Has(m'.t, c, p, 0);
  }

  ghost function PageSet(at: map<nat, Node>): set<nat> {
    set c | c in at && at[c].level == -1
  }

  /** There is one page table more; the others show what they did. */
  ghost predicate Begun(m: Mem, m': Mem, root: int, loose: set<nat>) {
    && root >= 0 && Fresh(m, m', root) && Root(m', root)
    && (forall r, p :: Root(m, r) && 0 <= p < MAX_PAGE ==> At(m', r, p) == At(m, r, p))
    && (forall r :: Root(m', r) <==> Root(m, r) || r == root)
    && Kept(m, m') && SameData(m, m', loose) && Grows(m, m', root)
  }

  ghost predicate Created(m: Mem, m': Mem, root: int, loose: set<nat>) {
    Begun(m, m', root, loose) && Vacant(m', root, 0, MAX_PAGE)
  }

  /** Only table `root` may show something else, and no frame has left. */
  ghost predicate OnlyIn(m: Mem, m': Mem, root: nat, loose: set<nat>) {
    && (forall r, p :: Root(m, r) && r != root && 0 <= p < MAX_PAGE ==> At(m', r, p) == At(m, r, p))
    && SameRoots(m, m') && Kept(m, m') && SameData(m, m', loose) && Grows(m, m', root)
  }

  lemma BegunThen(m: Mem, m1: Mem, m2: Mem, root: nat, loose: set<nat>)
    requires Sound(m1) && Sound(m2) && Begun(m, m1, root, loose) && OnlyIn(m1, m2, root, loose)
    ensures Begun(m, m2, root, loose)
  {
    GrowsThen(m, m1, m2, root);
    forall r, p | Root(m, r) && 0 <= p < MAX_PAGE ensures At(m2, r, p) == At(m, r, p) {
      assert Root(m1, r) && At(m1, r, p) == At(m, r, p);
      assert r != root;
    }
  }

  /** Dropping borrowed pages takes no frame out of use. */
  lemma CutBorrowed(m: Mem, m': Mem, root: nat, page: nat, loose: set<nat>)
    requires Cut(m, m', root, page, 1, loose) && !At(m, root, page).1 && Sound(m) && Sound(m')
    ensures OnlyIn(m, m', root, loose) && m'.at == m.at && OnePage(m, m', root, page, (0, false))
  {
    forall c | c in m.at ensures c in m'.at {
      assert !InRange(m, c, root, page, 1);
    }
    forall c | c in m'.at ensures c in m.at {
    }
    assert m'.at == m.at;
  }

  /** With all mappings gone there are no leaves under the root. */
  lemma AllCut(m: Mem, m1: Mem, root: nat, n: nat, loose: set<nat>)
    requires Cut(m, m1, root, 0, n, loose) && Sound(m1) && Root(m, root) && n <= MAX_PAGE
    requires Vacant(m, root, n, MAX_PAGE - n)
    ensures NoLeaves(m1.t, m1.at, root) && SameData(m, m1, PageSet(m1.at) + loose)
  {
    forall p | 0 <= p < MAX_PAGE ensures Lookup(m1.t, root, p) == 0 {
      assert At(m1, root, p) == if 0 <= p < 0 + n then (0, false) else At(m, root, p);
    }
    EmptyMap(m1.t, m1.at, root);
  }

  /** Exactly the tree under `root` is gone. */
  ghost predicate TreeGone(m: Mem, m': Mem, root: nat) {
    && Within(m'.at, m.at) && (forall c :: c in m.at ==> (c in m'.at <==> !Under(m.at, c, root)))
    && (forall r, p :: Root(m, r) && r != root && 0 <= p < MAX_PAGE ==> At(m', r, p) == At(m, r, p))
  }

  /** Unmapping and freewalk together remove exactly the tree. */
  lemma FreedTree(m: Mem, m1: Mem, m2: Mem, root: nat, n: nat, loose: set<nat>)
    requires GraphOk(m.t, m.at, {}) && GraphOk(m1.t, m1.at, {}) && GraphOk(m2.t, m2.at, {}) && Root(m, root)
             && n <= MAX_PAGE
    requires Cut(m, m1, root, 0, n, loose) && Pruned(m1.t, m1.at, m2.t, m2.at, root)
    ensures TreeGone(m, m2, root)
  {
    forall c | c in m.at ensures c in m2.at <==> !Under(m.at, c, root) {
      if c in m1.at {
        UnderWithin(m.t, m.at, {}, m1.t, m1.at, {}, c, root);
      } else {
        var p :| 0 <= p < 0 + n && At(m, root, p).1 && Frame(At(m, root, p).0) == c;
        OwnedUnder(m.t, m.at, root, p);
      }
    }
    forall r, p | Root(m, r) && r != root && 0 <= p < MAX_PAGE ensures At(m2, r, p) == At(m, r, p) {
      assert Root(m1, r) && Root(m1, root);
      assert At(m1, r, p) == if r == root && 0 <= p < 0 + n then (0, false) else At(m, r, p);
      PrunedSeen(m1.t, m1.at, m2.t, m2.at, root, r, p);
    }
  }

  // ---- Mapping a range ----

  ghost function Span(c: nat, n: nat): (s: set<nat>)
    ensures forall x :: x in s <==> c <= x < c + n
  {
    if n == 0 then {} else Span(c, n - 1) + {c + n - 1}
  }

  /** What is left in the caller's hands once `n` frames from `c` on are handed over. */
  ghost function Rest(loose: set<nat>, c: nat, n: nat, own: bool): set<nat> {
    if own then loose - Span(c, n) else loose
  }

  ghost predicate InHand(m: Mem, loose: set<nat>, c: nat, n: nat) {
    forall x :: c <= x < c + n ==> x in loose && x in m.d && |m.d[x]| == PGSIZE
  }

  lemma RestMore(m: Mem, m': Mem, loose: set<nat>, c: nat, n: nat, k: nat, own: bool)
    requires k < n && (own ==> InHand(m, Rest(loose, c, k, own), c + k, n - k))
    ensures own ==> c + k in Rest(loose, c, k, own) && c + k in m.d && |m.d[c + k]| == PGSIZE
    ensures Rest(loose, c, k + 1, own) == if own then Rest(loose, c, k, own) - {c + k} else Rest(loose, c, k, own)
    ensures own && SameData(m, m', Rest(loose, c, k, own)) ==>
            InHand(m', Rest(loose, c, k + 1, own), c + k + 1, n - k - 1)
  {
  }

  /** The first `n` pages of the range are mapped to consecutive frames, which they hold or borrow; nothing else
      changed. */
  ghost predicate Laid(m: Mem, m': Mem, root: nat, page: nat, n: nat, c: nat, perm: nat, own: bool, loose: set<nat>)
    requires perm < FLAGS
  {
    && (forall r, p :: Root(m, r) && 0 <= p < MAX_PAGE ==>
          At(m', r, p) == if r == root && page <= p < page + n then (MakePte(c + p - page, perm), own) else At(m, r, p))
    && SameRoots(m, m') && Kept(m, m') && Grows(m, m', root) && SameData(m, m', Rest(loose, c, n, own))
  }

  lemma SpanGrows(c: nat, n: nat, m: nat)
    requires n <= m
    ensures Span(c, n) <= Span(c, m) && Span(c, 0) == {}
  {
  }

  lemma NoPages(t: Tables, root: nat, page: nat)
    ensures TablesFor(t, root, Span(page, 0)) == 0
  {
    SpanGrows(page, 0, 0);
    ReachesNone(t, root);
  }

  lemma OnePageSpan(p: nat)
    ensures Span(p, 1) == {p}
  {
  }

  lemma PageMore(t: Tables, t1: Tables, root: nat, page: nat, k: nat)
    requires page + k < MAX_PAGE && Reaches(t, t1, root, Span(page, k))
    ensures TablesFor(t, root, Span(page, k + 1)) == TablesFor(t, root, Span(page, k)) + Lacks(t1, root, page + k)
    ensures Span(page, k + 1) == Span(page, k) + {page + k}
  {
    hide Reaches, TablesFor, Lacks;
    TablesMore(t, t1, root, Span(page, k), page + k);
  }

  lemma LaidRoot(m: Mem, m': Mem, root: nat, page: nat, k: nat, c: nat, perm: nat, own: bool, loose: set<nat>)
    requires perm < FLAGS && Laid(m, m', root, page, k, c, perm, own, loose) && Root(m, root)
    ensures Root(m', root)
  {
  }

  lemma NotYetLaid(m: Mem, m1: Mem, root: nat, page: nat, k: nat, c: nat, perm: nat, own: bool, loose: set<nat>)
    requires perm < FLAGS && Laid(m, m1, root, page, k, c, perm, own, loose) && Root(m, root) && page + k < MAX_PAGE
    ensures At(m1, root, page + k) == At(m, root, page + k)
  {
  }

  lemma LaidNothing(m: Mem, root: nat, page: nat, c: nat, perm: nat, own: bool, loose: set<nat>)
    requires perm < FLAGS
    ensures Laid(m, m, root, page, 0, c, perm, own, loose) && Span(page, 0) == {}
  {
  }

  lemma LaidSame(m: Mem, m1: Mem, m2: Mem, root: nat, page: nat, n: nat, c: nat, perm: nat, own: bool, loose: set<nat>)
    requires perm < FLAGS && Laid(m, m1, root, page, n, c, perm, own, loose)
    requires Extended(m1, m2, root, Rest(loose, c, n, own)) && Sound(m1) && Sound(m2)
    ensures Laid(m, m2, root, page, n, c, perm, own, loose)
  {
    GrowsThen(m, m1, m2, root);
    forall r, p | Root(m, r) && 0 <= p < MAX_PAGE ensures At(m2, r, p) == At(m1, r, p) {
      assert Root(m1, r);
    }
  }

  lemma LaidMore(m: Mem, m1: Mem, m2: Mem, root: nat, page: nat, n: nat, c: nat, perm: nat, own: bool, next: nat,
                 frame: nat, loose: set<nat>)
    requires perm < FLAGS && Laid(m, m1, root, page, n, c, perm, own, loose) && next == page + n && frame == c + n
    requires OnePage(m1, m2, root, next, (MakePte(frame, perm), own)) && Kept(m1, m2)
    requires Sound(m1) && Sound(m2) && Grows(m1, m2, root) && SameData(m1, m2, Rest(loose, c, n, own))
    ensures Laid(m, m2, root, page, n + 1, c, perm, own, loose)
  {
    hide Sound, At, MakePte;
    GrowsThen(m, m1, m2, root);
    forall r, p | Root(m, r) && 0 <= p < MAX_PAGE
      ensures At(m2, r, p) == if r == root && p == next then (MakePte(frame, perm), own) else At(m1, r, p)
    {
      assert Root(m1, r);
    }
  }

  // ---- Process page tables ----

  const TRAMPOLINE := MAX_PAGE - 1
  const TRAPFRAME := MAX_PAGE - 2

  /** Every page table shows what it did, and the same frames are in use. */
  ghost predicate Restored(m: Mem, m': Mem, loose: set<nat>) {
    && m'.at == m.at && SameData(m, m', PageSet(m.at) + loose)
    && forall r, p :: Root(m, r) && 0 <= p < MAX_PAGE ==> At(m', r, p) == At(m, r, p)
  }

  /** An address space of size `sz` that holds its pages and borrows the two at the top. */
  ghost predicate ProcTable(m: Mem, root: nat, sz: nat) {
    && Root(m, root) && PagesUp(sz) <= TRAPFRAME
    && Held(m, root, 0, PagesUp(sz)) && Vacant(m, root, PagesUp(sz), TRAPFRAME - PagesUp(sz))
    && At(m, root, TRAPFRAME).0 != 0 && !At(m, root, TRAPFRAME).1
    && At(m, root, TRAMPOLINE).0 != 0 && !At(m, root, TRAMPOLINE).1
  }

  /** There is one page table more, for an empty address space. */
  ghost predicate NewProc(m: Mem, m': Mem, root: int, trampoline: nat, trapframe: nat, loose: set<nat>) {
    && Begun(m, m', root, loose) && ProcTable(m', root, 0)
    && Tops(m', root, trampoline, trapframe)
  }

  /** The two pages at the top: the code that enters and leaves the kernel, and the saved registers. */
  ghost predicate Tops(m: Mem, root: nat, trampoline: nat, trapframe: nat) {
    && At(m, root, TRAMPOLINE).0 == MakePte(trampoline, PTE_R + PTE_X)
    && At(m, root, TRAPFRAME).0 == MakePte(trapframe, PTE_R + PTE_W)
  }

  lemma CreatedVacant(m: Mem, m1: Mem, root: nat, loose: set<nat>)
    requires Created(m, m1, root, loose)
    ensures Root(m1, root) && Vacant(m1, root, TRAMPOLINE, 1)
  {
  }

  lemma TopVacant(m: Mem, m1: Mem, root: nat, loose: set<nat>)
    requires Begun(m, m1, root, loose) && Vacant(m1, root, 0, TRAMPOLINE)
    ensures Root(m1, root) && Vacant(m1, root, TRAPFRAME, 1)
  {
  }

  lemma LaidOnlyIn(m: Mem, m': Mem, root: nat, page: nat, n: nat, c: nat, perm: nat, loose: set<nat>)
    requires perm < FLAGS && Laid(m, m', root, page, n, c, perm, false, loose)
    ensures OnlyIn(m, m', root, loose)
  {
  }

  /** proc_pagetable after its first mappages. */
  lemma TrampolineLaid(m: Mem, m1: Mem, m2: Mem, root: nat, done: nat, trampoline: nat, loose: set<nat>)
    requires Sound(m1) && Sound(m2) && Created(m, m1, root, loose) && done <= 1
    requires Laid(m1, m2, root, TRAMPOLINE, done, trampoline, PTE_R + PTE_X, false, loose)
    ensures Begun(m, m2, root, loose) && Vacant(m2, root, 0, if done == 0 then MAX_PAGE else TRAMPOLINE)
    ensures done == 1 ==> At(m2, root, TRAMPOLINE) == (MakePte(trampoline, PTE_R + PTE_X), false)
  {
    hide Sound, MakePte;
    LaidOnlyIn(m1, m2, root, TRAMPOLINE, done, trampoline, PTE_R + PTE_X, loose);
    BegunThen(m, m1, m2, root, loose);
  }

  /** And after its second one. */
  lemma TrapframeLaid(m: Mem, m1: Mem, m2: Mem, root: nat, done: nat, trampoline: nat, trapframe: nat,
                      loose: set<nat>)
    requires Sound(m1) && Sound(m2) && Begun(m, m1, root, loose) && Vacant(m1, root, 0, TRAMPOLINE) && done <= 1
    requires At(m1, root, TRAMPOLINE) == (MakePte(trampoline, PTE_R + PTE_X), false)
    requires Laid(m1, m2, root, TRAPFRAME, done, trapframe, PTE_R + PTE_W, false, loose)
    ensures Begun(m, m2, root, loose)
    ensures done == 1 ==> NewProc(m, m2, root, trampoline, trapframe, loose)
    ensures done == 0 ==> Vacant(m2, root, 0, TRAMPOLINE) && !At(m2, root, TRAMPOLINE).1
  {
    hide Sound;
    LaidOnlyIn(m1, m2, root, TRAPFRAME, done, trapframe, PTE_R + PTE_W, loose);
    BegunThen(m, m1, m2, root, loose);
  }

  lemma SameRestored(m: Mem, loose: set<nat>)
    ensures Restored(m, m, loose)
  {
  }

  /** Whatever grew under a new root is gone with it. */
  lemma BackTo(m: Mem, m1: Mem, m2: Mem, root: nat, loose: set<nat>)
    requires Sound(m) && Sound(m1) && Sound(m2) && Begun(m, m1, root, loose)
    requires TreeGone(m1, m2, root) && SameData(m1, m2, PageSet(m2.at) + loose)
    ensures Restored(m, m2, loose)
  {
    forall c | c in m.at ensures c in m2.at && m2.at[c] == m.at[c] {
      UnderWithin(m1.t, m1.at, {}, m.t, m.at, {}, c, root);
      if Under(m.at, c, root) {
        UnderLevel(m.t, m.at, {}, c, root);
      }
    }
    forall c | c in m2.at ensures c in m.at {
    }
    assert m2.at == m.at;
    forall r, p | Root(m, r) && 0 <= p < MAX_PAGE ensures At(m2, r, p) == At(m, r, p) {
      assert Root(m1, r) && At(m1, r, p) == At(m, r, p);
      assert r != root;
    }
  }

  /** Without the two pages at the top, the table is ready for uvmfree. */
  lemma TopDropped(m: Mem, m1: Mem, m2: Mem, root: nat, sz: nat, loose: set<nat>)
    requires ProcTable(m, root, sz) && m1.at == m.at == m2.at
    requires OnePage(m, m1, root, TRAMPOLINE, (0, false)) && OnePage(m1, m2, root, TRAPFRAME, (0, false))
    ensures Root(m2, root) && Held(m2, root, 0, PagesUp(sz)) && Vacant(m2, root, PagesUp(sz), MAX_PAGE - PagesUp(sz))
  {
    var n := PagesUp(sz);
    forall p | 0 <= p < MAX_PAGE
      ensures At(m2, root, p) == if p == TRAMPOLINE || p == TRAPFRAME then (0, false) else At(m, root, p)
    {
      assert Root(m1, root);
      assert At(m1, root, p) == if p == TRAMPOLINE then (0, false) else At(m, root, p);
    }
  }

  lemma GoneThrough(m: Mem, m2: Mem, m3: Mem, root: nat, loose: set<nat>)
    requires m2.at == m.at && TreeGone(m2, m3, root) && SameData(m2, m3, PageSet(m3.at) + loose)
    requires forall r, p :: Root(m, r) && r != root && 0 <= p < MAX_PAGE ==> At(m2, r, p) == At(m, r, p)
    requires Sound(m) && Kept(m, m2) && SameData(m, m2, loose)
    ensures TreeGone(m, m3, root) && SameData(m, m3, PageSet(m3.at) + loose)
  {
    forall r, p | Root(m, r) && r != root && 0 <= p < MAX_PAGE ensures At(m3, r, p) == At(m, r, p) {
      assert Root(m2, r);
    }
  }

  // ---- fork ----

  /** At most the contents of a frame not in use differ. */
  ghost predicate Touched(m: Mem, m': Mem, c: nat) {
    m'.t == m.t && m'.at == m.at && c !in m.at && forall x :: x in m.d && x != c ==> x in m'.d && m'.d[x] == m.d[x]
  }

  lemma NothingLeft(m: Mem, m1: Mem, m2: Mem, m3: Mem, c: nat, loose: set<nat>)
    requires Touched(m, m1, c) && Restored(m1, m2, loose + {c}) && Touched(m2, m3, c) && c !in loose
    ensures Restored(m, m3, loose)
  {
    forall r, p | Root(m, r) && 0 <= p < MAX_PAGE ensures At(m3, r, p) == At(m, r, p) {
      assert Root(m1, r) && At(m2, r, p) == At(m1, r, p);
    }
  }

  lemma BegunAfter(m: Mem, m1: Mem, m2: Mem, child: nat, c: nat, loose: set<nat>)
    requires Touched(m, m1, c) && Begun(m1, m2, child, loose + {c}) && c !in loose
    ensures Begun(m, m2, child, loose)
  {
    forall r ensures Root(m2, r) <==> Root(m, r) || r == child {
      assert Root(m1, r) <==> Root(m, r);
    }
    forall r, p | Root(m, r) && 0 <= p < MAX_PAGE ensures At(m2, r, p) == At(m, r, p) {
      assert Root(m1, r);
    }
  }

  lemma BegunData(m: Mem, m1: Mem, m2: Mem, child: nat, c: nat, loose: set<nat>)
    requires Begun(m, m1, child, loose) && Touched(m1, m2, c) && c !in loose && ProcTable(m1, child, 0)
    ensures Begun(m, m2, child, loose) && ProcTable(m2, child, 0)
  {
    forall r, p ensures At(m2, r, p) == At(m1, r, p) && (Root(m2, r) <==> Root(m1, r)) {
    }
  }

  /** The parent's table shows what it did, and the child's is empty. */
  lemma ParentShown(m: Mem, m2: Mem, parent: nat, child: nat, sz: nat, loose: set<nat>)
    requires Begun(m, m2, child, loose) && ProcTable(m, parent, sz) && ProcTable(m2, child, 0)
    ensures Root(m2, parent) && Held(m2, parent, 0, PagesUp(sz)) && Vacant(m2, child, 0, PagesUp(sz))
  {
    forall p | 0 <= p < 0 + PagesUp(sz) ensures At(m2, parent, p) == At(m, parent, p) && At(m2, child, p).0 == 0 {
    }
  }

  /** The frames that the copy takes, by the parent's pages alone. */
  lemma ForkNeeds(m: Mem, m2: Mem, parent: nat, child: nat, sz: nat, loose: set<nat>)
    requires Begun(m, m2, child, loose) && ProcTable(m, parent, sz) && OnlyTo(m2.t, child, TRAMPOLINE)
    ensures var ps := MappedIn(m, parent, PagesUp(sz));
            MappedIn(m2, parent, PagesUp(sz)) == ps && TablesFor(m2.t, child, ps) == TablesBeside(ps, TRAMPOLINE)
  {
    hide OnlyTo, TablesFor, TablesBeside;
    var ps := MappedIn(m, parent, PagesUp(sz));
    forall p: nat | p < PagesUp(sz) ensures At(m2, parent, p) == At(m, parent, p) {
    }
    BesideNeeds(m2.t, child, TRAMPOLINE, ps);
  }

  lemma ForkUndo(m: Mem, m2: Mem, m3: Mem, child: nat, c: nat, loose: set<nat>)
    requires Sound(m2) && Sound(m3) && Begun(m, m2, child, loose) && ProcTable(m2, child, 0)
    requires Extended(m2, m3, child, loose + {c})
    ensures Begun(m, m3, child, loose) && ProcTable(m3, child, 0)
  {
    BegunThen(m, m2, m3, child, loose);
    forall p | 0 <= p < MAX_PAGE ensures At(m3, child, p) == At(m2, child, p) {
    }
  }

  /** The child's table, once filled. */
  lemma ForkTable(m2: Mem, m3: Mem, child: nat, sz: nat, trampoline: nat, trapframe: nat, loose: set<nat>)
    requires ProcTable(m2, child, 0) && PagesUp(sz) <= TRAPFRAME && Filled(m2, m3, child, 0, PagesUp(sz), loose)
    requires Tops(m2, child, trampoline, trapframe)
    ensures ProcTable(m3, child, sz) && Tops(m3, child, trampoline, trapframe)
  {
    FilledHeld(m2, m3, child, 0, PagesUp(sz), loose);
    forall p | PagesUp(sz) <= p < MAX_PAGE ensures At(m3, child, p) == At(m2, child, p) {
    }
  }

  lemma FilledOnlyIn(m2: Mem, m3: Mem, child: nat, n: nat, more: set<nat>, loose: set<nat>)
    requires Filled(m2, m3, child, 0, n, more) && loose <= more
    ensures OnlyIn(m2, m3, child, loose)
  {
  }

  /** The copy is one of the memory before the fork. */
  lemma CopiedFrom(m: Mem, m2: Mem, m3: Mem, parent: nat, child: nat, n: nat, loose: set<nat>)
    requires Sound(m) && Begun(m, m2, child, loose) && Root(m, parent) && Held(m, parent, 0, n) && n <= MAX_PAGE
    requires Copied(m2, m3, parent, child, n)
    ensures Copied(m, m3, parent, child, n)
  {
    forall p | 0 <= p < n ensures CopyAt(m, m3, parent, child, p) {
      assert CopyAt(m2, m3, parent, child, p);
      assert At(m2, parent, p) == At(m, parent, p);
      assert At(m, parent, p).0 == 0 || At(m, parent, p).1;
    }
  }

  class VirtualMemory {
    var free: seq<nat> // kmem.freelist
    var tables: Tables
    var data: map<nat, seq<int>>
    ghost var at: map<nat, Node>
    ghost const frames: set<nat>

    ghost function M(): Mem
      reads `tables, `data, `at
    {
      Mem(tables, data, at)
    }

    /** `loose` are the frames in the hands of callers. */
    ghost predicate Valid(loose: set<nat>)
      reads this
    {
      Sound(M()) && Accounted(free, at, frames, loose)
    }

    /** kinit: every frame is free. */
    constructor (pages: seq<nat>)
      requires forall i, j :: 0 <= i < j < |pages| ==> pages[i] != pages[j]
      ensures Valid({}) && at == map[] && frames == (set c | c in pages)
    {
      free, tables, data, at := pages, map[], map[], map[];
      frames := set c | c in pages;
    }

    /** kalloc: takes the first free frame; -1 if there is none. Its contents are junk. */
    method Kalloc(ghost loose: set<nat>) returns (c: int)
      requires Accounted(free, at, frames, loose)
      modifies `free, `data
      ensures c == -1 <==> old(free) == []
      ensures c == -1 ==> free == old(free) && data == old(data)
      ensures c != -1 ==> c >= 0 && c == old(free)[0] && free == old(free)[1..] && c !in loose && c !in at
                          && Accounted(free, at, frames, loose + {c})
                          && c in data && data == old(data)[c := data[c]] && |data[c]| == PGSIZE
    {
      if free == [] {
        return -1;
      }
      c := free[0];
      assert forall d :: d in free[1..] ==> d in free && d != c;
      assert forall d :: d in free ==> d == c || d in free[1..];
      free := free[1..];
      data := data[c := seq(PGSIZE, _ => 5)];
    }

    /** page_kfree: the frame becomes the first free one. */
    method PageKfree(c: nat, ghost loose: set<nat>)
      requires Accounted(free, at, frames, loose) && c in loose
      modifies `free, `data
      ensures Accounted(free, at, frames, loose - {c}) && free == [c] + old(free)
      ensures c in data && data == old(data)[c := data[c]]
    {
      data := data[c := seq(PGSIZE, _ => 1)];
      free := [c] + free;
    }

    ghost predicate Same(f: seq<nat>, m: Mem)
      reads this
    {
      free == f && M() == m
    }

    /** walk: the table with the entry of a page, made on the way if `alloc`; -1 if it is missing.
        Every page table shows what it did. */
    method Walk(root: nat, page: nat, alloc: bool, ghost loose: set<nat>) returns (f: int)
      requires Valid(loose) && Root(M(), root) && page < MAX_PAGE
      modifies `free, `tables, `data, `at
      ensures Valid(loose) && Extended(old(M()), M(), root, loose)
      ensures f >= 0 ==> f == TableAt(tables, root, page, 0)
      ensures f == -1 ==> Lookup(tables, root, page) == 0
      ensures f == -1 && alloc ==> free == [] && |old(free)| < Lacks(old(tables), root, page)
      ensures f >= -1 && (!alloc ==> Same(old(free), old(M())))
      ensures alloc && f >= 0 ==>
                |free| + Lacks(old(tables), root, page) == |old(free)| && Reaches(old(tables), tables, root, {page})
    {
      hide Extended, Accounted, Sound, Lookup, TableAt, IsRoot, Has, Lacks, Made, DownTo, OneMore, Reaches;
      f := root;
      var level := 2;
      ghost var m := M();
      AtTop(m, root, page, loose);
      while level > 0
        invariant 0 <= level <= 2 && Valid(loose) && Extended(m, M(), root, loose)
        invariant f >= 0 && f == TableAt(tables, root, page, level) && Root(M(), root)
        invariant !alloc ==> Same(old(free), m)
        invariant alloc ==> |free| + Made(m.t, root, page, level) == |old(free)|
                            && DownTo(m.t, tables, root, page, level)
      {
        ghost var t := tables;
        f := Descend(root, page, f, level, alloc, m, loose);
        MadeMore(m.t, root, page, level);
        if alloc {
          DownStill(m.t, t, root, page, level);
        }
        if f == -1 {
          return;
        }
        if alloc {
          DownOne(m.t, t, tables, root, page, level);
        }
        level := level - 1;
      }
      MadeMore(m.t, root, page, 1);
      if alloc {
        ReachesOne(m.t, tables, root, page);
      }
    }

    /** One level of walk's loop. */
    method Descend(root: nat, page: nat, f: nat, level: nat, alloc: bool, ghost m: Mem, ghost loose: set<nat>)
      returns (c: int)
      requires Valid(loose) && Root(M(), root) && page < MAX_PAGE && 1 <= level <= 2
      requires f == TableAt(tables, root, page, level) && Extended(m, M(), root, loose)
      modifies `free, `tables, `data, `at
      ensures Valid(loose) && Root(M(), root) && Extended(m, M(), root, loose)
      ensures c >= 0 ==> c == TableAt(tables, root, page, level - 1)
      ensures c == -1 ==> Lookup(tables, root, page) == 0
                          && (alloc ==> free == [] == old(free) && !Has(old(tables), root, page, level - 1))
      ensures c >= -1 && (!alloc ==> Same(old(free), old(M())))
      ensures alloc && c >= 0 ==> |free| + One(!Has(old(tables), root, page, level - 1)) == |old(free)|
                                  && OneMore(old(tables), tables, root, page, level - 1)
    {
      TableAtOk(tables, at, root, page, level);
      var e := tables[f][Px(level, page)];
      if IsValid(e) {
        assert EntryOk(tables, at, f, Px(level, page));
        NoneMore(tables, root, page, level - 1);
        return Frame(e);
      }
      if !alloc {
        Missing(tables, root, page, level - 1);
        return -1;
      }
      ghost var m1 := M();
      c := AddTable(root, page, f, level, loose);
      ExtendedThen(m, m1, M(), root, loose);
    }

    /** A fresh table below an invalid entry. */
    method AddTable(ghost root: nat, page: nat, f: nat, level: nat, ghost loose: set<nat>) returns (c: int)
      requires Valid(loose) && Root(M(), root) && page < MAX_PAGE && 1 <= level <= 2
      requires f == TableAt(tables, root, page, level) && f in at && TableOk(tables, at, f, {}) && at[f].level == level
      requires !IsValid(tables[f][Px(level, page)])
      modifies `free, `tables, `data, `at
      ensures Valid(loose) && Extended(old(M()), M(), root, loose)
      ensures c >= 0 ==> c == TableAt(tables, root, page, level - 1)
      ensures c == -1 ==> Lookup(tables, root, page) == 0 && free == [] == old(free)
      ensures c >= -1 && !Has(old(tables), root, page, level - 1)
      ensures c >= 0 ==> |free| + 1 == |old(free)| && OneMore(old(tables), tables, root, page, level - 1)
    {
      ghost var m := M();
      c := Kalloc(loose);
      if c == -1 {
        Missing(tables, root, page, level - 1);
        return;
      }
      var i := Px(level, page);
      Linked(m, data, root, page, level, f, i, c, loose);
      LinkedOneMore(m.t, m.at, root, page, level, f, i, c);
      tables := WithTable(tables, f, i, c);
      at := at[c := Node(level - 1, f, i)];
    }

    /** One round of mappages: maps a frame at an unmapped page. The caller hands its frame over, or lends it. */
    method MapOne(root: nat, page: nat, c: nat, perm: nat, ghost own: bool, ghost loose: set<nat>) returns (ok: bool)
      requires Valid(loose) && Root(M(), root) && page < MAX_PAGE && At(M(), root, page).0 == 0
      requires own ==> c in loose && c in data && |data[c]| == PGSIZE
      requires perm < FLAGS && perm / 2 % 8 != 0
      modifies `free, `tables, `data, `at
      ensures !ok ==> Valid(loose) && Extended(old(M()), M(), root, loose) && free == []
      ensures ok <==> |old(free)| >= Lacks(old(tables), root, page)
      ensures ok ==> |free| + Lacks(old(tables), root, page) == |old(free)|
                     && Reaches(old(tables), tables, root, {page})
      ensures ok ==> Valid(if own then loose - {c} else loose)
                     && OnePage(old(M()), M(), root, page, (MakePte(c, perm), own))
                     && Kept(old(M()), M()) && SameData(old(M()), M(), loose) && Grows(old(M()), M(), root)
                     && (own ==> c in at)
    {
      ghost var m := M();
      var f := Walk(root, page, true, loose);
      if f == -1 {
        return false;
      }
      ok := true;
      var e := MakePte(c, perm);
      ghost var t := tables;
      SetPage(root, page, f, c, e, own, m, loose);
      ReachesSame(m.t, t, tables, root, {page});
    }

    method SetPage(ghost root: nat, page: nat, f: nat, ghost c: nat, e: int, ghost own: bool, ghost m0: Mem,
                   ghost loose: set<nat>)
      requires Valid(loose) && Root(M(), root) && page < MAX_PAGE && At(M(), root, page).0 == 0
      requires Extended(m0, M(), root, loose) && f == TableAt(tables, root, page, 0)
      requires own ==> c in loose && c in data && |data[c]| == PGSIZE
      requires IsValid(e) && IsLeaf(e) && Frame(e) == c
      modifies `tables, `at
      ensures Valid(if own then loose - {c} else loose) && OnePage(m0, M(), root, page, (e, own))
      ensures Kept(m0, M()) && SameData(m0, M(), loose) && Grows(m0, M(), root) && (own ==> c in at)
      ensures SameTables(old(tables), tables, root)
    {
      ghost var m := M();
      var i := Px(0, page);
      Mapped(m, root, page, f, i, c, e, own);
      if own {
        PutToUse(free, at, frames, loose, c, Node(-1, f, i));
      }
      tables := WithEntry(tables, f, i, e);
      at := WithPage(at, f, i, c, own);
      ExtendedThenPage(m0, m, M(), root, page, (e, own), loose);
    }

    /** mappages: maps consecutive frames at consecutive unmapped pages, for them to hold or to borrow. If a table
        cannot be allocated, the first `done` of them stay mapped. */
    method MapPages(root: nat, page: nat, n: nat, c: nat, perm: nat, ghost own: bool, ghost loose: set<nat>)
      returns (ok: bool, done: nat)
      requires Valid(loose) && Root(M(), root) && 0 < n && page + n <= MAX_PAGE && perm < FLAGS && perm / 2 % 8 != 0
      requires Vacant(M(), root, page, n) && (own ==> InHand(M(), loose, c, n))
      modifies `free, `tables, `data, `at
      ensures done <= n && (ok <==> done == n) && (!ok ==> free == [])
      ensures Valid(Rest(loose, c, done, own)) && Laid(old(M()), M(), root, page, done, c, perm, own, loose)
      ensures ok <==> |old(free)| >= TablesFor(old(tables), root, Span(page, n))
      ensures !ok ==> TablesFor(old(tables), root, Span(page, done)) <= |old(free)|
                      < TablesFor(old(tables), root, Span(page, done + 1))
      ensures ok ==> Spent(old(tables), |old(free)|, root, Span(page, n), 0)
    {
      hide TablesFor, Reaches, Span, Laid, InHand, Sound, Accounted, At, IsRoot, MakePte;
      done := 0;
      ghost var m := M();
      assert Rest(loose, c, 0, own) == loose;
      SpentNothing(m.t, |free|, root);
      LaidNothing(m, root, page, c, perm, own, loose);
      while done < n
        invariant done <= n && Valid(Rest(loose, c, done, own)) && Root(M(), root)
        invariant Laid(m, M(), root, page, done, c, perm, own, loose)
        invariant own ==> InHand(M(), Rest(loose, c, done, own), c + done, n - done)
        invariant Spent(m.t, |old(free)|, root, Span(page, done), 0)
      {
        ok := LayOne(root, page, done, c, perm, n, own, m, |old(free)|, loose);
        if !ok {
          SpanGrows(page, done + 1, n);
          TablesGrow(m.t, root, Span(page, done + 1), Span(page, n));
          return;
        }
        done := done + 1;
      }
      ok := true;
    }

    /** Of `had` free frames, exactly those for the tables of the given pages and for `more` pages have been taken. */
    ghost predicate Spent(t: Tables, had: nat, root: nat, ps: set<nat>, more: nat)
      reads this
    {
      |free| + TablesFor(t, root, ps) + more == had && Reaches(t, tables, root, ps)
    }

    lemma SpentNothing(t: Tables, had: nat, root: nat)
      requires t == tables && had == |free|
      ensures Spent(t, had, root, {}, 0)
    {
      ReachesNone(t, root);
    }

    method LayOne(root: nat, page: nat, k: nat, c: nat, perm: nat, ghost n: nat, ghost own: bool, ghost m: Mem,
                  ghost had: nat, ghost loose: set<nat>)
      returns (ok: bool)
      requires Valid(Rest(loose, c, k, own)) && Root(M(), root) && Root(m, root) && page + k < MAX_PAGE && k < n
      requires perm < FLAGS && perm / 2 % 8 != 0 && At(m, root, page + k).0 == 0
      requires Laid(m, M(), root, page, k, c, perm, own, loose)
      requires own ==> InHand(M(), Rest(loose, c, k, own), c + k, n - k)
      requires Spent(m.t, had, root, Span(page, k), 0)
      modifies `free, `tables, `data, `at
      ensures Root(M(), root)
      ensures ok ==> Valid(Rest(loose, c, k + 1, own)) && Laid(m, M(), root, page, k + 1, c, perm, own, loose)
                     && (own ==> InHand(M(), Rest(loose, c, k + 1, own), c + (k + 1), n - (k + 1)))
      ensures !ok ==> Valid(Rest(loose, c, k, own)) && Laid(m, M(), root, page, k, c, perm, own, loose) && free == []
                      && TablesFor(m.t, root, Span(page, k)) <= had < TablesFor(m.t, root, Span(page, k + 1))
      ensures ok ==> Spent(m.t, had, root, Span(page, k + 1), 0)
    {
      hide TablesFor, Reaches, Lacks, Laid, InHand, Rest, MakePte, Sound, Accounted, At, IsRoot, OnePage, Extended;
      NotYetLaid(m, M(), root, page, k, c, perm, own, loose);
      var next, frame := page + k, c + k;
      ghost var m1, left := M(), Rest(loose, c, k, own);
      RestMore(m1, m1, loose, c, n, k, own);
      PageMore(m.t, m1.t, root, page, k);
      ok := MapOne(root, next, frame, perm, own, left);
      if !ok {
        LaidSame(m, m1, M(), root, page, k, c, perm, own, loose);
        LaidRoot(m, M(), root, page, k, c, perm, own, loose);
        return;
      }
      ReachesMore(m.t, m1.t, tables, root, Span(page, k), next);
      RestMore(m1, M(), loose, c, n, k, own);
      LaidMore(m, m1, M(), root, page, k, c, perm, own, next, frame, loose);
      LaidRoot(m, M(), root, page, k + 1, c, perm, own, loose);
    }

    /** One round of uvmunmap: the page has no mapping any more. A frame that it held is the caller's now. */
    method UnmapOne(root: nat, page: nat, ghost loose: set<nat>) returns (c: int)
      requires Valid(loose) && Root(M(), root) && page < MAX_PAGE
      modifies `free, `tables, `data, `at
      ensures free == old(free) && data == old(data) && OnePage(old(M()), M(), root, page, (0, false))
      ensures c == -1 <==> At(old(M()), root, page).0 == 0
      ensures c != -1 ==> c >= 0 && c == Frame(At(old(M()), root, page).0)
      ensures if At(old(M()), root, page).1
              then c in old(at) && old(at)[c].level == -1 && at == old(at) - {c} && c !in loose && Valid(loose + {c})
              else at == old(at) && Valid(loose)
    {
      var f := Walk(root, page, false, loose);
      if f == -1 {
        return -1;
      }
      TableAtOk(tables, at, root, page, 0);
      if !IsValid(tables[f][Px(0, page)]) {
        return -1;
      }
      c := ClearPage(root, page, f, loose);
    }

    method ClearPage(ghost root: nat, page: nat, f: nat, ghost loose: set<nat>) returns (c: nat)
      requires Valid(loose) && Root(M(), root) && page < MAX_PAGE && At(M(), root, page).0 != 0
      requires f == TableAt(tables, root, page, 0)
      modifies `tables, `at
      ensures OnePage(old(M()), M(), root, page, (0, false)) && c == Frame(At(old(M()), root, page).0)
      ensures if At(old(M()), root, page).1
              then c in old(at) && old(at)[c].level == -1 && at == old(at) - {c} && c !in loose && Valid(loose + {c})
              else at == old(at) && Valid(loose)
    {
      var i := Px(0, page);
      Unmapped(M(), root, page, f, i);
      c := Frame(tables[f][i]);
      if At(M(), root, page).1 {
        TakenOut(free, at, frames, loose, c);
      }
      tables := WithEntry(tables, f, i, 0);
      at := WithoutPage(at, f, i, c);
    }

    /** uvmunmap: the pages have no mappings any more; nothing else changes. Frames that they held are freed, or the
        caller's; frames that they borrowed stay where they are. What is to be freed must be held. */
    method Uvmunmap(root: nat, page: nat, n: nat, doFree: bool, ghost loose: set<nat>) returns (ghost taken: set<nat>)
      requires Valid(loose) && Root(M(), root) && page + n <= MAX_PAGE && (doFree ==> Held(M(), root, page, n))
      modifies `free, `tables, `data, `at
      ensures Valid(loose + taken) && Cut(old(M()), M(), root, page, n, loose)
      ensures (doFree || forall p :: page <= p < page + n ==> !At(old(M()), root, p).1) ==> taken == {}
    {
      var k := 0;
      taken := {};
      ghost var m := M();
      assert loose + taken == loose;
      CutNothing(m, root, page, loose);
      while k < n
        invariant 0 <= k <= n && Valid(loose + taken) && Root(M(), root) && Cut(m, M(), root, page, k, loose)
        invariant (doFree || forall p :: page <= p < page + n ==> !At(m, root, p).1) ==> taken == {}
      {
        taken := CutOne(root, page, k, doFree, taken, m, loose);
        k := k + 1;
      }
    }

    method CutOne(root: nat, page: nat, k: nat, doFree: bool, ghost taken: set<nat>, ghost m: Mem,
                  ghost loose: set<nat>)
      returns (ghost taken': set<nat>)
      requires Valid(loose + taken) && Root(M(), root) && Root(m, root) && page + k < MAX_PAGE
      requires doFree ==> At(m, root, page + k).0 == 0 || At(m, root, page + k).1
      requires Cut(m, M(), root, page, k, loose)
      modifies `free, `tables, `data, `at
      ensures Valid(loose + taken') && Root(M(), root) && Cut(m, M(), root, page, k + 1, loose)
      ensures doFree || !At(m, root, page + k).1 ==> taken' == taken
    {
      hide Sound, Cut, At, Root, Accounted;
      ghost var m1, hand := M(), loose + taken;
      var next := page + k;
      NotYetCut(m, m1, root, page, k, next, loose);
      ghost var kept := UnmapFree(root, next, doFree, hand);
      taken' := taken + kept;
      assert hand + kept == loose + taken';
      CutMore(m, m1, M(), root, page, k, next, hand, loose);
    }

    method UnmapFree(root: nat, page: nat, doFree: bool, ghost loose: set<nat>) returns (ghost kept: set<nat>)
      requires Valid(loose) && Root(M(), root) && page < MAX_PAGE
      requires doFree ==> At(M(), root, page).0 == 0 || At(M(), root, page).1
      modifies `free, `tables, `data, `at
      ensures Valid(loose + kept) && Root(M(), root) && Cut(old(M()), M(), root, page, 1, loose)
      ensures doFree || !At(old(M()), root, page).1 ==> kept == {}
    {
      ghost var m := M();
      var c := UnmapOne(root, page, loose);
      kept := {};
      assert loose + kept == loose;
      if c != -1 && doFree {
        PageKfree(c, loose + {c});
        assert loose + {c} - {c} == loose;
      }
      if At(m, root, page).1 && !doFree {
        kept := {c};
      }
      CutByOne(m, M(), root, page, loose);
    }

    /** A fresh page with the given contents, mapped at an unmapped page; false if memory runs out. */
    method AddPage(root: nat, page: nat, contents: seq<int>, perm: nat, ghost loose: set<nat>)
      returns (ok: bool, ghost c: int)
      requires Valid(loose) && Root(M(), root) && page < MAX_PAGE && At(M(), root, page).0 == 0
      requires |contents| == PGSIZE && perm < FLAGS && perm / 2 % 8 != 0
      modifies `free, `tables, `data, `at
      ensures Valid(loose)
      ensures ok <==> |old(free)| >= 1 + Lacks(old(tables), root, page)
      ensures ok ==> |free| + 1 + Lacks(old(tables), root, page) == |old(free)|
                     && Reaches(old(tables), tables, root, {page})
      ensures !ok ==> Extended(old(M()), M(), root, loose)
      ensures ok ==> Fresh(old(M()), M(), c) && c in data && data[c] == contents
                     && OnePage(old(M()), M(), root, page, (MakePte(c, perm), true))
                     && Kept(old(M()), M()) && SameData(old(M()), M(), loose) && Grows(old(M()), M(), root)
    {
      hide Reaches, Lacks, Extended, OnePage;
      ghost var m := M();
      var mem := Kalloc(loose);
      c := mem;
      if mem == -1 {
        ok := false;
        AtTop(m, root, page, loose);
        return;
      }
      data := data[mem := contents];
      ok := MapNew(root, page, mem, perm, m, loose);
    }

    /** mappages of a frame just allocated; on failure it is freed again. */
    method MapNew(root: nat, page: nat, c: nat, perm: nat, ghost m: Mem, ghost loose: set<nat>) returns (ok: bool)
      requires Sound(M()) && Accounted(free, at, frames, loose + {c}) && c !in loose
      requires Root(M(), root) && page < MAX_PAGE && At(M(), root, page).0 == 0
      requires c in data && |data[c]| == PGSIZE && perm < FLAGS && perm / 2 % 8 != 0
      requires M().t == m.t && M().at == m.at && forall x :: x in m.d && x != c ==> x in data && data[x] == m.d[x]
      modifies `free, `tables, `data, `at
      ensures Valid(loose)
      ensures ok <==> |old(free)| >= Lacks(m.t, root, page)
      ensures ok ==> |free| + Lacks(m.t, root, page) == |old(free)| && Reaches(m.t, tables, root, {page})
      ensures !ok ==> Extended(m, M(), root, loose)
      ensures ok ==> Fresh(m, M(), c) && c in data && data[c] == old(data)[c]
                     && OnePage(m, M(), root, page, (MakePte(c, perm), true)) && Kept(m, M()) && SameData(m, M(), loose)
                     && Grows(m, M(), root)
    {
      ghost var m1 := M();
      ok := MapOne(root, page, c, perm, true, loose + {c});
      assert loose + {c} - {c} == loose;
      if ok {
        Prepared(m, m1, M(), c, root, loose);
        return;
      }
      ghost var m2 := M();
      PageKfree(c, loose + {c});
      Abandoned(m, m1, m2, M(), c, root, loose);
    }

    /** uvmdealloc: the pages between the two sizes are unmapped and freed. */
    method Uvmdealloc(root: nat, oldsz: nat, newsz: nat, ghost loose: set<nat>) returns (r: nat)
      requires Valid(loose) && Root(M(), root) && PagesUp(oldsz) <= MAX_PAGE
      requires newsz < oldsz && PagesUp(newsz) < PagesUp(oldsz) ==>
                 Held(M(), root, PagesUp(newsz), PagesUp(oldsz) - PagesUp(newsz))
      modifies `free, `tables, `data, `at
      ensures Valid(loose) && r == if newsz < oldsz then newsz else oldsz
      ensures newsz < oldsz ==> PagesUp(newsz) <= PagesUp(oldsz)
                                && Cut(old(M()), M(), root, PagesUp(newsz), PagesUp(oldsz) - PagesUp(newsz), loose)
      ensures newsz >= oldsz ==> Same(old(free), old(M()))
    {
      if newsz >= oldsz {
        return oldsz;
      }
      var first, last := PagesUp(newsz), PagesUp(oldsz);
      if first < last {
        var n := last - first;
        ghost var taken := Uvmunmap(root, first, n, true, loose);
        assert loose + taken == loose;
      } else {
        CutNothing(M(), root, first, loose);
      }
      r := newsz;
    }

    /** uvmalloc: zeroed pages up to the new size; if memory runs out, every page table shows what it did. */
    method Uvmalloc(root: nat, oldsz: nat, newsz: nat, xperm: nat, ghost loose: set<nat>) returns (r: nat)
      requires Valid(loose) && Root(M(), root) && PagesUp(newsz) <= MAX_PAGE
               && xperm in {0, PTE_W, PTE_X, PTE_W + PTE_X}
      requires PagesUp(oldsz) < PagesUp(newsz) ==> Vacant(M(), root, PagesUp(oldsz), PagesUp(newsz) - PagesUp(oldsz))
      modifies `free, `tables, `data, `at
      ensures Valid(loose)
      ensures newsz < oldsz ==> r == oldsz && Same(old(free), old(M()))
      ensures newsz >= oldsz ==> PagesUp(oldsz) <= PagesUp(newsz)
      ensures newsz >= oldsz && r == newsz && newsz > 0 ==>
                var first, n := PagesUp(oldsz), PagesUp(newsz) - PagesUp(oldsz);
                && Filled(old(M()), M(), root, first, n, loose)
                && Zeroed(M(), root, first, n, PTE_R + PTE_U + xperm + PTE_V)
      ensures newsz >= oldsz && r != newsz ==> r == 0 && Extended(old(M()), M(), root, loose)
      ensures newsz >= oldsz ==>
                var first, n := PagesUp(oldsz), PagesUp(newsz) - PagesUp(oldsz);
                r == newsz <==> |old(free)| >= n + TablesFor(old(tables), root, Span(first, n))
    {
      hide TablesFor, Span, Filled, Zeroed, Extended, Accounted, Sound, At, IsRoot;
      if newsz < oldsz {
        return oldsz;
      }
      var first := PagesUp(oldsz);
      BelowSize(first, newsz);
      NoPages(tables, root, first);
      var ok := AllocLoop(root, first, newsz, PTE_R + PTE_U + xperm, loose);
      r := if ok then newsz else 0;
    }

    method AllocLoop(root: nat, first: nat, newsz: nat, perm: nat, ghost loose: set<nat>) returns (ok: bool)
      requires Valid(loose) && Root(M(), root) && first <= PagesUp(newsz) <= MAX_PAGE
      requires perm < FLAGS && perm % 2 == 0 && perm / 2 % 8 != 0
      requires first < PagesUp(newsz) ==> Vacant(M(), root, first, PagesUp(newsz) - first)
      modifies `free, `tables, `data, `at
      ensures Valid(loose)
      ensures ok ==> Filled(old(M()), M(), root, first, PagesUp(newsz) - first, loose)
                     && Zeroed(M(), root, first, PagesUp(newsz) - first, perm + 1)
      ensures !ok ==> Extended(old(M()), M(), root, loose)
      ensures ok <==> |old(free)| >= PagesUp(newsz) - first
                                     + TablesFor(old(tables), root, Span(first, PagesUp(newsz) - first))
    {
      hide TablesFor, Reaches, Span, Filled, Zeroed, Extended, Accounted, Sound, At, IsRoot;
      var k, a := 0, first * PGSIZE;
      ghost var m := M();
      BelowSize(first, newsz);
      FilledNothing(m, root, first, loose);
      ZeroedNothing(m, root, first, perm + 1);
      SpentNothing(m.t, |free|, root);
      SpanGrows(first, 0, 0);
      while a < newsz
        invariant 0 <= k <= PagesUp(newsz) - first && a == (first + k) * PGSIZE
        invariant a < newsz <==> k < PagesUp(newsz) - first
        invariant Valid(loose) && Root(M(), root)
        invariant Filled(m, M(), root, first, k, loose) && Zeroed(M(), root, first, k, perm + 1)
        invariant Spent(m.t, |old(free)|, root, Span(first, k), k)
      {
        ok := FillNext(root, first, k, perm, m, |old(free)|, loose);
        if !ok {
          SpanGrows(first, k + 1, PagesUp(newsz) - first);
          TablesGrow(m.t, root, Span(first, k + 1), Span(first, PagesUp(newsz) - first));
          Undo(root, first, k, m, loose);
          return;
        }
        k, a := k + 1, a + PGSIZE;
        BelowSize(first + k, newsz);
      }
      ok := true;
    }

    /** One round of uvmalloc. */
    method FillNext(root: nat, first: nat, k: nat, perm: nat, ghost m: Mem, ghost had: nat, ghost loose: set<nat>)
      returns (ok: bool)
      requires Valid(loose) && Root(M(), root) && Root(m, root) && first + k < MAX_PAGE
      requires perm < FLAGS && perm % 2 == 0 && perm / 2 % 8 != 0
      requires Filled(m, M(), root, first, k, loose) && At(m, root, first + k).0 == 0
      requires Zeroed(M(), root, first, k, perm + 1) && Spent(m.t, had, root, Span(first, k), k)
      modifies `free, `tables, `data, `at
      ensures Valid(loose) && Root(M(), root)
      ensures Filled(m, M(), root, first, if ok then k + 1 else k, loose)
      ensures ok ==> Zeroed(M(), root, first, k + 1, perm + 1) && Spent(m.t, had, root, Span(first, k + 1), k + 1)
      ensures !ok ==> had < k + 1 + TablesFor(m.t, root, Span(first, k + 1))
    {
      hide TablesFor, Reaches, Lacks, Sound, Accounted, MakePte, Zeroed;
      var next := first + k;
      ghost var m1 := M();
      ghost var c;
      PageMore(m.t, m1.t, root, first, k);
      ok, c := AddPage(root, next, ZeroPage(), perm, loose);
      if !ok {
        FilledExtended(m, m1, M(), root, first, k, loose);
        return;
      }
      ReachesMore(m.t, m1.t, tables, root, Span(first, k), next);
      FilledMore(m, m1, M(), root, first, k, next, (MakePte(c, perm), true), loose);
      ZeroedMore(m1, M(), root, first, k, next, c, perm);
    }

    /** Gives back what was filled, through uvmdealloc. */
    method Undo(root: nat, first: nat, k: nat, ghost m: Mem, ghost loose: set<nat>)
      requires Valid(loose) && Root(M(), root) && Root(m, root) && first + k <= MAX_PAGE
      requires Filled(m, M(), root, first, k, loose) && Vacant(m, root, first, k)
      modifies `free, `tables, `data, `at
      ensures Valid(loose) && Extended(m, M(), root, loose)
    {
      ghost var m1 := M();
      FilledHeld(m, m1, root, first, k, loose);
      DeallocPages(root, first, k, loose);
      FilledThenCut(m, m1, M(), root, first, k, loose);
    }

    /** uvmdealloc between two page boundaries. */
    method DeallocPages(root: nat, first: nat, k: nat, ghost loose: set<nat>)
      requires Valid(loose) && Root(M(), root) && first + k <= MAX_PAGE && Held(M(), root, first, k)
      modifies `free, `tables, `data, `at
      ensures Valid(loose) && Cut(old(M()), M(), root, first, k, loose)
    {
      var top, bottom := (first + k) * PGSIZE, first * PGSIZE;
      BelowSize(first, 0);
      BelowSize(first + k, 0);
      assert PagesUp(bottom) == first && PagesUp(top) == first + k;
      CutNothing(M(), root, first, loose);
      assert k > 0 ==> PagesUp(top) - PagesUp(bottom) == k;
      var _ := Uvmdealloc(root, top, bottom, loose);
    }

    /** uvmcopy: the child gets fresh pages with the parent's contents and flags; if memory runs out, every page table
        shows what it did. Above `sz` both tables may borrow the same frames. */
    method Uvmcopy(src: nat, dst: nat, sz: nat, ghost loose: set<nat>) returns (ok: bool)
      requires Valid(loose) && Root(M(), src) && Root(M(), dst) && src != dst && PagesUp(sz) <= MAX_PAGE
      requires Held(M(), src, 0, PagesUp(sz)) && Vacant(M(), dst, 0, PagesUp(sz))
      modifies `free, `tables, `data, `at
      ensures Valid(loose)
      ensures ok ==> Filled(old(M()), M(), dst, 0, PagesUp(sz), loose) && Copied(old(M()), M(), src, dst, PagesUp(sz))
      ensures !ok ==> Extended(old(M()), M(), dst, loose)
      ensures var ps := MappedIn(old(M()), src, PagesUp(sz));
              && (ok <==> |old(free)| >= |ps| + TablesFor(old(tables), dst, ps))
              && (ok ==> Spent(old(tables), |old(free)|, dst, ps, |ps|))
    {
      hide TablesFor, Reaches, MappedIn, Filled, Copied, Extended, Accounted, Sound, At, IsRoot;
      var k, i := 0, 0;
      ghost var m := M();
      BelowSize(0, sz);
      FilledNothing(m, dst, 0, loose);
      CopiedNothing(m, src, dst);
      SpentNothing(m.t, |free|, dst);
      while i < sz
        invariant 0 <= k <= PagesUp(sz) && i == k * PGSIZE && (i < sz <==> k < PagesUp(sz))
        invariant Valid(loose) && Root(M(), src) && Root(M(), dst)
        invariant Filled(m, M(), dst, 0, k, loose) && Copied(m, M(), src, dst, k)
        invariant Spent(m.t, |old(free)|, dst, MappedIn(m, src, k), |MappedIn(m, src, k)|)
      {
        ok := CopyNext(src, dst, k, m, |old(free)|, loose);
        if !ok {
          MoreMapped(m, src, dst, k + 1, PagesUp(sz));
          UndoCopy(dst, k, m, loose);
          return;
        }
        k, i := k + 1, i + PGSIZE;
        BelowSize(k, sz);
      }
      ok := true;
    }

    method UndoCopy(root: nat, k: nat, ghost m: Mem, ghost loose: set<nat>)
      requires Valid(loose) && Root(M(), root) && Root(m, root) && k <= MAX_PAGE
      requires Filled(m, M(), root, 0, k, loose) && Vacant(m, root, 0, k)
      modifies `free, `tables, `data, `at
      ensures Valid(loose) && Extended(m, M(), root, loose)
    {
      ghost var m1 := M();
      FilledHeld(m, m1, root, 0, k, loose);
      ghost var taken := Uvmunmap(root, 0, k, true, loose);
      assert loose + taken == loose;
      FilledThenCut(m, m1, M(), root, 0, k, loose);
    }

    /** One round of uvmcopy. */
    method CopyNext(src: nat, dst: nat, k: nat, ghost m: Mem, ghost had: nat, ghost loose: set<nat>) returns (ok: bool)
      requires Valid(loose) && Root(M(), src) && Root(M(), dst) && Root(m, src) && Root(m, dst) && src != dst
               && k < MAX_PAGE
      requires Sound(m) && (At(m, src, k).0 == 0 || At(m, src, k).1)
      requires Filled(m, M(), dst, 0, k, loose) && At(m, dst, k).0 == 0 && Copied(m, M(), src, dst, k)
      requires Spent(m.t, had, dst, MappedIn(m, src, k), |MappedIn(m, src, k)|)
      modifies `free, `tables, `data, `at
      ensures Valid(loose) && Root(M(), src) && Root(M(), dst)
      ensures Filled(m, M(), dst, 0, if ok then k + 1 else k, loose)
      ensures ok ==> Copied(m, M(), src, dst, k + 1)
      ensures var ps := MappedIn(m, src, k + 1);
              if ok then Spent(m.t, had, dst, ps, |ps|) else had < |ps| + TablesFor(m.t, dst, ps)
    {
      hide TablesFor, Reaches, MappedIn;
      var e := Find(src, k, loose);
      assert At(M(), src, k) == At(m, src, k);
      OneMapped(m, src, k);
      if e == 0 {
        FilledMore(m, M(), M(), dst, 0, k, k, At(M(), dst, k), loose);
        CopiedMore(m, M(), M(), src, dst, k, At(M(), dst, k));
        return true;
      }
      ok := CopyPage(src, dst, k, e, m, had, loose);
    }

    /** The entry of a mapped page, or 0. */
    method Find(root: nat, page: nat, ghost loose: set<nat>) returns (e: int)
      requires Valid(loose) && Root(M(), root) && page < MAX_PAGE
      modifies `free, `tables, `data, `at
      ensures Same(old(free), old(M())) && e == At(M(), root, page).0
    {
      var f := Walk(root, page, false, loose);
      if f == -1 {
        return 0;
      }
      TableAtOk(tables, at, root, page, 0);
      e := tables[f][Px(0, page)];
      if !IsValid(e) {
        e := 0;
      }
    }

    method CopyPage(ghost src: nat, dst: nat, k: nat, e: int, ghost m: Mem, ghost had: nat, ghost loose: set<nat>)
      returns (ok: bool)
      requires Valid(loose) && Root(M(), src) && Root(M(), dst) && Root(m, src) && Root(m, dst) && src != dst
               && k < MAX_PAGE
      requires Sound(m) && At(m, src, k).1 && At(M(), src, k) == At(m, src, k)
      requires Filled(m, M(), dst, 0, k, loose) && At(m, dst, k).0 == 0 && Copied(m, M(), src, dst, k)
      requires e == At(M(), src, k).0 != 0
      requires Spent(m.t, had, dst, MappedIn(m, src, k), |MappedIn(m, src, k)|)
      modifies `free, `tables, `data, `at
      ensures Valid(loose) && Root(M(), src) && Root(M(), dst)
      ensures Filled(m, M(), dst, 0, if ok then k + 1 else k, loose)
      ensures ok ==> Copied(m, M(), src, dst, k + 1)
      ensures var ps := MappedIn(m, src, k + 1);
              if ok then Spent(m.t, had, dst, ps, |ps|) else had < |ps| + TablesFor(m.t, dst, ps)
    {
      hide TablesFor, Reaches, MappedIn, Lacks, Accounted;
      ghost var m1 := M();
      EntryShown(m1, src, k);
      FlagsAsPerm(e);
      OneMapped(m, src, k);
      TablesMore(m.t, m1.t, dst, MappedIn(m, src, k), k);
      ghost var c;
      var flags, contents := Flags(e), data[Frame(e)];
      ok, c := AddPage(dst, k, contents, flags, loose);
      if !ok {
        FilledExtended(m, m1, M(), dst, 0, k, loose);
        return;
      }
      ReachesMore(m.t, m1.t, tables, dst, MappedIn(m, src, k), k);
      ghost var shown := (MakePte(c, flags), true);
      FilledMore(m, m1, M(), dst, 0, k, k, shown, loose);
      CopiedPage(m, m1, M(), src, dst, k, e, c);
      CopiedMore(m, m1, M(), src, dst, k, shown);
    }

    // ---- Whole page tables ----

    /** uvmcreate: an empty page table; -1 if memory runs out. */
    method Uvmcreate(ghost loose: set<nat>) returns (root: int)
      requires Valid(loose)
      modifies `free, `tables, `data, `at
      ensures Valid(loose)
      ensures root >= -1 && (root == -1 ==> Same(old(free), old(M())) && free == [])
      ensures root != -1 ==> Created(old(M()), M(), root, loose) && |free| + 1 == |old(free)| && Bare(tables, root)
    {
      ghost var m := M();
      root := Kalloc(loose);
      if root == -1 {
        return;
      }
      NewRoot(m, data, root, loose);
      PutToUse(free, at, frames, loose + {root}, root, ROOT_NODE);
      assert loose + {root} - {root} == loose;
      tables := tables[root := Empty()];
      at := at[root := ROOT_NODE];
    }

    /** freewalk: gives back every table under `f` and nothing else. There is no mapping left, so it does not panic. */
    method Freewalk(f: nat, level: nat, ghost d: Mem, ghost loose: set<nat>) returns (panic: bool)
      requires Valid(loose) && f in at && at[f].level == level && NoLeaves(tables, at, f)
      requires SameData(d, M(), PageSet(at) + loose)
      modifies `free, `tables, `data, `at
      ensures !panic && Pruned(old(tables), old(at), tables, at, f) && GraphOk(tables, at, Hole(old(at), f))
      ensures Accounted(free, at, frames, loose) && DataOk(data, at) && SameData(d, M(), PageSet(at) + loose)
      decreases level, 2
    {
      ghost var t0, a0 := tables, at;
      panic := false;
      var i := 0;
      assert TableOk(tables, at, f, {});
      while i < ENTRIES
        invariant 0 <= i <= ENTRIES && !panic && Valid(loose) && Pruning(t0, a0, tables, at, f, i)
        invariant SameData(d, M(), PageSet(at) + loose)
      {
        var hit := FreeEntry(f, level, i, t0, a0, d, loose);
        panic := panic || hit;
        i := i + 1;
      }
      PrunedAll(t0, a0, tables, at, f);
      DropTable(f, d, loose);
    }

    /** Gives back an empty table. */
    method DropTable(f: nat, ghost d: Mem, ghost loose: set<nat>)
      requires Valid(loose) && f in at && at[f].level >= 0 && f in tables && |tables[f]| == ENTRIES
      requires forall k :: 0 <= k < ENTRIES ==> !IsValid(tables[f][k])
      requires SameData(d, M(), PageSet(at) + loose)
      modifies `free, `tables, `data, `at
      ensures tables == old(tables) - {f} && at == old(at) - {f} && GraphOk(tables, at, Hole(old(at), f))
      ensures Accounted(free, at, frames, loose) && DataOk(data, at) && SameData(d, M(), PageSet(at) + loose)
    {
      TableDropped(tables, at, f);
      TakenOut(free, at, frames, loose, f);
      tables := tables - {f};
      at := at - {f};
      PageKfree(f, loose + {f});
      assert loose + {f} - {f} == loose;
    }

    /** One round of freewalk's loop. */
    method FreeEntry(f: nat, level: nat, i: nat, ghost t0: Tables, ghost a0: map<nat, Node>, ghost d: Mem,
                     ghost loose: set<nat>)
      returns (panic: bool)
      requires Valid(loose) && i < ENTRIES && GraphOk(t0, a0, {}) && Pruning(t0, a0, tables, at, f, i)
      requires f in a0 && at[f].level == level && NoLeaves(t0, a0, f) && SameData(d, M(), PageSet(at) + loose)
      modifies `free, `tables, `data, `at
      ensures !panic && Valid(loose) && Pruning(t0, a0, tables, at, f, i + 1) && SameData(d, M(), PageSet(at) + loose)
      decreases level, 1
    {
      var e := tables[f][i];
      assert TableOk(tables, at, f, {}) && EntryOk(tables, at, f, i) && HeldOk(tables, at, f);
      NoLeavesBelow(t0, a0, tables, at, f, i);
      panic := IsValid(e) && IsLeaf(e);
      if IsValid(e) && !IsLeaf(e) {
        var c := Frame(e);
        panic := FreeChild(f, level, i, c, t0, a0, d, loose);
      }
    }

    method FreeChild(f: nat, level: nat, i: nat, c: nat, ghost t0: Tables, ghost a0: map<nat, Node>, ghost d: Mem,
                     ghost loose: set<nat>)
      returns (panic: bool)
      requires Valid(loose) && i < ENTRIES && GraphOk(t0, a0, {}) && Pruning(t0, a0, tables, at, f, i)
      requires at[f].level == level && 1 <= level <= 2 && SameData(d, M(), PageSet(at) + loose)
               && NoLeaves(tables, at, c)
      requires IsValid(tables[f][i]) && Frame(tables[f][i]) == c && c in at && at[c] == Node(level - 1, f, i)
      modifies `free, `tables, `data, `at
      ensures !panic && Valid(loose) && Pruning(t0, a0, tables, at, f, i + 1) && SameData(d, M(), PageSet(at) + loose)
      decreases level, 0
    {
      ghost var t, a := tables, at;
      var below := level - 1;
      assert Hole(a, c) == {(f, i)};
      panic := Freewalk(c, below, d, loose);
      ZeroEntry(f, i, c, t0, a0, t, a);
    }

    /** pagetable[i] = 0, once the table below is gone. */
    method ZeroEntry(f: nat, i: nat, ghost c: nat, ghost t0: Tables, ghost a0: map<nat, Node>, ghost t: Tables,
                     ghost a: map<nat, Node>)
      requires GraphOk(t0, a0, {}) && GraphOk(t, a, {}) && Pruning(t0, a0, t, a, f, i) && i < ENTRIES
      requires c in a && a[c].level < 2 && a[c].parent == f && a[c].index == i && IsValid(t[f][i])
               && Frame(t[f][i]) == c
      requires GraphOk(tables, at, {(f, i)}) && Pruned(t, a, tables, at, c)
      modifies `tables
      ensures GraphOk(tables, at, {}) && Pruning(t0, a0, tables, at, f, i + 1)
    {
      PrunedChild(t0, a0, t, a, tables, at, f, i, c);
      tables := WithEntry(tables, f, i, 0);
    }

    /** uvmfree: the page table is gone, and every page and table of it, and nothing else, is free again. */
    method Uvmfree(root: nat, sz: nat, ghost loose: set<nat>) returns (panic: bool)
      requires Valid(loose) && Root(M(), root) && PagesUp(sz) <= MAX_PAGE
      requires Held(M(), root, 0, PagesUp(sz)) && Vacant(M(), root, PagesUp(sz), MAX_PAGE - PagesUp(sz))
      modifies `free, `tables, `data, `at
      ensures !panic && Valid(loose) && TreeGone(old(M()), M(), root) && SameData(old(M()), M(), PageSet(at) + loose)
    {
      ghost var m := M();
      var n := PagesUp(sz);
      if sz > 0 {
        ghost var taken := Uvmunmap(root, 0, n, true, loose);
        assert loose + taken == loose;
      } else {
        CutNothing(m, root, 0, loose);
      }
      ghost var m1 := M();
      AllCut(m, m1, root, n, loose);
      panic := Freewalk(root, 2, m, loose);
      FreedTree(m, m1, M(), root, n, loose);
    }

    // ---- Process page tables (kernel/proc.c) ----

    /** proc_pagetable: an empty address space that borrows the trampoline page and the trapframe page. If memory runs
        out, every frame taken on the way is free again. */
    method ProcPagetable(trampoline: nat, trapframe: nat, ghost loose: set<nat>) returns (root: int)
      requires Valid(loose)
      modifies `free, `tables, `data, `at
      ensures Valid(loose)
      ensures root == -1 ==> Restored(old(M()), M(), loose)
      ensures root != -1 ==> NewProc(old(M()), M(), root, trampoline, trapframe, loose)
      ensures root != -1 <==> |old(free)| >= 3
      ensures root != -1 ==> |free| + 3 == |old(free)| && OnlyTo(tables, root, TRAMPOLINE)
    {
      hide TablesFor, Reaches, Has, OnlyTo, Bare, Restored, Laid, Begun, Vacant, Created, NewProc, At, Sound, Accounted;
      hide MakePte, IsRoot;
      ghost var m := M();
      root := Uvmcreate(loose);
      if root == -1 {
        SameRestored(m, loose);
        return;
      }
      ghost var m1 := M();
      CreatedVacant(m, m1, root, loose);
      BareNeeds(m1.t, root, TRAMPOLINE);
      OnePageSpan(TRAMPOLINE);
      OnePageSpan(TRAPFRAME);
      var ok, done := MapPages(root, TRAMPOLINE, 1, trampoline, PTE_R + PTE_X, false, loose);
      TrampolineLaid(m, m1, M(), root, done, trampoline, loose);
      if !ok {
        Discard(root, m, loose);
        return -1;
      }
      BareReached(m1.t, tables, root, TRAMPOLINE);
      ghost var t := tables;
      ok := MapTrapframe(root, trampoline, trapframe, m, loose);
      BesideNeedsNone(t, tables, root, TRAMPOLINE, TRAPFRAME);
      root := if ok then root else -1;
    }

    /** The second half of proc_pagetable. */
    method MapTrapframe(root: nat, ghost trampoline: nat, trapframe: nat, ghost m: Mem, ghost loose: set<nat>)
      returns (ok: bool)
      requires Valid(loose) && Sound(m) && Begun(m, M(), root, loose) && Vacant(M(), root, 0, TRAMPOLINE)
      requires At(M(), root, TRAMPOLINE) == (MakePte(trampoline, PTE_R + PTE_X), false)
      modifies `free, `tables, `data, `at
      ensures Valid(loose)
      ensures !ok ==> Restored(m, M(), loose)
      ensures ok ==> NewProc(m, M(), root, trampoline, trapframe, loose)
      ensures ok <==> |old(free)| >= TablesFor(old(tables), root, {TRAPFRAME})
      ensures ok ==> Spent(old(tables), |old(free)|, root, {TRAPFRAME}, 0)
    {
      hide TablesFor, Reaches, Laid, Begun, Vacant, NewProc, At, Sound, Accounted, MakePte, IsRoot, Restored;
      OnePageSpan(TRAPFRAME);
      ghost var m1 := M();
      TopVacant(m, m1, root, loose);
      var done;
      ok, done := MapPages(root, TRAPFRAME, 1, trapframe, PTE_R + PTE_W, false, loose);
      TrapframeLaid(m, m1, M(), root, done, trampoline, trapframe, loose);
      if !ok {
        GiveUp(root, m, loose);
      }
    }

    method GiveUp(root: nat, ghost m: Mem, ghost loose: set<nat>)
      requires Valid(loose) && Sound(m) && Begun(m, M(), root, loose) && Vacant(M(), root, 0, TRAMPOLINE)
      requires !At(M(), root, TRAMPOLINE).1
      modifies `free, `tables, `data, `at
      ensures Valid(loose) && Restored(m, M(), loose)
    {
      ghost var m2 := M();
      DropBorrowed(root, TRAMPOLINE, loose);
      BegunThen(m, m2, M(), root, loose);
      Discard(root, m, loose);
    }

    /** uvmunmap of a borrowed page. */
    method DropBorrowed(root: nat, page: nat, ghost loose: set<nat>)
      requires Valid(loose) && Root(M(), root) && page < MAX_PAGE && !At(M(), root, page).1
      modifies `free, `tables, `data, `at
      ensures Valid(loose) && OnlyIn(old(M()), M(), root, loose) && at == old(at)
      ensures OnePage(old(M()), M(), root, page, (0, false))
    {
      hide Cut, OnlyIn, OnePage, Accounted, Sound, At, IsRoot, Held;
      ghost var m1 := M();
      ghost var taken := Uvmunmap(root, page, 1, false, loose);
      assert loose + taken == loose;
      CutBorrowed(m1, M(), root, page, loose);
    }

    /** uvmfree of a page table without mappings, made after `m`. */
    method Discard(root: nat, ghost m: Mem, ghost loose: set<nat>)
      requires Valid(loose) && Sound(m) && Begun(m, M(), root, loose) && Vacant(M(), root, 0, MAX_PAGE)
      modifies `free, `tables, `data, `at
      ensures Valid(loose) && Restored(m, M(), loose)
    {
      ghost var m1 := M();
      var _ := Uvmfree(root, 0, loose);
      BackTo(m, m1, M(), root, loose);
    }

    /** proc_freepagetable: drops the two borrowed pages and frees the rest. */
    method ProcFreepagetable(root: nat, sz: nat, ghost loose: set<nat>) returns (panic: bool)
      requires Valid(loose) && ProcTable(M(), root, sz)
      modifies `free, `tables, `data, `at
      ensures !panic && Valid(loose) && TreeGone(old(M()), M(), root) && SameData(old(M()), M(), PageSet(at) + loose)
    {
      ghost var m := M();
      DropBorrowed(root, TRAMPOLINE, loose);
      ghost var m1 := M();
      DropBorrowed(root, TRAPFRAME, loose);
      ghost var m2 := M();
      TopDropped(m, m1, m2, root, sz, loose);
      panic := Uvmfree(root, sz, loose);
      GoneThrough(m, m2, M(), root, loose);
    }

    /** The memory side of kfork: a trapframe page, a page table and a copy of the parent's memory, or nothing.
        A failed fork frees the trapframe page while it is still mapped, and leaves no frame behind. */
    method Kfork(parent: nat, sz: nat, trampoline: nat, ghost loose: set<nat>) returns (child: int, trapframe: int)
      requires Valid(loose) && ProcTable(M(), parent, sz)
      modifies `free, `tables, `data, `at
      ensures child == -1 ==> Valid(loose) && Restored(old(M()), M(), loose)
      ensures child != -1 ==> trapframe >= 0 && trapframe !in loose && Valid(loose + {trapframe})
                              && Begun(old(M()), M(), child, loose) && ProcTable(M(), child, sz)
                              && Copied(old(M()), M(), parent, child, PagesUp(sz))
                              && Tops(M(), child, trampoline, trapframe)
      ensures var ps := MappedIn(old(M()), parent, PagesUp(sz));
              && (child != -1 <==> |old(free)| >= 4 + |ps| + TablesBeside(ps, TRAMPOLINE))
              && (child != -1 ==> |free| + 4 + |ps| + TablesBeside(ps, TRAMPOLINE) == |old(free)|)
    {
      hide Copied, At, GraphOk, TablesBeside, MappedIn, Has, OnlyTo, Tops, Restored;
      ghost var m := M();
      trapframe := Kalloc(loose);
      if trapframe == -1 {
        SameRestored(m, loose);
        return -1, -1;
      }
      ghost var m1, hand := M(), loose + {trapframe};
      child := ProcPagetable(trampoline, trapframe, hand);
      if child == -1 {
        FreeTrapframe(trapframe, m, m1, loose);
        return;
      }
      BegunAfter(m, m1, M(), child, trapframe, loose);
      var ok := CopyInto(parent, child, sz, trapframe, trampoline, m, loose);
      child := if ok then child else -1;
    }

    /** freeproc when there is no page table yet. */
    method FreeTrapframe(trapframe: nat, ghost m: Mem, ghost m1: Mem, ghost loose: set<nat>)
      requires Valid(loose + {trapframe}) && trapframe !in loose && Touched(m, m1, trapframe)
      requires Restored(m1, M(), loose + {trapframe})
      modifies `free, `data
      ensures Valid(loose) && Restored(m, M(), loose)
    {
      ghost var m2 := M();
      PageKfree(trapframe, loose + {trapframe});
      assert loose + {trapframe} - {trapframe} == loose;
      NothingLeft(m, m1, m2, M(), trapframe, loose);
    }

    /** The copy, and freeproc if it fails. */
    method CopyInto(parent: nat, child: nat, sz: nat, trapframe: nat, ghost trampoline: nat, ghost m: Mem,
                    ghost loose: set<nat>)
      returns (ok: bool)
      requires Valid(loose + {trapframe}) && trapframe !in loose && trapframe !in m.at && Sound(m)
      requires Begun(m, M(), child, loose) && ProcTable(m, parent, sz) && ProcTable(M(), child, 0) && parent != child
      requires Tops(M(), child, trampoline, trapframe) && OnlyTo(tables, child, TRAMPOLINE)
      modifies `free, `tables, `data, `at
      ensures !ok ==> Valid(loose) && Restored(m, M(), loose)
      ensures ok ==> Valid(loose + {trapframe}) && Begun(m, M(), child, loose) && ProcTable(M(), child, sz)
                     && Copied(m, M(), parent, child, PagesUp(sz)) && Tops(M(), child, trampoline, trapframe)
      ensures var ps := MappedIn(m, parent, PagesUp(sz));
              && (ok <==> |old(free)| >= |ps| + TablesBeside(ps, TRAMPOLINE))
              && (ok ==> |free| + |ps| + TablesBeside(ps, TRAMPOLINE) == |old(free)|)
    {
      hide Copied, At, GraphOk, TablesBeside, TablesFor, MappedIn, Has, OnlyTo, Tops, Restored, Filled, Reaches;
      ghost var m2, hand := M(), loose + {trapframe};
      ParentShown(m, m2, parent, child, sz, loose);
      ForkNeeds(m, m2, parent, child, sz, loose);
      ok := Uvmcopy(parent, child, sz, hand);
      if ok {
        ForkTable(m2, M(), child, sz, trampoline, trapframe, hand);
        FilledOnlyIn(m2, M(), child, PagesUp(sz), hand, loose);
        BegunThen(m, m2, M(), child, loose);
        CopiedFrom(m, m2, M(), parent, child, PagesUp(sz), loose);
        return;
      }
      ghost var m3 := M();
      ForkUndo(m, m2, m3, child, trapframe, loose);
      Freeproc(child, trapframe, m, loose);
    }

    /** freeproc: the trapframe page first, then the page table, whose size is still 0. */
    method Freeproc(child: nat, trapframe: nat, ghost m: Mem, ghost loose: set<nat>)
      requires Valid(loose + {trapframe}) && trapframe !in loose && trapframe !in m.at && Sound(m)
      requires Begun(m, M(), child, loose) && ProcTable(M(), child, 0)
      modifies `free, `tables, `data, `at
      ensures Valid(loose) && Restored(m, M(), loose)
    {
      ghost var m1 := M();
      PageKfree(trapframe, loose + {trapframe});
      assert loose + {trapframe} - {trapframe} == loose;
      ghost var m2 := M();
      BegunData(m, m1, m2, child, trapframe, loose);
      var _ := ProcFreepagetable(child, 0, loose);
      BackTo(m, m2, M(), child, loose);
    }
  }
}
