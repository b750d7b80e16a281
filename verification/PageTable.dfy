/** Three-level page tables as a graph of page frames (kernel/vm.c, kernel/riscv.h). */
module PageTable {

  const ENTRIES := 512
  const MAX_PAGE := 67108864 // MAXVA / PGSIZE

  const PTE_V := 1
  const PTE_R := 2
  const PTE_W := 4
  const PTE_X := 8
  const PTE_U := 16
  const FLAGS := 1024

  /** The table index of a page number at a level. */
  function Px(level: nat, page: nat): (r: nat)
    requires level <= 2
    ensures r < ENTRIES
  {
    if level == 0 then page % 512 else if level == 1 then page / 512 % 512 else page / 262144 % 512
  }

  /** A page number is made of its three indices, the highest level first. */
  lemma PxParts(p: nat)
    requires p < MAX_PAGE
    ensures p == Px(2, p) * 262144 + Px(1, p) * 512 + Px(0, p)
    ensures Px(2, p) == p / 262144 && Px(2, p) * 512 + Px(1, p) == p / 512
  {
    assert p / 262144 == p / 512 / 512;
    assert p / 512 == p / 512 / 512 * 512 + p / 512 % 512;
    assert p == p / 512 * 512 + p % 512;
  }

  /** Three indices determine the page. */
  lemma PxInjective(p: nat, q: nat)
    requires p < MAX_PAGE && q < MAX_PAGE
    requires forall level :: 0 <= level <= 2 ==> Px(level, p) == Px(level, q)
    ensures p == q
  {
    assert Px(0, p) == Px(0, q) && Px(1, p) == Px(1, q) && Px(2, p) == Px(2, q);
    PxParts(p);
    PxParts(q);
  }

  // ---- Page table entries ----

  function IsValid(e: int): bool {
    e % 2 == 1
  }

  /** PTE2PA, as a frame number. */
  function Frame(e: int): int {
    e / FLAGS
  }

  function Flags(e: int): int {
    e % FLAGS
  }

  /** An entry with any of R, W and X set is a mapping; a valid one with none points to a table. */
  function IsLeaf(e: int): bool {
    e / 2 % 8 != 0
  }

  /** PA2PTE(pa) | perm | PTE_V. */
  function MakePte(frame: nat, perm: nat): (e: nat)
    requires perm < FLAGS
    ensures IsValid(e) && Frame(e) == frame && Flags(e) == perm / 2 * 2 + 1
    ensures IsLeaf(e) <==> perm / 2 % 8 != 0
  {
    PteParts(frame, perm / 2);
    frame * FLAGS + perm / 2 * 2 + 1
  }

  lemma PteParts(frame: nat, bits: nat)
    requires bits < 512
    ensures var e := frame * FLAGS + bits * 2 + 1;
            e % 2 == 1 && e / FLAGS == frame && e % FLAGS == bits * 2 + 1 && e / 2 % 8 == bits % 8
  {
    var e := frame * FLAGS + bits * 2 + 1;
    assert e == 1024 * frame + (2 * bits + 1);
    Quotient1024(frame, 2 * bits + 1);
    assert e == 2 * (512 * frame + bits) + 1 && e / 2 == 512 * frame + bits;
    Residue8(64 * frame, bits);
  }

  lemma Quotient1024(q: nat, b: nat)
    requires b < 1024
    ensures (1024 * q + b) / 1024 == q && (1024 * q + b) % 1024 == b
  {
  }

  lemma Residue8(q: nat, b: nat)
    ensures (8 * q + b) % 8 == b % 8
  {
  }

  /** The flags of a mapping serve as permissions for another. */
  lemma FlagsAsPerm(e: int)
    requires IsValid(e) && IsLeaf(e)
    ensures 0 <= Flags(e) < FLAGS && Flags(e) / 2 % 8 != 0 && Flags(e) / 2 * 2 + 1 == Flags(e)
  {
    assert e == e / FLAGS * FLAGS + Flags(e);
    assert e / 2 == e / FLAGS * 512 + Flags(e) / 2;
  }

  // ---- The graph ----

  type Tables = map<nat, seq<int>>

  /** A frame in use: a table at level 2, 1 or 0, or a page at level -1, and the entry that holds it. */
  datatype Node = Node(level: int, parent: nat, index: nat)

  /** A valid entry above level 0 holds a table. One at level 0 maps a frame: it holds it if the frame's node
      says so, and otherwise borrows it. A borrowed frame may be anywhere, and several entries may borrow it. */
  ghost predicate EntryOk(t: Tables, at: map<nat, Node>, f: nat, i: nat)
    requires f in at && f in t && i < |t[f]|
  {
    IsValid(t[f][i]) ==>
      && Frame(t[f][i]) >= 0 && (IsLeaf(t[f][i]) <==> at[f].level == 0)
      && (at[f].level > 0 ==> Frame(t[f][i]) in at && at[Frame(t[f][i])] == Node(at[f].level - 1, f, i))
  }

  ghost predicate TableOk(t: Tables, at: map<nat, Node>, f: nat, ex: set<(nat, nat)>)
    requires f in at
  {
    && f in t && |t[f]| == ENTRIES
    && forall i {:trigger EntryOk(t, at, f, i)} :: 0 <= i < ENTRIES && (f, i) !in ex ==> EntryOk(t, at, f, i)
  }

  /** A frame below the root is held by the entry it names, and no other. MAXVA keeps to half of the root. */
  ghost predicate HeldOk(t: Tables, at: map<nat, Node>, c: nat)
    requires c in at
  {
    && -1 <= at[c].level <= 2
    && (at[c].level < 2 ==>
          var f, i := at[c].parent, at[c].index;
          && f in at && at[f].level == at[c].level + 1 && f in t && i < |t[f]|
          && IsValid(t[f][i]) && Frame(t[f][i]) == c && (at[f].level == 2 ==> i < 256))
  }

  /** Every frame in use is in one place. Entries in `ex` may dangle. */
  ghost predicate GraphOk(t: Tables, at: map<nat, Node>, ex: set<(nat, nat)>) {
    && (forall f {:trigger TableOk(t, at, f, ex)} :: f in at && at[f].level >= 0 ==> TableOk(t, at, f, ex))
    && (forall c {:trigger HeldOk(t, at, c)} :: c in at ==> HeldOk(t, at, c))
    && (forall f :: f in t ==> f in at && at[f].level >= 0)
  }

  // ---- Lookup ----

  /** The table at a level on the way to a page; -1 if there is none. */
  ghost function TableAt(t: Tables, root: nat, page: nat, level: nat): (r: int)
    requires level <= 2
    ensures r >= -1
    decreases 2 - level
  {
    if level == 2 then root else
      var p := TableAt(t, root, page, level + 1);
      if p >= 0 && p in t && |t[p]| == ENTRIES && IsValid(t[p][Px(level + 1, page)])
         && Frame(t[p][Px(level + 1, page)]) >= 0
      then Frame(t[p][Px(level + 1, page)]) else -1
  }

  /** The flat map: the valid entry for a page, or 0. */
  ghost function Lookup(t: Tables, root: nat, page: nat): int {
    var p := TableAt(t, root, page, 0);
    if p >= 0 && p in t && |t[p]| == ENTRIES && IsValid(t[p][Px(0, page)]) then t[p][Px(0, page)] else 0
  }

  lemma {:induction false} TableAtOk(t: Tables, at: map<nat, Node>, root: nat, page: nat, level: nat)
    requires GraphOk(t, at, {}) && root in at && at[root].level == 2 && level <= 2
    ensures var p := TableAt(t, root, page, level);
            p >= 0 ==> p in at && at[p].level == level && TableOk(t, at, p, {})
    decreases 2 - level
  {
    if level < 2 {
      TableAtOk(t, at, root, page, level + 1);
      var p := TableAt(t, root, page, level + 1);
      if p >= 0 {
        assert EntryOk(t, at, p, Px(level + 1, page));
      }
    }
  }

  /** A table is on the way to pages of one root only, with the same indices above it. */
  lemma {:induction false} OneWay(t: Tables, at: map<nat, Node>, r: nat, p: nat, r': nat, p': nat, level: nat)
    requires GraphOk(t, at, {}) && r in at && r' in at && at[r].level == 2 == at[r'].level && level <= 2
    requires TableAt(t, r, p, level) == TableAt(t, r', p', level) != -1
    ensures r == r' && forall k :: level < k <= 2 ==> Px(k, p) == Px(k, p')
    decreases 2 - level
  {
    if level < 2 {
      TableAtOk(t, at, r, p, level + 1);
      TableAtOk(t, at, r', p', level + 1);
      var f, f' := TableAt(t, r, p, level + 1), TableAt(t, r', p', level + 1);
      assert EntryOk(t, at, f, Px(level + 1, p)) && EntryOk(t, at, f', Px(level + 1, p'));
      OneWay(t, at, r, p, r', p', level + 1);
    }
  }

  // ---- Growing the tree: a new, empty table ----

  function Empty(): (z: seq<int>)
    ensures |z| == ENTRIES && forall i :: 0 <= i < ENTRIES ==> z[i] == 0
  {
    seq(ENTRIES, _ => 0)
  }

  function WithEntry(t: Tables, f: nat, i: nat, e: int): Tables
    requires f in t && i < |t[f]|
  {
    t[f := t[f][i := e]]
  }

  function WithTable(t: Tables, f: nat, i: nat, c: nat): Tables
    requires f in t && i < |t[f]| && f != c
  {
    WithEntry(t[c := Empty()], f, i, MakePte(c, 0))
  }

  /** Frame `c` can become a table below entry `i` of table `f`. */
  ghost predicate CanLink(t: Tables, at: map<nat, Node>, f: nat, i: nat, c: nat) {
    && GraphOk(t, at, {}) && f in at && f in t && |t[f]| == ENTRIES && i < ENTRIES && !IsValid(t[f][i])
    && c !in at && c != f
  }

  lemma LinkedGraph(t: Tables, at: map<nat, Node>, f: nat, i: nat, c: nat)
    requires CanLink(t, at, f, i, c) && at[f].level >= 1 && (at[f].level == 2 ==> i < 256)
    ensures GraphOk(WithTable(t, f, i, c), at[c := Node(at[f].level - 1, f, i)], {})
  {
    var t', at' := WithTable(t, f, i, c), at[c := Node(at[f].level - 1, f, i)];
    forall g | g in at' && at'[g].level >= 0 ensures TableOk(t', at', g, {}) {
      if g != c {
        assert TableOk(t, at, g, {});
        forall k | 0 <= k < ENTRIES ensures EntryOk(t', at', g, k) {
          assert EntryOk(t, at, g, k);
        }
      }
    }
    assert HeldOk(t, at, f);
    forall d | d in at' ensures HeldOk(t', at', d) {
      if d != c {
        assert HeldOk(t, at, d);
      }
    }
  }

  lemma {:induction false} LinkedWay(t: Tables, at: map<nat, Node>, f: nat, i: nat, c: nat, r: nat, p: nat, level: nat)
    requires CanLink(t, at, f, i, c) && at[f].level >= 1 && r in at && at[r].level == 2 && level <= 2
    ensures var q, q' := TableAt(t, r, p, level), TableAt(WithTable(t, f, i, c), r, p, level);
            q' == q || (q == -1 && q' == c)
    decreases 2 - level
  {
    if level < 2 {
      LinkedWay(t, at, f, i, c, r, p, level + 1);
      TableAtOk(t, at, r, p, level + 1);
    }
  }

  /** Growing the tree inside walk changes no lookup. */
  lemma LinkedLookup(t: Tables, at: map<nat, Node>, f: nat, i: nat, c: nat, r: nat, p: nat)
    requires CanLink(t, at, f, i, c) && at[f].level >= 1 && r in at && at[r].level == 2
    ensures Lookup(WithTable(t, f, i, c), r, p) == Lookup(t, r, p)
  {
    LinkedWay(t, at, f, i, c, r, p, 0);
    TableAtOk(t, at, r, p, 0);
  }

  // ---- Mapping and unmapping one page ----

  /** The page is mapped to a frame that its entry holds. */
  ghost predicate Owns(t: Tables, at: map<nat, Node>, r: nat, p: nat) {
    var e, f := Lookup(t, r, p), TableAt(t, r, p, 0);
    e != 0 && Frame(e) >= 0 && f >= 0 && Frame(e) in at && at[Frame(e)] == Node(-1, f, Px(0, p))
  }

  /** What a page table shows for a page: the entry, and whether it holds its frame. */
  ghost function Seen(t: Tables, at: map<nat, Node>, r: nat, p: nat): (int, bool) {
    (Lookup(t, r, p), Owns(t, at, r, p))
  }

  ghost predicate IsRoot(at: map<nat, Node>, r: nat) {
    r in at && at[r].level == 2
  }

  lemma LinkedSeen(t: Tables, at: map<nat, Node>, f: nat, i: nat, c: nat, r: nat, p: nat)
    requires CanLink(t, at, f, i, c) && at[f].level >= 1 && IsRoot(at, r)
    ensures Seen(WithTable(t, f, i, c), at[c := Node(at[f].level - 1, f, i)], r, p) == Seen(t, at, r, p)
  {
    LinkedLookup(t, at, f, i, c, r, p);
    LinkedWay(t, at, f, i, c, r, p, 0);
  }

  /** An unused entry of a level-0 table. */
  ghost predicate CanMap(t: Tables, at: map<nat, Node>, f: nat, i: nat) {
    GraphOk(t, at, {}) && f in at && at[f].level == 0 && f in t && |t[f]| == ENTRIES && i < ENTRIES && !IsValid(t[f][i])
  }

  /** Where the frame of a new mapping stands: held by the entry, or wherever it was. */
  ghost function WithPage(at: map<nat, Node>, f: nat, i: nat, c: nat, own: bool): map<nat, Node> {
    if own then at[c := Node(-1, f, i)] else at
  }

  lemma MappedGraph(t: Tables, at: map<nat, Node>, f: nat, i: nat, c: nat, e: int, own: bool)
    requires CanMap(t, at, f, i) && (own ==> c !in at) && IsValid(e) && IsLeaf(e) && Frame(e) == c
    ensures GraphOk(WithEntry(t, f, i, e), WithPage(at, f, i, c, own), {})
  {
    var t', at' := WithEntry(t, f, i, e), WithPage(at, f, i, c, own);
    forall g | g in at' && at'[g].level >= 0 ensures TableOk(t', at', g, {}) {
      assert TableOk(t, at, g, {});
      forall k | 0 <= k < ENTRIES ensures EntryOk(t', at', g, k) {
        assert EntryOk(t, at, g, k);
      }
    }
    forall d | d in at' ensures HeldOk(t', at', d) {
      if d in at {
        assert HeldOk(t, at, d);
      }
    }
  }

  /** What is left in use when an entry is cleared. */
  ghost function WithoutPage(at: map<nat, Node>, f: nat, i: nat, c: nat): map<nat, Node> {
    if c in at && at[c] == Node(-1, f, i) then at - {c} else at
  }

  lemma UnmappedGraph(t: Tables, at: map<nat, Node>, f: nat, i: nat)
    requires GraphOk(t, at, {}) && f in at && at[f].level == 0 && i < ENTRIES && f in t && |t[f]| == ENTRIES
    requires IsValid(t[f][i])
    ensures Frame(t[f][i]) >= 0 && GraphOk(WithEntry(t, f, i, 0), WithoutPage(at, f, i, Frame(t[f][i])), {})
  {
    assert TableOk(t, at, f, {}) && EntryOk(t, at, f, i);
    var c := Frame(t[f][i]);
    var t', at' := WithEntry(t, f, i, 0), WithoutPage(at, f, i, c);
    forall g | g in at' && at'[g].level >= 0 ensures TableOk(t', at', g, {}) {
      assert TableOk(t, at, g, {});
      forall k | 0 <= k < ENTRIES ensures EntryOk(t', at', g, k) {
        assert EntryOk(t, at, g, k);
      }
    }
    forall d | d in at' ensures HeldOk(t', at', d) {
      assert HeldOk(t, at, d);
    }
  }

  /** Entries of level-0 tables are not on the way to any table. */
  lemma {:induction false} LeafWay(t: Tables, at: map<nat, Node>, f: nat, i: nat, e: int, r: nat, p: nat, level: nat)
    requires GraphOk(t, at, {}) && f in at && at[f].level == 0 && f in t && |t[f]| == ENTRIES && i < ENTRIES
    requires r in at && at[r].level == 2 && level <= 2
    ensures TableAt(WithEntry(t, f, i, e), r, p, level) == TableAt(t, r, p, level)
    decreases 2 - level
  {
    if level < 2 {
      LeafWay(t, at, f, i, e, r, p, level + 1);
      TableAtOk(t, at, r, p, level + 1);
    }
  }

  /** A level-0 entry belongs to one page of one table. */
  lemma OneEntry(t: Tables, at: map<nat, Node>, root: nat, page: nat, r: nat, p: nat)
    requires GraphOk(t, at, {}) && IsRoot(at, root) && IsRoot(at, r) && page < MAX_PAGE && p < MAX_PAGE
    requires TableAt(t, root, page, 0) == TableAt(t, r, p, 0) >= 0 && Px(0, p) == Px(0, page)
    ensures r == root && p == page
  {
    OneWay(t, at, root, page, r, p, 0);
    PxInjective(page, p);
  }

  /** Writing the entry of one page changes the lookup of that page of that table and of no other. */
  lemma WrittenLookup(t: Tables, at: map<nat, Node>, root: nat, page: nat, e: int, r: nat, p: nat)
    requires GraphOk(t, at, {}) && IsRoot(at, root) && page < MAX_PAGE && TableAt(t, root, page, 0) >= 0
    requires IsRoot(at, r) && p < MAX_PAGE
    ensures var f := TableAt(t, root, page, 0);
            && f in t && |t[f]| == ENTRIES
            && TableAt(WithEntry(t, f, Px(0, page), e), r, p, 0) == TableAt(t, r, p, 0)
            && Lookup(WithEntry(t, f, Px(0, page), e), r, p)
               == if r == root && p == page then (if IsValid(e) then e else 0) else Lookup(t, r, p)
  {
    TableAtOk(t, at, root, page, 0);
    TableAtOk(t, at, r, p, 0);
    var f := TableAt(t, root, page, 0);
    LeafWay(t, at, f, Px(0, page), e, r, p, 0);
    if TableAt(t, r, p, 0) == f && Px(0, p) == Px(0, page) {
      OneEntry(t, at, root, page, r, p);
    }
  }

  /** Mapping a page shows at that page and nowhere else. */
  lemma MappedSeen(t: Tables, at: map<nat, Node>, root: nat, page: nat, c: nat, e: int, own: bool, r: nat, p: nat)
    requires GraphOk(t, at, {}) && IsRoot(at, root) && page < MAX_PAGE && TableAt(t, root, page, 0) >= 0
    requires Lookup(t, root, page) == 0 && IsRoot(at, r) && p < MAX_PAGE
    requires (own ==> c !in at) && IsValid(e) && IsLeaf(e) && Frame(e) == c
    ensures var f, i := TableAt(t, root, page, 0), Px(0, page);
            && f in t && |t[f]| == ENTRIES
            && Seen(WithEntry(t, f, i, e), WithPage(at, f, i, c, own), r, p)
               == if r == root && p == page then (e, own) else Seen(t, at, r, p)
  {
    WrittenLookup(t, at, root, page, e, r, p);
    TableAtOk(t, at, root, page, 0);
    if c in at {
      assert HeldOk(t, at, c);
    }
    if TableAt(t, r, p, 0) == TableAt(t, root, page, 0) && Px(0, p) == Px(0, page) {
      OneEntry(t, at, root, page, r, p);
    }
  }

  /** So does clearing one. */
  lemma UnmappedSeen(t: Tables, at: map<nat, Node>, root: nat, page: nat, r: nat, p: nat)
    requires GraphOk(t, at, {}) && IsRoot(at, root) && page < MAX_PAGE && TableAt(t, root, page, 0) >= 0
    requires Lookup(t, root, page) != 0 && IsRoot(at, r) && p < MAX_PAGE && Frame(Lookup(t, root, page)) >= 0
    ensures var f, i := TableAt(t, root, page, 0), Px(0, page);
            && f in t && |t[f]| == ENTRIES
            && Seen(WithEntry(t, f, i, 0), WithoutPage(at, f, i, Frame(Lookup(t, root, page))), r, p)
               == if r == root && p == page then (0, false) else Seen(t, at, r, p)
  {
    WrittenLookup(t, at, root, page, 0, r, p);
    if TableAt(t, r, p, 0) == TableAt(t, root, page, 0) && Px(0, p) == Px(0, page) {
      OneEntry(t, at, root, page, r, p);
    }
  }

  // ---- A new page table ----

  const ROOT_NODE := Node(2, 0, 0)

  lemma NewRootGraph(t: Tables, at: map<nat, Node>, c: nat)
    requires GraphOk(t, at, {}) && c !in at
    ensures GraphOk(t[c := Empty()], at[c := ROOT_NODE], {})
  {
    var t', at' := t[c := Empty()], at[c := ROOT_NODE];
    forall f | f in at' && at'[f].level >= 0 ensures TableOk(t', at', f, {}) {
      if f != c {
        assert TableOk(t, at, f, {});
        forall k | 0 <= k < ENTRIES ensures EntryOk(t', at', f, k) {
          assert EntryOk(t, at, f, k);
        }
      }
    }
    forall d | d in at' ensures HeldOk(t', at', d) {
      assert d != c ==> HeldOk(t, at, d);
    }
  }

  lemma {:induction false} NewRootWay(t: Tables, at: map<nat, Node>, c: nat, r: nat, p: nat, level: nat)
    requires GraphOk(t, at, {}) && c !in at && IsRoot(at, r) && level <= 2
    ensures TableAt(t[c := Empty()], r, p, level) == TableAt(t, r, p, level)
    decreases 2 - level
  {
    if level < 2 {
      NewRootWay(t, at, c, r, p, level + 1);
      TableAtOk(t, at, r, p, level + 1);
    }
  }

  lemma NewRootSeen(t: Tables, at: map<nat, Node>, c: nat, r: nat, p: nat)
    requires GraphOk(t, at, {}) && c !in at && IsRoot(at, r)
    ensures Seen(t[c := Empty()], at[c := ROOT_NODE], r, p) == Seen(t, at, r, p)
  {
    NewRootWay(t, at, c, r, p, 0);
    TableAtOk(t, at, r, p, 0);
  }

  /** Below a missing table there is nothing. */
  lemma {:induction false} Missing(t: Tables, root: nat, page: nat, level: nat)
    requires level <= 2 && TableAt(t, root, page, level) == -1
    ensures Lookup(t, root, page) == 0
  {
    if level > 0 {
      Missing(t, root, page, level - 1);
    }
  }
}
