/** The memory allocator of user/umalloc.c, after Kernighan and Ritchie.  Addresses count headers of sixteen bytes; the
    static header `base` lies below everything that sbrk gives out.  A pointer handed to the user is the address
    after the block's header. */
module Umalloc {
  import opened Sums

  const NIL := 0
  const WILD := -1
  const BASE := 1
  const SIZEOF_HEADER := 16
  const MIN_UNITS := 4096
  // From this many units on, the byte count that morecore passes to sbrk no longer fits an int.
  const UNITS_LIMIT := 0x800_0000
  const INT_WRAP := 0x1_0000_0000

  datatype Header = Header(ptr: int, size: int)

  /** A free block: its address and its size, header included. */
  datatype Blk = Blk(addr: int, size: int)

  predicate InBlk(u: int, b: Blk) {
    b.addr <= u < b.addr + b.size
  }

  /** In address order, with a gap after each block. */
  ghost predicate Coalesced(fl: seq<Blk>) {
    && (forall i :: 0 <= i < |fl| ==> fl[i].addr > BASE && fl[i].size >= 1)
    && (forall i, j :: 0 <= i < j < |fl| ==> fl[i].addr + fl[i].size < fl[j].addr)
  }

  /** Unit `u` belongs to a free block. */
  ghost predicate Has(fl: seq<Blk>, u: int) {
    exists i :: 0 <= i < |fl| && InBlk(u, fl[i])
  }

  /** How many free blocks lie below an address. */
  function Below(fl: seq<Blk>, a: int): (k: nat)
    ensures k <= |fl|
  {
    if fl == [] || fl[0].addr >= a then 0 else 1 + Below(fl[1..], a)
  }

  lemma {:induction false} BelowSplits(fl: seq<Blk>, a: int)
    requires Coalesced(fl)
    ensures var k := Below(fl, a);
            && (forall i :: 0 <= i < k ==> fl[i].addr < a)
            && (forall i :: k <= i < |fl| ==> a <= fl[i].addr)
  {
    if fl != [] && fl[0].addr < a {
      BelowSplits(fl[1..], a);
      var k := Below(fl[1..], a);
      forall i | 0 <= i < k + 1 ensures fl[i].addr < a {
        assert i > 0 ==> fl[i] == fl[1..][i - 1];
      }
      forall i | k + 1 <= i < |fl| ensures a <= fl[i].addr {
        assert fl[i] == fl[1..][i - 1];
      }
    }
  }

  // ---- Giving a block back ----

  /** Block `b` touches the free block after it, or before it. */
  predicate MeetsNext(fl: seq<Blk>, k: nat, b: Blk) {
    k < |fl| && b.addr + b.size == fl[k].addr
  }

  predicate MeetsPrev(fl: seq<Blk>, k: nat, b: Blk) {
    0 < k <= |fl| && fl[k - 1].addr + fl[k - 1].size == b.addr
  }

  /** The blocks from `p` up to `n` replaced by `c`. */
  function Splice(fl: seq<Blk>, p: nat, c: Blk, n: nat): (g: seq<Blk>)
    requires p <= n <= |fl|
    ensures |g| == p + 1 + |fl| - n && g[p] == c
    ensures forall i {:trigger g[i]} :: 0 <= i < |g| && i != p ==> g[i] == if i < p then fl[i] else fl[n + i - p - 1]
  {
    fl[..p] + [c] + fl[n..]
  }

  /** `c` lies between block `p` and block `n`, with a gap on either side. */
  ghost predicate Between(fl: seq<Blk>, p: nat, c: Blk, n: nat) {
    && p <= n <= |fl| && c.addr > BASE && c.size >= 1
    && (forall i :: 0 <= i < p ==> fl[i].addr + fl[i].size < c.addr)
    && (forall i :: n <= i < |fl| ==> c.addr + c.size < fl[i].addr)
  }

  lemma SpliceCoalesced(fl: seq<Blk>, p: nat, c: Blk, n: nat)
    requires Coalesced(fl) && Between(fl, p, c, n)
    ensures Coalesced(Splice(fl, p, c, n))
  {
    hide Splice;
  }

  lemma SpliceHas(fl: seq<Blk>, p: nat, c: Blk, n: nat, u: int)
    requires p <= n <= |fl|
    ensures Has(Splice(fl, p, c, n), u) <==> InBlk(u, c) || Has(fl[..p], u) || Has(fl[n..], u)
  {
    hide Splice;
    var g := Splice(fl, p, c, n);
    if Has(fl[..p], u) {
      var i :| 0 <= i < p && InBlk(u, fl[..p][i]);
      assert g[i] == fl[i];
    }
    if Has(fl[n..], u) {
      var i :| 0 <= i < |fl| - n && InBlk(u, fl[n..][i]);
      assert g[p + 1 + i] == fl[n + i];
    }
    if Has(g, u) {
      var i :| 0 <= i < |g| && InBlk(u, g[i]);
      if i < p {
        assert fl[..p][i] == g[i];
      } else if i > p {
        assert fl[n..][i - p - 1] == g[i];
      }
    }
  }

  lemma HasParts(fl: seq<Blk>, k: nat, u: int)
    requires k <= |fl|
    ensures Has(fl, u) <==> Has(fl[..k], u) || Has(fl[k..], u)
  {
    if Has(fl[..k], u) {
      var i :| 0 <= i < k && InBlk(u, fl[..k][i]);
      assert InBlk(u, fl[i]);
    }
    if Has(fl[k..], u) {
      var i :| 0 <= i < |fl| - k && InBlk(u, fl[k..][i]);
      assert InBlk(u, fl[k + i]);
    }
    if Has(fl, u) {
      var i :| 0 <= i < |fl| && InBlk(u, fl[i]);
      if i < k {
        assert fl[..k][i] == fl[i];
      } else {
        assert fl[k..][i - k] == fl[i];
      }
    }
  }

  lemma HasOne(b: Blk, u: int)
    ensures Has([b], u) <==> InBlk(u, b)
  {
    assert [b][0] == b;
  }

  function Joined(fl: seq<Blk>, k: nat, b: Blk): Blk
    requires k <= |fl|
  {
    var c := if MeetsNext(fl, k, b) then b.(size := b.size + fl[k].size) else b;
    if MeetsPrev(fl, k, b) then fl[k - 1].(size := fl[k - 1].size + c.size) else c
  }

  /** The list with `b` put in at position `k` and joined with the blocks it touches. */
  function Inserted(fl: seq<Blk>, k: nat, b: Blk): seq<Blk>
    requires k <= |fl|
  {
    Splice(fl, if MeetsPrev(fl, k, b) then k - 1 else k, Joined(fl, k, b), if MeetsNext(fl, k, b) then k + 1 else k)
  }

  /** A block apart from all free blocks, with `k` of them below it. */
  ghost predicate Fits(fl: seq<Blk>, k: nat, b: Blk) {
    && k <= |fl| && b.addr > BASE && b.size >= 1
    && (forall i :: 0 <= i < k ==> fl[i].addr + fl[i].size <= b.addr)
    && (forall i :: k <= i < |fl| ==> b.addr + b.size <= fl[i].addr)
  }

  lemma ApartFits(fl: seq<Blk>, b: Blk)
    requires Coalesced(fl) && b.addr > BASE && b.size >= 1 && forall u :: InBlk(u, b) ==> !Has(fl, u)
    ensures Fits(fl, Below(fl, b.addr), b)
  {
    BelowSplits(fl, b.addr);
    assert InBlk(b.addr, b);
    forall i | 0 <= i < |fl| ensures fl[i].addr < b.addr ==> fl[i].addr + fl[i].size <= b.addr {
      assert InBlk(b.addr, fl[i]) ==> Has(fl, b.addr);
    }
    forall i | 0 <= i < |fl| ensures b.addr <= fl[i].addr ==> b.addr + b.size <= fl[i].addr {
      assert InBlk(fl[i].addr, fl[i]);
      assert InBlk(fl[i].addr, b) ==> Has(fl, fl[i].addr);
    }
  }

  lemma InsertedCoalesced(fl: seq<Blk>, k: nat, b: Blk)
    requires Coalesced(fl) && Fits(fl, k, b)
    ensures Coalesced(Inserted(fl, k, b))
  {
    hide Splice;
    var p, n := if MeetsPrev(fl, k, b) then k - 1 else k, if MeetsNext(fl, k, b) then k + 1 else k;
    SpliceCoalesced(fl, p, Joined(fl, k, b), n);
  }

  /** Exactly the units of `b` become free. */
  lemma InsertedHas(fl: seq<Blk>, k: nat, b: Blk, u: int)
    requires Coalesced(fl) && Fits(fl, k, b)
    ensures Has(Inserted(fl, k, b), u) <==> Has(fl, u) || InBlk(u, b)
  {
    hide Splice, Has;
    var p, n := if MeetsPrev(fl, k, b) then k - 1 else k, if MeetsNext(fl, k, b) then k + 1 else k;
    SpliceHas(fl, p, Joined(fl, k, b), n, u);
    HasParts(fl, k, u);
    if p < k {
      HasParts(fl[..k], p, u);
      assert fl[..k][..p] == fl[..p] && fl[..k][p..] == [fl[p]];
      HasOne(fl[p], u);
    }
    if n > k {
      HasParts(fl[k..], 1, u);
      assert fl[k..][..1] == [fl[k]] && fl[k..][1..] == fl[n..];
      HasOne(fl[k], u);
    }
    JoinedUnits(fl, k, b, u);
  }

  lemma JoinedUnits(fl: seq<Blk>, k: nat, b: Blk, u: int)
    requires k <= |fl| && b.size >= 1
    requires MeetsPrev(fl, k, b) ==> fl[k - 1].size >= 0
    requires MeetsNext(fl, k, b) ==> fl[k].size >= 0
    ensures InBlk(u, Joined(fl, k, b)) <==>
            InBlk(u, b) || (MeetsPrev(fl, k, b) && InBlk(u, fl[k - 1])) || (MeetsNext(fl, k, b) && InBlk(u, fl[k]))
  {
  }

  // ---- Taking a block from the end of a free one ----

  /** The list after `n` units are cut off the end of block `i`. */
  function Cut(fl: seq<Blk>, i: nat, n: int): seq<Blk>
    requires i < |fl|
  {
    if fl[i].size == n then fl[..i] + fl[i + 1..] else fl[i := fl[i].(size := fl[i].size - n)]
  }

  function TailOf(b: Blk, n: int): Blk {
    Blk(b.addr + b.size - n, n)
  }

  lemma CutCoalesced(fl: seq<Blk>, i: nat, n: int)
    requires Coalesced(fl) && i < |fl| && 1 <= n <= fl[i].size
    ensures Coalesced(Cut(fl, i, n))
  {
  }

  /** Exactly the units handed out stop being free. */
  lemma CutHas(fl: seq<Blk>, i: nat, n: int, u: int)
    requires Coalesced(fl) && i < |fl| && 1 <= n <= fl[i].size
    ensures Has(Cut(fl, i, n), u) <==> Has(fl, u) && !InBlk(u, TailOf(fl[i], n))
    ensures InBlk(u, TailOf(fl[i], n)) ==> Has(fl, u)
  {
    if InBlk(u, TailOf(fl[i], n)) {
      assert InBlk(u, fl[i]);
    }
    if Has(fl, u) && !InBlk(u, TailOf(fl[i], n)) {
      CutLeaves(fl, i, n, u);
    }
    if Has(Cut(fl, i, n), u) {
      CutAddsNone(fl, i, n, u);
    }
  }

  lemma CutLeaves(fl: seq<Blk>, i: nat, n: int, u: int)
    requires i < |fl| && 1 <= n <= fl[i].size && Has(fl, u) && !InBlk(u, TailOf(fl[i], n))
    ensures Has(Cut(fl, i, n), u)
  {
    var g := Cut(fl, i, n);
    var j :| 0 <= j < |fl| && InBlk(u, fl[j]);
    if fl[i].size != n {
      assert InBlk(u, g[j]);
    } else {
      assert g[if j < i then j else j - 1] == fl[j];
    }
  }

  lemma CutAddsNone(fl: seq<Blk>, i: nat, n: int, u: int)
    requires Coalesced(fl) && i < |fl| && 1 <= n <= fl[i].size && Has(Cut(fl, i, n), u)
    ensures Has(fl, u) && !InBlk(u, TailOf(fl[i], n))
  {
    var g := Cut(fl, i, n);
    var j :| 0 <= j < |g| && InBlk(u, g[j]);
    var j' := if fl[i].size == n && j >= i then j + 1 else j;
    assert InBlk(u, fl[j']);
    if j' != i {
      OneBlk(fl, i, j', u);
    }
  }

  lemma OneBlk(fl: seq<Blk>, i: nat, j: nat, u: int)
    requires Coalesced(fl) && i < |fl| && j < |fl| && i != j && InBlk(u, fl[j])
    ensures !InBlk(u, fl[i])
  {
  }

  // ---- Canonical form ----

  lemma HasFirst(fl: seq<Blk>, u: int)
    requires Coalesced(fl) && fl != []
    ensures Has(fl, u) ==> u >= fl[0].addr
    ensures fl[0].addr <= u < fl[0].addr + fl[0].size ==> Has(fl, u)
    ensures !Has(fl, fl[0].addr + fl[0].size)
    ensures Has(fl[1..], u) <==> Has(fl, u) && u > fl[0].addr + fl[0].size
  {
    var f := fl[1..];
    assert fl[0].addr <= u < fl[0].addr + fl[0].size ==> InBlk(u, fl[0]);
    if Has(f, u) {
      var i :| 0 <= i < |f| && InBlk(u, f[i]);
      assert f[i] == fl[i + 1];
    }
    if Has(fl, u) && u > fl[0].addr + fl[0].size {
      var i :| 0 <= i < |fl| && InBlk(u, fl[i]);
      assert i > 0 && f[i - 1] == fl[i];
    }
  }

  /** Coalesced lists with the same free units are the same: the list does not depend on how it came about. */
  lemma {:induction false} FreeUnitsDecide(f: seq<Blk>, g: seq<Blk>)
    requires Coalesced(f) && Coalesced(g) && forall u :: Has(f, u) <==> Has(g, u)
    ensures f == g
    decreases |f|
  {
    if f == [] || g == [] {
      if f != [] {
        HasFirst(f, f[0].addr);
      }
      if g != [] {
        HasFirst(g, g[0].addr);
      }
    } else {
      HasFirst(f, f[0].addr);
      HasFirst(g, f[0].addr);
      HasFirst(f, g[0].addr);
      HasFirst(g, g[0].addr);
      var e, e' := f[0].addr + f[0].size, g[0].addr + g[0].size;
      HasFirst(f, e');
      HasFirst(g, e);
      assert f[0] == g[0];
      forall u ensures Has(f[1..], u) <==> Has(g[1..], u) {
        HasFirst(f, u);
        HasFirst(g, u);
      }
      FreeUnitsDecide(f[1..], g[1..]);
    }
  }

  // ---- Totals ----

  ghost function Total(fl: seq<Blk>): int {
    if fl == [] then 0 else fl[0].size + Total(fl[1..])
  }

  lemma {:induction false} TotalConcat(f: seq<Blk>, g: seq<Blk>)
    ensures Total(f + g) == Total(f) + Total(g)
  {
    if f == [] {
      assert f + g == g;
    } else {
      TotalConcat(f[1..], g);
      assert (f + g)[1..] == f[1..] + g;
    }
  }

  lemma TotalSplit(fl: seq<Blk>, i: nat)
    requires i < |fl|
    ensures Total(fl) == Total(fl[..i]) + fl[i].size + Total(fl[i + 1..])
  {
    hide Total;
    assert fl == fl[..i] + ([fl[i]] + fl[i + 1..]);
    TotalConcat(fl[..i], [fl[i]] + fl[i + 1..]);
    TotalConcat([fl[i]], fl[i + 1..]);
    TotalOne(fl[i]);
  }

  lemma TotalOne(b: Blk)
    ensures Total([b]) == b.size
  {
    assert [b][1..] == [];
  }

  lemma CutTotal(fl: seq<Blk>, i: nat, n: int)
    requires i < |fl|
    ensures Total(Cut(fl, i, n)) == Total(fl) - n
  {
    TotalSplit(fl, i);
    var g := Cut(fl, i, n);
    if fl[i].size == n {
      TotalConcat(fl[..i], fl[i + 1..]);
    } else {
      TotalSplit(g, i);
      assert g[..i] == fl[..i] && g[i + 1..] == fl[i + 1..];
    }
  }

  lemma SpliceTotal(fl: seq<Blk>, p: nat, c: Blk, n: nat)
    requires p <= n <= |fl|
    ensures Total(Splice(fl, p, c, n)) == Total(fl[..p]) + c.size + Total(fl[n..])
  {
    TotalConcat(fl[..p], [c]);
    TotalConcat(fl[..p] + [c], fl[n..]);
    assert [c][1..] == [];
    assert Total([c]) == c.size;
  }

  lemma InsertedTotal(fl: seq<Blk>, k: nat, b: Blk)
    requires k <= |fl|
    ensures Total(Inserted(fl, k, b)) == Total(fl) + b.size
  {
    hide Splice, Total;
    var p, n := if MeetsPrev(fl, k, b) then k - 1 else k, if MeetsNext(fl, k, b) then k + 1 else k;
    SpliceTotal(fl, p, Joined(fl, k, b), n);
    TotalParts(fl, k);
    if p < k {
      LastOff(fl, k);
    }
    if n > k {
      FirstOff(fl, k);
    }
  }

  lemma LastOff(fl: seq<Blk>, k: nat)
    requires 0 < k <= |fl|
    ensures Total(fl[..k]) == Total(fl[..k - 1]) + fl[k - 1].size
  {
    assert Total([]) == 0;
    hide Total;
    TotalSplit(fl[..k], k - 1);
    assert fl[..k][..k - 1] == fl[..k - 1] && fl[..k][k..] == [];
  }

  lemma FirstOff(fl: seq<Blk>, k: nat)
    requires k < |fl|
    ensures Total(fl[k..]) == fl[k].size + Total(fl[k + 1..])
  {
    assert Total([]) == 0;
    hide Total;
    TotalSplit(fl[k..], 0);
    assert fl[k..][..0] == [] && fl[k..][1..] == fl[k + 1..];
  }

  lemma TotalParts(fl: seq<Blk>, k: nat)
    requires k <= |fl|
    ensures Total(fl) == Total(fl[..k]) + Total(fl[k..])
  {
    assert fl == fl[..k] + fl[k..];
    TotalConcat(fl[..k], fl[k..]);
  }

  // ---- The circular list in memory ----

  /** The address of free block `i`, and of `base` after the last one. */
  function Addr(fl: seq<Blk>, i: nat): int {
    if i < |fl| then fl[i].addr else BASE
  }

  /** The nodes of the circle: `base` and then the free blocks. */
  function Node(fl: seq<Blk>, k: nat): int
    requires k <= |fl|
  {
    if k == 0 then BASE else fl[k - 1].addr
  }

  ghost predicate LinkAt(hdr: map<int, Header>, fl: seq<Blk>, i: nat)
    requires i < |fl|
  {
    fl[i].addr in hdr && hdr[fl[i].addr] == Header(Addr(fl, i + 1), fl[i].size)
  }

  ghost predicate Linked(hdr: map<int, Header>, fl: seq<Blk>) {
    && BASE in hdr && hdr[BASE] == Header(Addr(fl, 0), 0)
    && forall i :: 0 <= i < |fl| ==> LinkAt(hdr, fl, i)
  }

  lemma NodeLink(hdr: map<int, Header>, fl: seq<Blk>, k: nat)
    requires Linked(hdr, fl) && k <= |fl|
    ensures Node(fl, k) in hdr
    ensures hdr[Node(fl, k)] == Header(Addr(fl, k), if k == 0 then 0 else fl[k - 1].size)
    ensures Addr(fl, k) in hdr && (k < |fl| ==> hdr[Addr(fl, k)] == Header(Addr(fl, k + 1), fl[k].size))
  {
    assert k > 0 ==> LinkAt(hdr, fl, k - 1);
    assert k < |fl| ==> LinkAt(hdr, fl, k);
  }

  /** The header writes of free for block `bp` after node `p`: first with the block above, then with the one below. */
  function WithUpper(hdr: map<int, Header>, p: int, bp: int): map<int, Header>
    requires p in hdr && bp in hdr && hdr[p].ptr in hdr
  {
    if bp + hdr[bp].size == hdr[p].ptr
    then hdr[bp := Header(hdr[hdr[p].ptr].ptr, hdr[bp].size + hdr[hdr[p].ptr].size)]
    else hdr[bp := hdr[bp].(ptr := hdr[p].ptr)]
  }

  function WithLower(hdr: map<int, Header>, p: int, bp: int): map<int, Header>
    requires p in hdr && bp in hdr
  {
    if p + hdr[p].size == bp
    then hdr[p := Header(hdr[bp].ptr, hdr[p].size + hdr[bp].size)]
    else hdr[p := hdr[p].(ptr := bp)]
  }

  /** What the headers of `p` and `bp` are afterwards. */
  lemma FreedHeaders(hdr: map<int, Header>, fl: seq<Blk>, k: nat, b: Blk)
    requires Linked(hdr, fl) && Coalesced(fl) && Fits(fl, k, b) && b.addr in hdr && hdr[b.addr].size == b.size
    ensures Node(fl, k) in hdr && hdr[Node(fl, k)].ptr in hdr
    ensures var p, h := Node(fl, k), WithLower(WithUpper(hdr, Node(fl, k), b.addr), Node(fl, k), b.addr);
            var c, after := Joined(fl, k, b), Addr(fl, if MeetsNext(fl, k, b) then k + 1 else k);
            && h.Keys == hdr.Keys
            && (forall a :: a in hdr && a != p && a != b.addr ==> h[a] == hdr[a])
            && h[c.addr] == Header(after, c.size)
            && (!MeetsPrev(fl, k, b) ==> h[p] == hdr[p].(ptr := b.addr))
  {
    NodeLink(hdr, fl, k);
    hide Linked, Coalesced;
  }

  /** The list in memory is the new one. */
  lemma FreedLinks(hdr: map<int, Header>, fl: seq<Blk>, k: nat, b: Blk)
    requires Linked(hdr, fl) && Coalesced(fl) && Fits(fl, k, b) && b.addr in hdr && hdr[b.addr].size == b.size
    requires Node(fl, k) in hdr && hdr[Node(fl, k)].ptr in hdr
    ensures Linked(WithLower(WithUpper(hdr, Node(fl, k), b.addr), Node(fl, k), b.addr), Inserted(fl, k, b))
  {
    FreedHeaders(hdr, fl, k, b);
    hide Splice, WithLower, WithUpper;
    var p, h := Node(fl, k), WithLower(WithUpper(hdr, Node(fl, k), b.addr), Node(fl, k), b.addr);
    var x, n := if MeetsPrev(fl, k, b) then k - 1 else k, if MeetsNext(fl, k, b) then k + 1 else k;
    var g, c := Inserted(fl, k, b), Joined(fl, k, b);
    forall j | 0 <= j < |g| ensures LinkAt(h, g, j) {
      if j < x {
        assert LinkAt(hdr, fl, j);
        assert Addr(g, j + 1) == if j + 1 == x then c.addr else Addr(fl, j + 1);
      } else if j > x {
        var i := n + j - x - 1;
        assert LinkAt(hdr, fl, i) && g[j] == fl[i];
        assert Addr(g, j + 1) == Addr(fl, i + 1);
      } else {
        assert Addr(g, j + 1) == Addr(fl, n);
      }
    }
    assert Addr(g, 0) == if x == 0 then c.addr else Addr(fl, 0);
  }

  /** The header writes of malloc when it takes `n` units of the block after node `k`. */
  lemma CutLinks(hdr: map<int, Header>, fl: seq<Blk>, k: nat, n: int, h: Header)
    requires Linked(hdr, fl) && Coalesced(fl) && k < |fl| && 1 <= n <= fl[k].size
    ensures Node(fl, k) in hdr && fl[k].addr in hdr
    ensures fl[k].size == n ==>
              Linked(hdr[Node(fl, k) := hdr[Node(fl, k)].(ptr := hdr[fl[k].addr].ptr)], Cut(fl, k, n))
    ensures fl[k].size > n ==>
              Linked(hdr[fl[k].addr := hdr[fl[k].addr].(size := fl[k].size - n)][fl[k].addr + fl[k].size - n := h],
                     Cut(fl, k, n))
  {
    NodeLink(hdr, fl, k);
    assert LinkAt(hdr, fl, k);
    var g := Cut(fl, k, n);
    if fl[k].size == n {
      var h' := hdr[Node(fl, k) := hdr[Node(fl, k)].(ptr := hdr[fl[k].addr].ptr)];
      forall j | 0 <= j < |g| ensures LinkAt(h', g, j) {
        assert LinkAt(hdr, fl, if j < k then j else j + 1);
      }
    } else {
      var h' := hdr[fl[k].addr := hdr[fl[k].addr].(size := fl[k].size - n)][fl[k].addr + fl[k].size - n := h];
      forall j | 0 <= j < |g| ensures LinkAt(h', g, j) {
        assert LinkAt(hdr, fl, j);
      }
    }
  }

  // ---- The heap ----

  /** For the proof: the free blocks, the position of freep in the circle, the blocks handed out with their sizes, the
      units that sbrk gave and their number. */
  datatype Tracked = Tracked(fl: seq<Blk>, at: nat, live: map<int, int>, granted: set<int>, total: int)

  /** Unit `u` belongs to a block handed out. */
  ghost predicate Lives(live: map<int, int>, u: int) {
    exists a :: a in live && InBlk(u, Blk(a, live[a]))
  }

  ghost predicate LiveOk(live: map<int, int>, hdr: map<int, Header>) {
    forall a :: a in live ==> a > BASE && live[a] >= 1 && a in hdr && hdr[a].size == live[a]
  }

  /** Blocks handed out do not overlap. */
  ghost predicate LiveApart(live: map<int, int>) {
    forall a, b :: a in live && b in live && a < b ==> a + live[a] <= b
  }

  /** Every unit that sbrk gave is free or handed out, and not both. */
  ghost predicate Parted(g: Tracked) {
    && (forall u :: u in g.granted <==> Has(g.fl, u) || Lives(g.live, u))
    && (forall u :: !(Has(g.fl, u) && Lives(g.live, u)))
  }

  ghost predicate Inv(hdr: map<int, Header>, freep: int, g: Tracked) {
    && Linked(hdr, g.fl) && Coalesced(g.fl) && g.at <= |g.fl| && freep == Node(g.fl, g.at)
    && LiveOk(g.live, hdr) && LiveApart(g.live) && Parted(g)
    && Total(g.fl) + Sum(g.live) == g.total
  }

  /** A live block is apart from the free ones. */
  lemma LiveFits(hdr: map<int, Header>, freep: int, g: Tracked, a: int)
    requires Inv(hdr, freep, g) && a in g.live
    ensures Fits(g.fl, Below(g.fl, a), Blk(a, g.live[a]))
  {
    var b := Blk(a, g.live[a]);
    forall u | InBlk(u, b) ensures !Has(g.fl, u) {
      assert Lives(g.live, u);
    }
    ApartFits(g.fl, b);
  }

  function Freed(g: Tracked, a: int, k: nat): Tracked
    requires a in g.live && k <= |g.fl|
  {
    var fl := Inserted(g.fl, k, Blk(a, g.live[a]));
    Tracked(fl, k, g.live - {a}, g.granted, g.total)
  }

  lemma LivesLess(live: map<int, int>, a: int, u: int)
    requires LiveApart(live) && a in live
    ensures Lives(live - {a}, u) <==> Lives(live, u) && !InBlk(u, Blk(a, live[a]))
  {
    if Lives(live, u) && !InBlk(u, Blk(a, live[a])) {
      var c :| c in live && InBlk(u, Blk(c, live[c]));
      assert c in live - {a};
    }
    if Lives(live - {a}, u) {
      var c :| c in live - {a} && InBlk(u, Blk(c, (live - {a})[c]));
      assert c in live && c != a;
    }
  }

  lemma FreedParted(g: Tracked, a: int, k: nat)
    requires Parted(g) && LiveApart(g.live) && Coalesced(g.fl) && a in g.live && Fits(g.fl, k, Blk(a, g.live[a]))
    ensures Parted(Freed(g, a, k))
  {
    var f, b := Freed(g, a, k), Blk(a, g.live[a]);
    forall u ensures (u in f.granted <==> Has(f.fl, u) || Lives(f.live, u)) && !(Has(f.fl, u) && Lives(f.live, u)) {
      InsertedHas(g.fl, k, b, u);
      LivesLess(g.live, a, u);
      assert InBlk(u, b) ==> Lives(g.live, u);
      assert u in g.granted <==> Has(g.fl, u) || Lives(g.live, u);
      assert !(Has(g.fl, u) && Lives(g.live, u));
    }
  }

  lemma InsertedNode(fl: seq<Blk>, k: nat, b: Blk)
    requires k <= |fl|
    ensures k <= |Inserted(fl, k, b)| && Node(Inserted(fl, k, b), k) == Node(fl, k)
  {
  }

  /** No block handed out begins where a free one, or `base`, does. */
  lemma LiveNotNode(g: Tracked, hdr: map<int, Header>, c: int, k: nat)
    requires Parted(g) && Coalesced(g.fl) && LiveOk(g.live, hdr) && c in g.live && k <= |g.fl|
    ensures c != Node(g.fl, k)
  {
    if k > 0 && c == g.fl[k - 1].addr {
      assert InBlk(c, g.fl[k - 1]) && InBlk(c, Blk(c, g.live[c]));
      assert Has(g.fl, c) && Lives(g.live, c);
    }
  }

  lemma FreedLive(hdr: map<int, Header>, g: Tracked, a: int, k: nat)
    requires Parted(g) && Linked(hdr, g.fl) && Coalesced(g.fl) && LiveOk(g.live, hdr) && a in g.live
    requires Fits(g.fl, k, Blk(a, g.live[a]))
    ensures Node(g.fl, k) in hdr && a in hdr && hdr[Node(g.fl, k)].ptr in hdr
    ensures LiveOk(g.live - {a}, WithLower(WithUpper(hdr, Node(g.fl, k), a), Node(g.fl, k), a))
  {
    FreedHeaders(hdr, g.fl, k, Blk(a, g.live[a]));
    hide WithLower, WithUpper, Linked;
    forall c | c in g.live && c != a ensures c != Node(g.fl, k) {
      LiveNotNode(g, hdr, c, k);
    }
  }

  lemma FreedInv(hdr: map<int, Header>, freep: int, g: Tracked, a: int)
    requires Inv(hdr, freep, g) && a in g.live
    ensures var k := Below(g.fl, a);
            && Node(g.fl, k) in hdr && a in hdr && hdr[Node(g.fl, k)].ptr in hdr
            && Inv(WithLower(WithUpper(hdr, Node(g.fl, k), a), Node(g.fl, k), a), Node(g.fl, k), Freed(g, a, k))
  {
    var k, b := Below(g.fl, a), Blk(a, g.live[a]);
    LiveFits(hdr, freep, g, a);
    FreedLive(hdr, g, a, k);
    hide Linked, Coalesced, Parted, WithLower, WithUpper, Inserted, Fits, Total, Sum;
    FreedLinks(hdr, g.fl, k, b);
    InsertedCoalesced(g.fl, k, b);
    InsertedNode(g.fl, k, b);
    FreedParted(g, a, k);
    InsertedTotal(g.fl, k, b);
    SumDrop(g.live, a);
  }

  // ---- Handing out ----

  /** `n` units cut off block `i`; freep is then the node before it. */
  function Served(g: Tracked, i: nat, n: int): Tracked
    requires i < |g.fl|
  {
    var t := TailOf(g.fl[i], n);
    Tracked(Cut(g.fl, i, n), i, g.live[t.addr := n], g.granted, g.total)
  }

  lemma LivesMore(live: map<int, int>, b: Blk, u: int)
    requires b.addr !in live
    ensures Lives(live[b.addr := b.size], u) <==> Lives(live, u) || InBlk(u, b)
  {
    var more := live[b.addr := b.size];
    if Lives(live, u) {
      var c :| c in live && InBlk(u, Blk(c, live[c]));
      assert c in more && InBlk(u, Blk(c, more[c]));
    }
    if InBlk(u, b) {
      assert b.addr in more && InBlk(u, Blk(b.addr, more[b.addr]));
    }
  }

  /** A block none of whose units is handed out. */
  lemma NewApart(live: map<int, int>, b: Blk)
    requires LiveApart(live) && b.size >= 1 && (forall a :: a in live ==> live[a] >= 1)
    requires forall u :: InBlk(u, b) ==> !Lives(live, u)
    ensures b.addr !in live && LiveApart(live[b.addr := b.size])
  {
    assert InBlk(b.addr, b);
    forall a | a in live ensures a + live[a] <= b.addr || b.addr + b.size <= a {
      assert InBlk(b.addr, Blk(a, live[a])) ==> Lives(live, b.addr);
      assert InBlk(a, Blk(a, live[a]));
      assert InBlk(a, b) ==> Lives(live, a);
    }
  }

  lemma ServedParted(g: Tracked, i: nat, n: int)
    requires Parted(g) && Coalesced(g.fl) && i < |g.fl| && 1 <= n <= g.fl[i].size
    requires TailOf(g.fl[i], n).addr !in g.live
    ensures Parted(Served(g, i, n))
  {
    var f, b := Served(g, i, n), TailOf(g.fl[i], n);
    forall u ensures (u in f.granted <==> Has(f.fl, u) || Lives(f.live, u)) && !(Has(f.fl, u) && Lives(f.live, u)) {
      CutHas(g.fl, i, n, u);
      LivesMore(g.live, b, u);
      assert u in g.granted <==> Has(g.fl, u) || Lives(g.live, u);
      assert !(Has(g.fl, u) && Lives(g.live, u));
    }
  }

  lemma ServedApart(g: Tracked, hdr: map<int, Header>, i: nat, n: int)
    requires Parted(g) && Coalesced(g.fl) && LiveOk(g.live, hdr) && LiveApart(g.live)
    requires i < |g.fl| && 1 <= n <= g.fl[i].size
    ensures TailOf(g.fl[i], n).addr !in g.live && LiveApart(g.live[TailOf(g.fl[i], n).addr := n])
  {
    var b := TailOf(g.fl[i], n);
    forall u | InBlk(u, b) ensures !Lives(g.live, u) {
      CutHas(g.fl, i, n, u);
      assert !(Has(g.fl, u) && Lives(g.live, u));
    }
    NewApart(g.live, b);
  }

  /** The headers after malloc has taken `n` units of the block at `p`, whose predecessor is `prevp`. */
  function Carved(hdr: map<int, Header>, prevp: int, p: int, n: int): map<int, Header>
    requires p in hdr && prevp in hdr
  {
    if hdr[p].size == n then hdr[prevp := hdr[prevp].(ptr := hdr[p].ptr)]
    else
      var h := hdr[p := hdr[p].(size := hdr[p].size - n)];
      var q := p + hdr[p].size - n;
      h[q := Header(if q in h then h[q].ptr else NIL, n)]
  }

  lemma CarvedLive(hdr: map<int, Header>, g: Tracked, i: nat, n: int)
    requires Parted(g) && Linked(hdr, g.fl) && Coalesced(g.fl) && LiveOk(g.live, hdr)
    requires i < |g.fl| && 1 <= n <= g.fl[i].size && TailOf(g.fl[i], n).addr !in g.live
    ensures Node(g.fl, i) in hdr && g.fl[i].addr in hdr
    ensures LiveOk(g.live[TailOf(g.fl[i], n).addr := n], Carved(hdr, Node(g.fl, i), g.fl[i].addr, n))
  {
    NodeLink(hdr, g.fl, i);
    forall c | c in g.live ensures c != Node(g.fl, i) && c != g.fl[i].addr {
      LiveNotNode(g, hdr, c, i);
      LiveNotNode(g, hdr, c, i + 1);
    }
  }

  lemma CarvedLinked(hdr: map<int, Header>, fl: seq<Blk>, i: nat, n: int)
    requires Linked(hdr, fl) && Coalesced(fl) && i < |fl| && 1 <= n <= fl[i].size
    ensures Node(fl, i) in hdr && fl[i].addr in hdr && hdr[fl[i].addr].size == fl[i].size
    ensures Linked(Carved(hdr, Node(fl, i), fl[i].addr, n), Cut(fl, i, n))
    ensures i <= |Cut(fl, i, n)| && Node(Cut(fl, i, n), i) == Node(fl, i)
  {
    NodeLink(hdr, fl, i);
    var q := fl[i].addr + fl[i].size - n;
    var h := hdr[fl[i].addr := hdr[fl[i].addr].(size := fl[i].size - n)];
    CutLinks(hdr, fl, i, n, Header(if q in h then h[q].ptr else NIL, n));
    hide Linked, Coalesced;
  }

  lemma ServedInv(hdr: map<int, Header>, freep: int, g: Tracked, i: nat, n: int)
    requires Inv(hdr, freep, g) && i < |g.fl| && 1 <= n <= g.fl[i].size
    ensures Node(g.fl, i) in hdr && g.fl[i].addr in hdr && hdr[g.fl[i].addr].size == g.fl[i].size
    ensures TailOf(g.fl[i], n).addr !in g.live
    ensures Inv(Carved(hdr, Node(g.fl, i), g.fl[i].addr, n), Node(g.fl, i), Served(g, i, n))
  {
    hide Linked, Coalesced, Parted, Carved, Cut, Total, Sum, LiveOk, LiveApart;
    ServedApart(g, hdr, i, n);
    CarvedLive(hdr, g, i, n);
    CarvedLinked(hdr, g.fl, i, n);
    CutCoalesced(g.fl, i, n);
    CutTotal(g.fl, i, n);
    ServedParted(g, i, n);
    SumAdd(g.live, TailOf(g.fl[i], n).addr, n);
  }

  // ---- Memory from sbrk ----

  /** The units from `a` on that sbrk gave. */
  function Run(a: int, n: int): set<int> {
    set u | a <= u < a + n && InBlk(u, Blk(a, n))
  }

  /** The new block counts as handed out until it is freed into the list. */
  function Granted(g: Tracked, a: int, n: int): Tracked {
    g.(live := g.live[a := n], granted := g.granted + Run(a, n), total := g.total + n)
  }

  lemma GrantedInv(hdr: map<int, Header>, freep: int, g: Tracked, a: int, n: int, h: Header)
    requires Inv(hdr, freep, g) && a > BASE && n >= 1 && h.size == n
    requires forall u :: InBlk(u, Blk(a, n)) ==> u !in g.granted
    ensures a !in g.live && Inv(hdr[a := h], freep, Granted(g, a, n))
  {
    var b, f := Blk(a, n), Granted(g, a, n);
    NewApart(g.live, b);
    forall u ensures (u in f.granted <==> Has(f.fl, u) || Lives(f.live, u)) && !(Has(f.fl, u) && Lives(f.live, u)) {
      LivesMore(g.live, b, u);
      assert u in g.granted <==> Has(g.fl, u) || Lives(g.live, u);
    }
    SumAdd(g.live, a, n);
    hide Total, Sum;
    assert InBlk(a, b) && !Has(g.fl, a);
    var hdr' := hdr[a := h];
    forall i | 0 <= i < |g.fl| ensures LinkAt(hdr', g.fl, i) {
      assert LinkAt(hdr, g.fl, i);
      assert InBlk(g.fl[i].addr, g.fl[i]) && Has(g.fl, g.fl[i].addr);
    }
  }

  /** Some free block is large enough. */
  ghost predicate Room(fl: seq<Blk>, n: int) {
    exists i :: 0 <= i < |fl| && fl[i].size >= n
  }

  /** The list has room once a block of `b.size` units has been freed into it. */
  lemma InsertedRoom(fl: seq<Blk>, k: nat, b: Blk)
    requires Coalesced(fl) && Fits(fl, k, b)
    ensures Room(Inserted(fl, k, b), b.size)
  {
    var g := Inserted(fl, k, b);
    assert g[if MeetsPrev(fl, k, b) then k - 1 else k].size >= b.size;
  }

  // ---- Sizes ----

  /** The units that malloc takes for a request, with the header. */
  function Units(nbytes: nat): int {
    (nbytes + SIZEOF_HEADER - 1) / SIZEOF_HEADER + 1
  }

  lemma UnitsSuffice(nbytes: nat)
    ensures Units(nbytes) >= 1 && SIZEOF_HEADER * (Units(nbytes) - 1) >= nbytes
    ensures SIZEOF_HEADER * (Units(nbytes) - 1) < nbytes + SIZEOF_HEADER
  {
  }

  /** The int that sbrk receives for a byte count. */
  function AsInt(bytes: nat): int {
    var w := bytes % INT_WRAP;
    if w < INT_WRAP / 2 then w else w - INT_WRAP
  }

  function CoreUnits(nu: nat): nat {
    if nu < MIN_UNITS then MIN_UNITS else nu
  }

  /** morecore asks for what it needs exactly below 2^27 units: above, the byte count is cut to an int. */
  lemma AskedInFull(nu: nat)
    ensures AsInt(CoreUnits(nu) * SIZEOF_HEADER) == CoreUnits(nu) * SIZEOF_HEADER <==> nu < UNITS_LIMIT
  {
  }

  // ---- What sbrk does with a byte count that was cut ----

  // The addresses below the trap frame are the process's own.
  const TRAPFRAME_ADDRESS := 0x40_0000_0000 - 2 * 4096
  const WORD := 0x1_0000_0000_0000_0000

  /** growproc: the size of a process of `sz` bytes after sbrk(n), or -1. Only a growth needs memory, and can fail. A
      size below 0 wraps around to a large one, which uvmdealloc takes for one that need not shrink. */
  function Growproc(sz: nat, n: int, enough: bool): (r: int) {
    if n > 0 then
      if sz + n > TRAPFRAME_ADDRESS || !enough then -1 else sz + n
    else
      var to := (sz + n) % WORD;
      if to >= sz then sz else to
  }

  /** A negative count gives memory back exactly if the process has that much: otherwise sbrk does nothing, and
      succeeds. */
  lemma ShrinksIff(sz: nat, n: int, enough: bool)
    requires sz <= TRAPFRAME_ADDRESS && -INT_WRAP / 2 <= n < 0
    ensures Growproc(sz, n, enough) == if sz + n >= 0 then sz + n else sz
  {
    WrapsAround(sz + n);
  }

  lemma WrapsAround(x: int)
    requires -INT_WRAP <= x < WORD
    ensures x % WORD == if x >= 0 then x else x + WORD
  {
  }

  lemma {:induction false} CutOnce(nu: nat)
    requires UNITS_LIMIT <= nu <= 2 * UNITS_LIMIT + 1
    ensures AsInt(CoreUnits(nu) * SIZEOF_HEADER) == nu * SIZEOF_HEADER - INT_WRAP
  {
    var bytes := nu * SIZEOF_HEADER;
    assert bytes % INT_WRAP == if bytes < INT_WRAP then bytes else bytes - INT_WRAP;
  }

  /** malloc never asks for more units than that. */
  lemma MostUnits(nbytes: nat)
    requires nbytes < INT_WRAP
    ensures Units(nbytes) <= 2 * UNITS_LIMIT + 1
  {
  }

  /** From 2^27 units on, whatever sbrk does, it does not give morecore the block: the process ends at least 2^31 bytes
      short of the block's end. It has shrunk exactly if it had as many bytes as the cut count takes away, and the
      header that morecore writes at the old end lies past the new one, unless exactly that header was asked for. */
  lemma AskedTooLittle(sz: nat, nbytes: nat, enough: bool)
    requires nbytes < INT_WRAP && Units(nbytes) >= UNITS_LIMIT && sz <= TRAPFRAME_ADDRESS
    ensures var nu := Units(nbytes);
            var n := AsInt(CoreUnits(nu) * SIZEOF_HEADER);
            var to := Growproc(sz, n, enough);
            && (to == -1 ==> nu == 2 * UNITS_LIMIT + 1) && to + INT_WRAP / 2 <= sz + nu * SIZEOF_HEADER
            && (to < sz && to != -1 <==> nu < 2 * UNITS_LIMIT && sz + nu * SIZEOF_HEADER >= INT_WRAP)
            && (to >= sz + SIZEOF_HEADER <==> nu == 2 * UNITS_LIMIT + 1 && to != -1)
  {
    MostUnits(nbytes);
    var nu := Units(nbytes);
    CutOnce(nu);
    if nu * SIZEOF_HEADER < INT_WRAP {
      ShrinksIff(sz, nu * SIZEOF_HEADER - INT_WRAP, enough);
    }
  }

  /** malloc(2^31) asks sbrk for a negative number of bytes: of a process of less than 2^31 - 16 bytes nothing
      changes. */
  lemma AskedNegative(sz: nat, enough: bool)
    requires sz <= TRAPFRAME_ADDRESS
    ensures var n := AsInt(CoreUnits(Units(0x8000_0000)) * SIZEOF_HEADER);
            && Units(0x8000_0000) == UNITS_LIMIT + 1 && n == 0x10 - 0x8000_0000
            && Growproc(sz, n, enough) == if sz < 0x8000_0000 - 0x10 then sz else sz + n
  {
    ShrinksIff(sz, 0x10 - 0x8000_0000, enough);
  }

  // ---- Walking the circle ----

  /** free stops exactly at the node after which the block belongs. */
  lemma StopsAtPlace(fl: seq<Blk>, b: Blk, k: nat, i: nat)
    requires Coalesced(fl) && Fits(fl, k, b) && i <= |fl|
    ensures var p, next := Node(fl, i), Addr(fl, i);
            (b.addr > p && b.addr < next) || (p >= next && (b.addr > p || b.addr < next)) <==> i == k
  {
    assert i > 0 ==> (fl[i - 1].addr < b.addr <==> i - 1 < k);
    assert i < |fl| ==> (b.addr < fl[i].addr <==> k <= i);
  }

  /** The position `t` steps further round the circle. */
  function Ahead(fl: seq<Blk>, at: nat, t: nat): (k: nat)
    requires at <= |fl| && t <= |fl| + 1
    ensures k <= |fl|
  {
    if at + t <= |fl| then at + t else at + t - |fl| - 1
  }

  function SizeAt(fl: seq<Blk>, k: nat): int
    requires k <= |fl|
  {
    if k == 0 then 0 else fl[k - 1].size
  }

  /** The `t` nodes after freep are too small. */
  ghost predicate Passed(fl: seq<Blk>, at: nat, t: nat, n: int) {
    at <= |fl| && t <= |fl| + 1 && forall d :: 1 <= d <= t ==> SizeAt(fl, Ahead(fl, at, d)) < n
  }

  /** Once round without success: there is no room. */
  lemma OnceRound(fl: seq<Blk>, at: nat, n: int)
    requires Passed(fl, at, |fl| + 1, n)
    ensures !Room(fl, n)
  {
    forall i | 0 <= i < |fl| ensures fl[i].size < n {
      var d := if i + 1 > at then i + 1 - at else i + 1 - at + |fl| + 1;
      assert Ahead(fl, at, d) == i + 1;
    }
  }

  lemma InvFreep(hdr: map<int, Header>, freep: int, g: Tracked)
    requires Inv(hdr, freep, g)
    ensures freep != NIL
  {
  }

  /** The header writes of free. */
  method Relink(hdr: map<int, Header>, p: int, bp: int) returns (h: map<int, Header>)
    requires p in hdr && bp in hdr && hdr[p].ptr in hdr && p != bp && hdr[p].ptr != bp
    ensures h == WithLower(WithUpper(hdr, p, bp), p, bp)
  {
    h := hdr;
    if bp + h[bp].size == h[p].ptr {
      h := h[bp := h[bp].(size := h[bp].size + h[h[p].ptr].size)];
      h := h[bp := h[bp].(ptr := h[h[p].ptr].ptr)];
    } else {
      h := h[bp := h[bp].(ptr := h[p].ptr)];
    }
    if p + h[p].size == bp {
      h := h[p := h[p].(size := h[p].size + h[bp].size)];
      h := h[p := h[p].(ptr := h[bp].ptr)];
    } else {
      h := h[p := h[p].(ptr := bp)];
    }
  }

  /** Before the first malloc nothing is handed out. */
  lemma InvOrNone(hdr: map<int, Header>, freep: int, g: Tracked, a: int)
    requires (if freep == NIL then g == Tracked([], 0, map[], {}, 0) else Inv(hdr, freep, g)) && a in g.live
    ensures Inv(hdr, freep, g)
  {
  }

  lemma PlaceLink(hdr: map<int, Header>, freep: int, g: Tracked, k: nat)
    requires Inv(hdr, freep, g) && k <= |g.fl|
    ensures Node(g.fl, k) in hdr && hdr[Node(g.fl, k)].ptr == Addr(g.fl, k)
    ensures hdr[Node(g.fl, k)].size == SizeAt(g.fl, k)
  {
    NodeLink(hdr, g.fl, k);
  }

  lemma FreedUnits(hdr: map<int, Header>, freep: int, g: Tracked, a: int)
    requires Inv(hdr, freep, g) && a in g.live
    ensures forall u :: Has(Freed(g, a, Below(g.fl, a)).fl, u) <==> Has(g.fl, u) || InBlk(u, Blk(a, g.live[a]))
    ensures a != Node(g.fl, Below(g.fl, a)) && a != Addr(g.fl, Below(g.fl, a))
  {
    LiveFits(hdr, freep, g, a);
    var k, b := Below(g.fl, a), Blk(a, g.live[a]);
    forall u ensures Has(Inserted(g.fl, k, b), u) <==> Has(g.fl, u) || InBlk(u, b) {
      InsertedHas(g.fl, k, b, u);
    }
  }

  lemma GrantFits(hdr: map<int, Header>, freep: int, g: Tracked, a: int, nu: nat)
    requires Inv(hdr, freep, g) && a in g.live && g.live[a] == CoreUnits(nu)
    ensures Room(Inserted(g.fl, Below(g.fl, a), Blk(a, CoreUnits(nu))), nu)
  {
    LiveFits(hdr, freep, g, a);
    InsertedRoom(g.fl, Below(g.fl, a), Blk(a, CoreUnits(nu)));
  }

  /** The same blocks are handed out, and the free units are as before, plus those of the grant if there was one. */
  ghost predicate Grew(o: Tracked, g: Tracked, grown: bool, grant: Blk) {
    && g.live == o.live
    && (!grown ==> g.fl == o.fl && g.granted == o.granted && g.total == o.total)
    && (grown ==> g.granted == o.granted + Run(grant.addr, grant.size) && g.total == o.total + grant.size
                  && forall u :: Has(g.fl, u) <==> Has(o.fl, u) || InBlk(u, grant))
  }

  /** Block `b` has been handed out. */
  ghost predicate Took(o: Tracked, g: Tracked, grown: bool, grant: Blk, b: Blk) {
    && b.addr !in o.live && g.live == o.live[b.addr := b.size]
    && g.granted == (if grown then o.granted + Run(grant.addr, grant.size) else o.granted)
    && g.total == (if grown then o.total + grant.size else o.total)
    && forall u :: Has(g.fl, u) <==> (Has(o.fl, u) || (grown && InBlk(u, grant))) && !InBlk(u, b)
  }

  lemma GrewNone(g: Tracked, grant: Blk)
    ensures Grew(g, g, false, grant)
  {
  }

  lemma GrewOnce(o: Tracked, g: Tracked, grant: Blk)
    requires g.live == o.live && g.granted == o.granted + Run(grant.addr, grant.size) && g.total == o.total + grant.size
    requires forall u :: Has(g.fl, u) <==> Has(o.fl, u) || InBlk(u, grant)
    ensures Grew(o, g, true, grant)
  {
  }

  lemma HasRoom(fl: seq<Blk>, i: nat, n: int)
    requires i < |fl| && fl[i].size >= n
    ensures Room(fl, n)
  {
  }

  lemma InvBlock(hdr: map<int, Header>, freep: int, g: Tracked, i: nat)
    requires Inv(hdr, freep, g) && i < |g.fl|
    ensures Coalesced(g.fl) && g.fl[i].addr > BASE
  {
  }

  /** The heap once sbrk has given a block. */
  function Topped(g: Tracked, a: int, n: int): Tracked {
    Freed(Granted(g, a, n), a, Below(g.fl, a))
  }

  /** The heap with room: as it is, or with a block from sbrk. */
  ghost function Ample(g: Tracked, n: nat, answer: int): Tracked {
    if Room(g.fl, n) then g else Topped(g, answer, CoreUnits(n))
  }

  /** The block is the first that is large enough, going round from freep. */
  ghost predicate FirstFit(g: Tracked, i: nat, n: int) {
    && i < |g.fl| && g.fl[i].size >= n && g.at <= |g.fl|
    && exists t: nat :: t <= |g.fl| && i == Ahead(g.fl, g.at, t) && Passed(g.fl, g.at, t, n)
  }

  lemma FitsFirst(g: Tracked, t: nat, n: int)
    requires g.at <= |g.fl| && t <= |g.fl| && Passed(g.fl, g.at, t, n)
    requires var i := Ahead(g.fl, g.at, t); i < |g.fl| && g.fl[i].size >= n
    ensures FirstFit(g, Ahead(g.fl, g.at, t), n)
  {
  }

  /** There is only one such block. */
  lemma FirstFitOnce(g: Tracked, i: nat, j: nat, n: int)
    requires FirstFit(g, i, n) && FirstFit(g, j, n)
    ensures i == j
  {
    var t: nat :| t <= |g.fl| && i == Ahead(g.fl, g.at, t) && Passed(g.fl, g.at, t, n);
    var u: nat :| u <= |g.fl| && j == Ahead(g.fl, g.at, u) && Passed(g.fl, g.at, u, n);
    assert SizeAt(g.fl, Ahead(g.fl, g.at, t + 1)) >= n && SizeAt(g.fl, Ahead(g.fl, g.at, u + 1)) >= n;
    assert t == u;
  }

  /** malloc takes the end of that block, and the next search begins there. */
  ghost predicate NextFit(g: Tracked, g': Tracked, n: int, a: int) {
    exists i: nat :: FirstFit(g, i, n) && g' == Served(g, i, n) && a == TailOf(g.fl[i], n).addr
  }

  lemma ServedTook(o: Tracked, g: Tracked, grown: bool, grant: Blk, i: nat, n: int)
    requires Grew(o, g, grown, grant) && Coalesced(g.fl) && i < |g.fl| && 1 <= n <= g.fl[i].size
    requires TailOf(g.fl[i], n).addr !in g.live
    ensures Took(o, Served(g, i, n), grown, grant, TailOf(g.fl[i], n))
  {
    forall u ensures Has(Cut(g.fl, i, n), u) <==> Has(g.fl, u) && !InBlk(u, TailOf(g.fl[i], n)) {
      CutHas(g.fl, i, n, u);
    }
  }

  /** Different positions, different nodes. */
  lemma NodesDiffer(fl: seq<Blk>, i: nat, j: nat)
    requires Coalesced(fl) && i <= |fl| && j <= |fl|
    ensures Node(fl, i) == Node(fl, j) <==> i == j
  {
  }

  /** One node further. */
  lemma NextAhead(fl: seq<Blk>, at: nat, t: nat)
    requires Coalesced(fl) && at <= |fl| && t <= |fl|
    ensures Addr(fl, Ahead(fl, at, t)) == Node(fl, Ahead(fl, at, t + 1))
    ensures Ahead(fl, at, t + 1) > 0 ==> Ahead(fl, at, t + 1) == Ahead(fl, at, t) + 1
    ensures Node(fl, Ahead(fl, at, t + 1)) == Node(fl, at) <==> t == |fl|
  {
    NodesDiffer(fl, Ahead(fl, at, t + 1), at);
  }

  /** What malloc sees at the node `t + 1` steps after freep. */
  lemma Look(hdr: map<int, Header>, freep: int, g: Tracked, t: nat, n: int)
    requires Inv(hdr, freep, g) && t <= |g.fl| && n >= 1
    ensures g.at <= |g.fl|
    ensures var i, j := Ahead(g.fl, g.at, t), Ahead(g.fl, g.at, t + 1);
            && Node(g.fl, j) in hdr && hdr[Node(g.fl, j)] == Header(Addr(g.fl, j), SizeAt(g.fl, j))
            && (Node(g.fl, j) == freep <==> t == |g.fl|)
            && (SizeAt(g.fl, j) >= n ==> i < |g.fl| && g.fl[i].addr == Node(g.fl, j) && g.fl[i].size >= n)
            && (t < |g.fl| ==> Addr(g.fl, j) == Node(g.fl, Ahead(g.fl, g.at, t + 2)))
    ensures Passed(g.fl, g.at, t, n) && SizeAt(g.fl, Ahead(g.fl, g.at, t + 1)) < n ==> Passed(g.fl, g.at, t + 1, n)
  {
    hide Linked, Parted, LiveOk, LiveApart, Total, Sum, Coalesced;
    NextAhead(g.fl, g.at, t);
    PlaceLink(hdr, freep, g, Ahead(g.fl, g.at, t + 1));
    if t < |g.fl| {
      NextAhead(g.fl, g.at, t + 1);
    }
  }

  /** Where malloc's search begins. */
  lemma LookFirst(hdr: map<int, Header>, freep: int, g: Tracked, n: int)
    requires Inv(hdr, freep, g)
    ensures g.at <= |g.fl| && Passed(g.fl, g.at, 0, n) && freep == Node(g.fl, Ahead(g.fl, g.at, 0))
    ensures freep in hdr && hdr[freep].ptr == Node(g.fl, Ahead(g.fl, g.at, 1))
  {
    NextAhead(g.fl, g.at, 0);
    PlaceLink(hdr, freep, g, g.at);
  }

  class Heap {
    var hdr: map<int, Header>
    var freep: int
    ghost var g: Tracked

    ghost predicate Valid()
      reads this
    {
      if freep == NIL then g == Tracked([], 0, map[], {}, 0) else Inv(hdr, freep, g)
    }

    constructor ()
      ensures Valid() && freep == NIL
    {
      hdr, freep, g := map[BASE := Header(NIL, 0)], NIL, Tracked([], 0, map[], {}, 0);
    }

    /** The search loop of free: the last node below the block. */
    method FindPlace(bp: int) returns (p: int)
      requires Inv(hdr, freep, g) && bp in g.live
      ensures p == Node(g.fl, Below(g.fl, bp))
    {
      hide Linked, Coalesced, Parted, LiveOk, LiveApart, Fits, Total, Sum;
      ghost var i: nat := g.at;
      ghost var k, b := Below(g.fl, bp), Blk(bp, g.live[bp]);
      LiveFits(hdr, freep, g, bp);
      p := freep;
      NodeLink(hdr, g.fl, i);
      StopsAtPlace(g.fl, b, k, i);
      while !(bp > p && bp < hdr[p].ptr)
        invariant i <= |g.fl| && p == Node(g.fl, i) && p in hdr && hdr[p].ptr == Addr(g.fl, i)
        invariant (bp > p && bp < hdr[p].ptr) || (p >= hdr[p].ptr && (bp > p || bp < hdr[p].ptr)) <==> i == k
        decreases if i <= k then k - i else k + |g.fl| + 1 - i
      {
        if p >= hdr[p].ptr && (bp > p || bp < hdr[p].ptr) {
          break;
        }
        p := hdr[p].ptr;
        i := if i == |g.fl| then 0 else i + 1;
        NodeLink(hdr, g.fl, i);
        StopsAtPlace(g.fl, b, k, i);
      }
    }

    /** Gives a block back: exactly its units become free, and the list is coalesced again. */
    method Free(ap: int)
      requires Valid() && ap - 1 in g.live
      modifies this
      ensures Valid() && freep != NIL && g.live == old(g).live - {ap - 1} && g.granted == old(g).granted
              && g.total == old(g).total
      ensures forall u :: Has(g.fl, u) <==> Has(old(g).fl, u) || InBlk(u, Blk(ap - 1, old(g).live[ap - 1]))
      ensures g == Freed(old(g), ap - 1, Below(old(g).fl, ap - 1))
      ensures Below(old(g).fl, ap - 1) <= |old(g).fl|
              && g.fl == Inserted(old(g).fl, Below(old(g).fl, ap - 1), Blk(ap - 1, old(g).live[ap - 1]))
    {
      var bp := ap - 1;
      InvOrNone(hdr, freep, g, bp);
      hide Inv, Inserted, Has, WithLower, WithUpper;
      FreedInv(hdr, freep, g, bp);
      FreedUnits(hdr, freep, g, bp);
      PlaceLink(hdr, freep, g, Below(g.fl, bp));
      ghost var k := Below(g.fl, bp);
      var p := FindPlace(bp);
      hdr := Relink(hdr, p, bp);
      freep := p;
      g := Freed(g, bp, k);
      InvFreep(hdr, freep, g);
    }

    /** morecore, given sbrk's answer: the new units join the free list, which then has room. */
    method MoreCore(nu: nat, answer: int) returns (p: int)
      requires Inv(hdr, freep, g) && 1 <= nu < UNITS_LIMIT
      requires answer != NIL ==> answer > BASE && forall u :: InBlk(u, Blk(answer, CoreUnits(nu))) ==> u !in g.granted
      modifies this
      ensures Inv(hdr, freep, g) && g.live == old(g).live
      ensures answer == NIL ==> p == NIL && g == old(g) && hdr == old(hdr) && freep == old(freep)
      ensures answer != NIL ==>
                && p == freep != NIL && Room(g.fl, nu) && g.granted == old(g).granted + Run(answer, CoreUnits(nu))
                && g.total == old(g).total + CoreUnits(nu) && g == Topped(old(g), answer, CoreUnits(nu))
                && forall u :: Has(g.fl, u) <==> Has(old(g).fl, u) || InBlk(u, Blk(answer, CoreUnits(nu)))
    {
      hide Has, Inserted, Inv, Room, Run;
      var units := CoreUnits(nu);
      if answer == NIL {
        return NIL;
      }
      GrantedInv(hdr, freep, g, answer, units, Header(if answer in hdr then hdr[answer].ptr else NIL, units));
      hdr := hdr[answer := Header(if answer in hdr then hdr[answer].ptr else NIL, units)];
      g := Granted(g, answer, units);
      InvFreep(hdr, freep, g);
      GrantFits(hdr, freep, g, answer, nu);
      Free(answer + 1);
      p := freep;
      assert g.live == old(g).live;
    }

    /** The first call makes `base` a list of one. */
    method Prepare()
      requires Valid() && freep == NIL
      modifies this
      ensures Inv(hdr, freep, g) && g == old(g)
    {
      hdr := hdr[BASE := Header(BASE, 0)];
      freep := BASE;
      assert Sum(g.live) == 0;
    }

    /** Takes `n` units off the end of the block at `p`, or all of it. */
    method Carve(prevp: int, p: int, n: int, ghost i: nat, ghost o: Tracked, ghost grown: bool, ghost grant: Blk)
      returns (r: int)
      requires Inv(hdr, freep, g) && i < |g.fl| && prevp == Node(g.fl, i) && p == g.fl[i].addr && 1 <= n <= g.fl[i].size
      requires Grew(o, g, grown, grant)
      modifies this
      ensures Inv(hdr, freep, g) && r > BASE && Took(o, g, grown, grant, Blk(r - 1, n))
      ensures g == Served(old(g), i, n) && r == TailOf(old(g).fl[i], n).addr + 1
    {
      hide Inv, Took, Grew, Cut;
      ServedInv(hdr, freep, g, i, n);
      InvBlock(hdr, freep, g, i);
      ServedTook(o, g, grown, grant, i, n);
      var q := p;
      if hdr[p].size == n {
        hdr := hdr[prevp := hdr[prevp].(ptr := hdr[p].ptr)];
      } else {
        hdr := hdr[q := hdr[q].(size := hdr[q].size - n)];
        q := q + hdr[q].size;
        hdr := hdr[q := Header(if q in hdr then hdr[q].ptr else NIL, n)];
      }
      freep := prevp;
      g := Served(g, i, n);
      r := q + 1;
    }

    /** The loop of malloc. */
    method Search(start: int, n: nat, answer: int, ghost grant: Blk) returns (r: int)
      requires Inv(hdr, freep, g) && start == freep && n >= 1 && grant == Blk(answer, CoreUnits(n))
      requires answer != NIL ==> answer > BASE && forall u :: InBlk(u, grant) ==> u !in g.granted
      modifies this
      ensures Inv(hdr, freep, g)
      ensures r == WILD <==> !Room(old(g).fl, n) && n >= UNITS_LIMIT
      ensures r == NIL <==> !Room(old(g).fl, n) && n < UNITS_LIMIT && answer == NIL
      ensures r == WILD || r == NIL ==> Grew(old(g), g, false, grant)
      ensures r != WILD && r != NIL ==> r > BASE && Took(old(g), g, !Room(old(g).fl, n), grant, Blk(r - 1, n))
      ensures r != WILD && r != NIL ==> NextFit(Ample(old(g), n, answer), g, n, r - 1)
    {
      hide Inv, Took, Grew, Passed, Room, Ahead, Has;
      ghost var o := g;
      GrewNone(g, grant);
      LookFirst(hdr, freep, g, n);
      var prevp, p := start, hdr[start].ptr;
      ghost var t: nat, grown := 0, false;
      while true
        invariant Inv(hdr, freep, g) && Grew(o, g, grown, grant)
        invariant g.at <= |g.fl| && t <= |g.fl| && Passed(g.fl, g.at, t, n)
        invariant prevp == Node(g.fl, Ahead(g.fl, g.at, t)) && p == Node(g.fl, Ahead(g.fl, g.at, t + 1))
        invariant if grown then Room(g.fl, n) && !Room(o.fl, n) && answer != NIL && n < UNITS_LIMIT
                                && g == Topped(o, answer, CoreUnits(n))
                  else g == o
        decreases !grown, |g.fl| + 1 - t
      {
        Look(hdr, freep, g, t, n);
        if hdr[p].size >= n {
          HasRoom(g.fl, Ahead(g.fl, g.at, t), n);
          FitsFirst(g, t, n);
          r := Carve(prevp, p, n, Ahead(g.fl, g.at, t), o, grown, grant);
          return;
        }
        if p == freep {
          OnceRound(g.fl, g.at, n);
          if n >= UNITS_LIMIT {
            return WILD;
          }
          p := MoreCore(n, answer);
          if p == NIL {
            InvFreep(hdr, freep, g);
            return NIL;
          }
          GrewOnce(o, g, grant);
          grown, t := true, 0;
          LookFirst(hdr, freep, g, n);
        } else {
          t := t + 1;
        }
        prevp := p;
        p := hdr[p].ptr;
      }
    }

    /** The first free block with room, going round from freep, gives its end; without one, sbrk is asked once. `answer`
        is what sbrk would say. The result is null exactly if there is no room and sbrk fails; otherwise it is large
        enough and was free. Requests from 2^27 units on that need sbrk run wild: see AskedInFull. */
    method Malloc(nbytes: nat, answer: int) returns (r: int, wild: bool)
      requires Valid() && nbytes < INT_WRAP
      requires answer != NIL ==> answer > BASE
                                 && forall u :: InBlk(u, Blk(answer, CoreUnits(Units(nbytes)))) ==> u !in g.granted
      modifies this
      ensures Valid()
      ensures wild <==> !Room(old(g).fl, Units(nbytes)) && Units(nbytes) >= UNITS_LIMIT
      ensures !wild ==> (r == NIL <==> !Room(old(g).fl, Units(nbytes)) && answer == NIL)
      ensures wild || r == NIL ==> Grew(old(g), g, false, Blk(answer, CoreUnits(Units(nbytes))))
      ensures !wild && r != NIL ==>
                && SIZEOF_HEADER * (Units(nbytes) - 1) >= nbytes && r > BASE
                && Took(old(g), g, !Room(old(g).fl, Units(nbytes)), Blk(answer, CoreUnits(Units(nbytes))),
                        Blk(r - 1, Units(nbytes)))
                && NextFit(Ample(old(g), Units(nbytes), answer), g, Units(nbytes), r - 1)
    {
      var n := Units(nbytes);
      UnitsSuffice(nbytes);
      ghost var o, grant := g, Blk(answer, CoreUnits(n));
      var prevp := freep;
      if prevp == NIL {
        Prepare();
        prevp := freep;
      }
      r := Search(prevp, n, answer, grant);
      wild := r == WILD;
    }
  }
}
