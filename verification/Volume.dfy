/** The blocks, bitmap and inodes of kernel/fs.c, and who owns which block. */
module Volume {
  import opened Common

  const BSIZE := 1024
  const NDIRECT := 12
  const NINDIRECT := 256
  const MAXFILE := NDIRECT + NINDIRECT
  const BPB := 8192
  const IPB := 16
  const UINT_LIMIT := 0x1_0000_0000

  ghost predicate AllBytes(s: Bytes) {
    forall i :: 0 <= i < |s| ==> 0 <= s[i] < 256
  }

  ghost predicate IsBlock(c: Bytes) {
    |c| == BSIZE && AllBytes(c)
  }

  function Zeros(): (z: Bytes)
    ensures IsBlock(z)
  {
    seq(BSIZE, _ => 0)
  }

  // ---- Indirect blocks: little-endian 32-bit entries ----

  function Entry(c: Bytes, j: nat): int
    requires |c| == BSIZE && j < NINDIRECT
  {
    c[4 * j] + 256 * c[4 * j + 1] + 65536 * c[4 * j + 2] + 16777216 * c[4 * j + 3]
  }

  function SetEntry(c: Bytes, j: nat, a: nat): (r: Bytes)
    requires |c| == BSIZE && j < NINDIRECT && a < UINT_LIMIT
    ensures |r| == BSIZE
  {
    c[4 * j := a % 256][4 * j + 1 := a / 256 % 256][4 * j + 2 := a / 65536 % 256][4 * j + 3 := a / 16777216]
  }

  lemma EntryOfSet(c: Bytes, j: nat, a: nat, k: nat)
    requires IsBlock(c) && j < NINDIRECT && a < UINT_LIMIT && k < NINDIRECT
    ensures IsBlock(SetEntry(c, j, a))
    ensures Entry(SetEntry(c, j, a), k) == if k == j then a else Entry(c, k)
  {
    assert a == a % 256 + 256 * (a / 256);
    assert a / 256 == a / 256 % 256 + 256 * (a / 65536);
    assert a / 65536 == a / 65536 % 256 + 256 * (a / 16777216);
  }

  lemma EntryOfZeros(j: nat)
    requires j < NINDIRECT
    ensures Entry(Zeros(), j) == 0
  {
  }

  // ---- The volume ----

  /** Where things are: the superblock's numbers, and the first block that is not metadata. */
  datatype Geometry = Geometry(size: nat, inodeStart: nat, bmapStart: nat, dataStart: nat)

  /** The bitmap, one bit a block, ends before the data blocks begin. */
  ghost predicate GoodGeometry(g: Geometry) {
    0 < g.dataStart <= g.size < UINT_LIMIT && g.bmapStart + (g.size - 1) / BPB < g.dataStart
  }

  datatype Inode = Inode(addrs: seq<int>, size: int)

  datatype Vol = Vol(bitmap: seq<bool>, blocks: seq<Bytes>, inodes: seq<Inode>)

  ghost predicate Shaped(g: Geometry, v: Vol) {
    && |v.bitmap| == g.size == |v.blocks|
    && (forall b :: 0 <= b < g.size ==> IsBlock(v.blocks[b]))
    && forall x :: 0 <= x < |v.inodes| ==> |v.inodes[x].addrs| == NDIRECT + 1
  }

  /** A place that can hold a block number. */
  datatype Slot = Direct(x: nat, i: nat) | IndPtr(x: nat) | Ind(x: nat, j: nat)

  predicate IsSlot(s: Slot, inodes: nat) {
    && s.x < inodes
    && match s
       case Direct(_, i) => i < NDIRECT
       case IndPtr(_) => true
       case Ind(_, j) => j < NINDIRECT
  }

  /** The block number in a slot, 0 if there is none. */
  ghost function Addr(g: Geometry, v: Vol, s: Slot): int
    requires Shaped(g, v) && IsSlot(s, |v.inodes|)
  {
    match s
    case Direct(x, i) => v.inodes[x].addrs[i]
    case IndPtr(x) => v.inodes[x].addrs[NDIRECT]
    case Ind(x, j) =>
      var p := v.inodes[x].addrs[NDIRECT];
      if 0 < p < g.size then Entry(v.blocks[p], j) else 0
  }

  /** Every used data block is in exactly one slot, the one `owner` names. Blocks in `loose` are marked
      but not in a slot yet; slots in `dead` still show a block that is free again. */
  ghost predicate Owned(g: Geometry, v: Vol, owner: map<int, Slot>, loose: set<int>, dead: set<Slot>)
    requires Shaped(g, v)
  {
    && (forall b :: b in owner ==> g.dataStart <= b < g.size && b !in loose && OwnedBy(g, v, b, owner[b], dead))
    && (forall s :: IsSlot(s, |v.inodes|) && s !in dead && Addr(g, v, s) != 0 ==>
          Addr(g, v, s) in owner && owner[Addr(g, v, s)] == s)
    && (forall b :: b in loose ==> g.dataStart <= b < g.size)
    && (forall b :: 0 <= b < g.size ==> (v.bitmap[b] <==> b < g.dataStart || b in owner || b in loose))
  }

  ghost predicate OwnedBy(g: Geometry, v: Vol, b: int, s: Slot, dead: set<Slot>)
    requires Shaped(g, v)
  {
    IsSlot(s, |v.inodes|) && s !in dead && Addr(g, v, s) == b
  }

  /** No block is in two slots. */
  lemma OneOwner(g: Geometry, v: Vol, owner: map<int, Slot>, s: Slot, t: Slot)
    requires Shaped(g, v) && Owned(g, v, owner, {}, {}) && IsSlot(s, |v.inodes|) && IsSlot(t, |v.inodes|)
    requires Addr(g, v, s) == Addr(g, v, t) != 0
    ensures s == t
  {
  }

  /** A block's bit is set exactly if a slot holds it, or it is metadata. */
  lemma BitIffOwned(g: Geometry, v: Vol, owner: map<int, Slot>, b: int)
    requires Shaped(g, v) && Owned(g, v, owner, {}, {}) && g.dataStart <= b < g.size && g.dataStart > 0
    ensures v.bitmap[b] <==> exists s :: IsSlot(s, |v.inodes|) && Addr(g, v, s) == b
  {
    if v.bitmap[b] {
      assert OwnedBy(g, v, b, owner[b], {});
    }
  }

  // ---- How each write moves ownership ----

  /** The slots outside `ex` hold what they held. */
  ghost predicate SameAddrs(g: Geometry, v: Vol, v': Vol, ex: set<Slot>)
    requires Shaped(g, v) && Shaped(g, v')
  {
    |v'.inodes| == |v.inodes|
    && forall s :: IsSlot(s, |v.inodes|) && s !in ex ==> Addr(g, v', s) == Addr(g, v, s)
  }

  /** Writing any block but an inode's indirect block leaves every slot alone. */
  lemma WriteKeepsSlots(g: Geometry, v: Vol, a: nat, c: Bytes)
    requires Shaped(g, v) && a < g.size && IsBlock(c)
    requires forall x :: 0 <= x < |v.inodes| ==> v.inodes[x].addrs[NDIRECT] != a
    ensures var v' := v.(blocks := v.blocks[a := c]);
            Shaped(g, v') && SameAddrs(g, v, v', {})
  {
    var v' := v.(blocks := v.blocks[a := c]);
    forall s | IsSlot(s, |v.inodes|) ensures Addr(g, v', s) == Addr(g, v, s) {
      match s case Direct(x, i) => case IndPtr(x) => case Ind(x, j) =>
    }
  }

  /** A block that is free, loose or in a data slot is not an indirect block. */
  lemma NotIndirect(g: Geometry, v: Vol, owner: map<int, Slot>, loose: set<int>, dead: set<Slot>, a: int)
    requires Shaped(g, v) && Owned(g, v, owner, loose, dead) && a > 0
    requires a in owner ==> !owner[a].IndPtr?
    requires forall x :: IndPtr(x) !in dead
    ensures forall x :: 0 <= x < |v.inodes| ==> v.inodes[x].addrs[NDIRECT] != a
  {
    forall x | 0 <= x < |v.inodes| ensures v.inodes[x].addrs[NDIRECT] != a {
      assert IsSlot(IndPtr(x), |v.inodes|) && Addr(g, v, IndPtr(x)) == v.inodes[x].addrs[NDIRECT];
    }
  }

  /** Ownership only depends on the bitmap and the slots. */
  lemma OwnedSame(g: Geometry, v: Vol, v': Vol, owner: map<int, Slot>, loose: set<int>, dead: set<Slot>)
    requires Shaped(g, v) && Shaped(g, v') && SameAddrs(g, v, v', {}) && v'.bitmap == v.bitmap
    requires Owned(g, v, owner, loose, dead)
    ensures Owned(g, v', owner, loose, dead)
  {
    forall b | b in owner ensures OwnedBy(g, v', b, owner[b], dead) {
      assert OwnedBy(g, v, b, owner[b], dead);
    }
  }

  function Marked(v: Vol, r: nat): Vol
    requires r < |v.bitmap| && r < |v.blocks|
  {
    v.(bitmap := v.bitmap[r := true], blocks := v.blocks[r := Zeros()])
  }

  /** balloc takes a free block: it is zeroed, marked, and in no slot yet. */
  lemma MarkedOwned(g: Geometry, v: Vol, owner: map<int, Slot>, loose: set<int>, r: nat)
    requires GoodGeometry(g) && Shaped(g, v) && Owned(g, v, owner, loose, {}) && r < g.size && !v.bitmap[r]
    ensures Shaped(g, Marked(v, r)) && SameAddrs(g, v, Marked(v, r), {})
    ensures Owned(g, Marked(v, r), owner, loose + {r}, {})
    ensures g.dataStart <= r && r !in owner && r !in loose
  {
    var v' := v.(blocks := v.blocks[r := Zeros()]);
    NotIndirect(g, v, owner, loose, {}, r);
    WriteKeepsSlots(g, v, r, Zeros());
    assert SameAddrs(g, v, Marked(v, r), {}) by {
      forall s | IsSlot(s, |v.inodes|) ensures Addr(g, Marked(v, r), s) == Addr(g, v', s) {
        match s case Direct(x, i) => case IndPtr(x) => case Ind(x, j) =>
      }
    }
    forall b | b in owner ensures OwnedBy(g, Marked(v, r), b, owner[b], {}) {
      assert OwnedBy(g, v, b, owner[b], {});
    }
  }

  /** A loose block goes into an empty slot. */
  lemma PutInSlot(g: Geometry, v: Vol, v': Vol, owner: map<int, Slot>, loose: set<int>, r: int, t: Slot)
    requires GoodGeometry(g) && Shaped(g, v) && Shaped(g, v') && Owned(g, v, owner, loose, {}) && r in loose
    requires IsSlot(t, |v.inodes|) && Addr(g, v, t) == 0
    requires SameAddrs(g, v, v', {t}) && v'.bitmap == v.bitmap && Addr(g, v', t) == r
    ensures Owned(g, v', owner[r := t], loose - {r}, {})
  {
    var owner' := owner[r := t];
    forall b | b in owner' ensures OwnedBy(g, v', b, owner'[b], {}) {
      if b != r {
        assert OwnedBy(g, v, b, owner[b], {});
      }
    }
    forall s | IsSlot(s, |v.inodes|) && s != t && Addr(g, v', s) != 0
      ensures Addr(g, v', s) in owner && owner[Addr(g, v', s)] == s && Addr(g, v', s) != r
    {
      assert Addr(g, v', s) == Addr(g, v, s);
    }
  }

  function SetAddr(v: Vol, x: nat, i: nat, r: int): Vol
    requires x < |v.inodes| && i < |v.inodes[x].addrs|
  {
    v.(inodes := v.inodes[x := v.inodes[x].(addrs := v.inodes[x].addrs[i := r])])
  }

  lemma DirectSet(g: Geometry, v: Vol, x: nat, i: nat, r: int)
    requires Shaped(g, v) && x < |v.inodes| && i < NDIRECT
    ensures var v' := SetAddr(v, x, i, r);
            Shaped(g, v') && SameAddrs(g, v, v', {Direct(x, i)}) && Addr(g, v', Direct(x, i)) == r
  {
    var v' := SetAddr(v, x, i, r);
    forall s | IsSlot(s, |v.inodes|) && s != Direct(x, i) ensures Addr(g, v', s) == Addr(g, v, s) {
      match s case Direct(y, k) => case IndPtr(y) => case Ind(y, j) =>
    }
  }

  /** A fresh indirect block is all zero, so it brings no entries. */
  lemma PointerSet(g: Geometry, v: Vol, x: nat, r: nat)
    requires Shaped(g, v) && x < |v.inodes| && v.inodes[x].addrs[NDIRECT] == 0
    requires 0 < r < g.size && v.blocks[r] == Zeros()
    ensures var v' := SetAddr(v, x, NDIRECT, r);
            Shaped(g, v') && SameAddrs(g, v, v', {IndPtr(x)}) && Addr(g, v', IndPtr(x)) == r
  {
    var v' := SetAddr(v, x, NDIRECT, r);
    forall s | IsSlot(s, |v.inodes|) && s != IndPtr(x) ensures Addr(g, v', s) == Addr(g, v, s) {
      match s
      case Direct(y, k) =>
      case IndPtr(y) =>
      case Ind(y, j) =>
        EntryOfZeros(j);
    }
  }

  lemma EntrySet(g: Geometry, v: Vol, owner: map<int, Slot>, loose: set<int>, x: nat, j: nat, r: nat)
    requires Shaped(g, v) && Owned(g, v, owner, loose, {}) && x < |v.inodes| && j < NINDIRECT && r < UINT_LIMIT
    requires 0 < v.inodes[x].addrs[NDIRECT] < g.size
    ensures var p := v.inodes[x].addrs[NDIRECT];
            var v' := v.(blocks := v.blocks[p := SetEntry(v.blocks[p], j, r)]);
            Shaped(g, v') && SameAddrs(g, v, v', {Ind(x, j)}) && Addr(g, v', Ind(x, j)) == r
  {
    var p := v.inodes[x].addrs[NDIRECT];
    var v' := v.(blocks := v.blocks[p := SetEntry(v.blocks[p], j, r)]);
    EntryOfSet(v.blocks[p], j, r, j);
    forall s | IsSlot(s, |v.inodes|) && s != Ind(x, j) ensures Addr(g, v', s) == Addr(g, v, s) {
      match s
      case Direct(y, k) =>
      case IndPtr(y) =>
      case Ind(y, k) =>
        EntryOfSet(v.blocks[p], j, r, k);
        assert Addr(g, v, IndPtr(x)) == p && Addr(g, v, IndPtr(y)) == v.inodes[y].addrs[NDIRECT];
        if y != x && v.inodes[y].addrs[NDIRECT] == p {
          OneIndirect(g, v, owner, loose, x, y);
        }
    }
  }

  lemma OneIndirect(g: Geometry, v: Vol, owner: map<int, Slot>, loose: set<int>, x: nat, y: nat)
    requires Shaped(g, v) && Owned(g, v, owner, loose, {}) && x < |v.inodes| && y < |v.inodes|
    requires v.inodes[x].addrs[NDIRECT] == v.inodes[y].addrs[NDIRECT] != 0
    ensures x == y
  {
    assert Addr(g, v, IndPtr(x)) == Addr(g, v, IndPtr(y)) != 0;
  }

  // ---- Giving blocks back ----

  function Cleared(v: Vol, b: nat): Vol
    requires b < |v.bitmap|
  {
    v.(bitmap := v.bitmap[b := false])
  }

  /** bfree of a slot's block: the slot is dead until it is zeroed. */
  lemma FreedOwned(g: Geometry, v: Vol, owner: map<int, Slot>, dead: set<Slot>, s: Slot)
    requires GoodGeometry(g) && Shaped(g, v) && Owned(g, v, owner, {}, dead)
    requires IsSlot(s, |v.inodes|) && s !in dead && Addr(g, v, s) != 0
    ensures g.dataStart <= Addr(g, v, s) < g.size && v.bitmap[Addr(g, v, s)]
    ensures var b := Addr(g, v, s);
            Shaped(g, Cleared(v, b)) && Owned(g, Cleared(v, b), owner - {b}, {}, dead + {s})
            && SameAddrs(g, v, Cleared(v, b), {})
  {
    var b := Addr(g, v, s);
    var v' := Cleared(v, b);
    assert OwnedBy(g, v, b, owner[b], dead);
    assert SameAddrs(g, v, v', {}) by {
      forall t | IsSlot(t, |v.inodes|) ensures Addr(g, v', t) == Addr(g, v, t) {
        match t case Direct(x, i) => case IndPtr(x) => case Ind(x, j) =>
      }
    }
    var owner' := owner - {b};
    forall c | c in owner' ensures OwnedBy(g, v', c, owner'[c], dead + {s}) {
      assert OwnedBy(g, v, c, owner[c], dead);
    }
  }

  /** Dead slots that read 0 again need no mention. */
  lemma DeadGone(g: Geometry, v: Vol, v': Vol, owner: map<int, Slot>, dead: set<Slot>)
    requires Shaped(g, v) && Shaped(g, v') && Owned(g, v, owner, {}, dead)
    requires SameAddrs(g, v, v', dead) && v'.bitmap == v.bitmap
    requires forall s :: s in dead && IsSlot(s, |v.inodes|) ==> Addr(g, v', s) == 0
    ensures Owned(g, v', owner, {}, {})
  {
    forall b | b in owner ensures OwnedBy(g, v', b, owner[b], {}) {
      assert OwnedBy(g, v, b, owner[b], dead);
    }
  }

  // ---- File contents ----

  /** The slot of a file's block number `n`. */
  function BlockSlot(x: nat, n: nat): Slot {
    if n < NDIRECT then Direct(x, n) else Ind(x, n - NDIRECT)
  }

  /** The block that holds a file's block number `n`, 0 if none does. */
  ghost function BlockOf(g: Geometry, v: Vol, x: nat, n: nat): int
    requires Shaped(g, v) && x < |v.inodes| && n < MAXFILE
  {
    Addr(g, v, BlockSlot(x, n))
  }

  /** Byte `o` of a file's block `n`; a hole reads as zeros. */
  ghost function Byte(g: Geometry, v: Vol, x: nat, n: nat, o: nat): int
    requires Shaped(g, v) && x < |v.inodes| && n < MAXFILE && o < BSIZE
  {
    var a := BlockOf(g, v, x, n);
    if 0 < a < g.size then v.blocks[a][o] else 0
  }

  /** No hole below the size, which is within the limit. */
  ghost predicate Mapped(g: Geometry, v: Vol, x: nat)
    requires Shaped(g, v) && x < |v.inodes|
  {
    && 0 <= v.inodes[x].size <= MAXFILE * BSIZE
    && forall n :: 0 <= n < MAXFILE && n * BSIZE < v.inodes[x].size ==> BlockOf(g, v, x, n) != 0
  }

  ghost predicate AllMapped(g: Geometry, v: Vol)
    requires Shaped(g, v)
  {
    forall x :: 0 <= x < |v.inodes| ==> Mapped(g, v, x)
  }

  /** Files hold the same bytes and have the same sizes. */
  ghost predicate SameFiles(g: Geometry, v: Vol, v': Vol)
    requires Shaped(g, v) && Shaped(g, v')
  {
    && |v'.inodes| == |v.inodes|
    && (forall x :: 0 <= x < |v.inodes| ==> v'.inodes[x].size == v.inodes[x].size)
    && forall x, n, o :: 0 <= x < |v.inodes| && 0 <= n < MAXFILE && 0 <= o < BSIZE ==>
         Byte(g, v', x, n, o) == Byte(g, v, x, n, o)
  }

  /** Blocks in slots are real blocks. */
  lemma SlotInRange(g: Geometry, v: Vol, owner: map<int, Slot>, loose: set<int>, s: Slot)
    requires Shaped(g, v) && Owned(g, v, owner, loose, {}) && IsSlot(s, |v.inodes|) && Addr(g, v, s) != 0
    ensures g.dataStart <= Addr(g, v, s) < g.size && owner[Addr(g, v, s)] == s
  {
  }

  /** Marking and zeroing a free block changes no file. */
  lemma MarkedFiles(g: Geometry, v: Vol, owner: map<int, Slot>, loose: set<int>, r: nat)
    requires GoodGeometry(g) && Shaped(g, v) && Owned(g, v, owner, loose, {}) && r < g.size && !v.bitmap[r]
    ensures Shaped(g, Marked(v, r)) && SameFiles(g, v, Marked(v, r))
    ensures AllMapped(g, v) ==> AllMapped(g, Marked(v, r))
  {
    MarkedOwned(g, v, owner, loose, r);
    var v' := Marked(v, r);
    forall x, n, o | 0 <= x < |v.inodes| && 0 <= n < MAXFILE && 0 <= o < BSIZE
      ensures Byte(g, v', x, n, o) == Byte(g, v, x, n, o)
    {
      var s := BlockSlot(x, n);
      assert Addr(g, v', s) == Addr(g, v, s);
      if Addr(g, v, s) != 0 {
        SlotInRange(g, v, owner, loose, s);
      }
    }
    if AllMapped(g, v) {
      StillMapped(g, v, v');
    }
  }

  lemma StillMapped(g: Geometry, v: Vol, v': Vol)
    requires Shaped(g, v) && Shaped(g, v') && AllMapped(g, v) && |v'.inodes| == |v.inodes|
    requires forall x :: 0 <= x < |v.inodes| ==> v'.inodes[x].size == v.inodes[x].size
    requires forall s :: IsSlot(s, |v.inodes|) && Addr(g, v, s) != 0 ==> Addr(g, v', s) != 0
    ensures AllMapped(g, v')
  {
    forall x | 0 <= x < |v.inodes| ensures Mapped(g, v', x) {
      assert Mapped(g, v, x);
      forall n | 0 <= n < MAXFILE && n * BSIZE < v.inodes[x].size ensures BlockOf(g, v', x, n) != 0 {
        assert BlockOf(g, v, x, n) != 0;
      }
    }
  }

  /** Putting a zeroed block into an empty slot changes no file. */
  lemma PlacedFiles(g: Geometry, v: Vol, v': Vol, r: nat, t: Slot)
    requires Shaped(g, v) && Shaped(g, v') && IsSlot(t, |v.inodes|) && Addr(g, v, t) == 0
    requires SameAddrs(g, v, v', {t}) && Addr(g, v', t) == r && 0 < r < g.size && v'.blocks[r] == Zeros()
    requires forall x :: 0 <= x < |v.inodes| ==> v'.inodes[x].size == v.inodes[x].size
    requires forall x, n :: 0 <= x < |v.inodes| && 0 <= n < MAXFILE && 0 < BlockOf(g, v, x, n) < g.size ==>
               v'.blocks[BlockOf(g, v, x, n)] == v.blocks[BlockOf(g, v, x, n)]
    ensures SameFiles(g, v, v') && (AllMapped(g, v) ==> AllMapped(g, v'))
  {
    forall x, n, o | 0 <= x < |v.inodes| && 0 <= n < MAXFILE && 0 <= o < BSIZE
      ensures Byte(g, v', x, n, o) == Byte(g, v, x, n, o)
    {
      var s := BlockSlot(x, n);
      assert s != t ==> Addr(g, v', s) == Addr(g, v, s);
      assert BlockOf(g, v, x, n) == Addr(g, v, s);
    }
    if AllMapped(g, v) {
      StillMapped(g, v, v');
    }
  }

  /** Writing a block of a file changes that block of that file and nothing else. */
  lemma WroteBlock(g: Geometry, v: Vol, owner: map<int, Slot>, x: nat, n: nat, c: Bytes)
    requires GoodGeometry(g) && Shaped(g, v) && Owned(g, v, owner, {}, {}) && x < |v.inodes| && n < MAXFILE
             && IsBlock(c)
    requires BlockOf(g, v, x, n) != 0
    ensures 0 < BlockOf(g, v, x, n) < g.size
    ensures var v' := v.(blocks := v.blocks[BlockOf(g, v, x, n) := c]);
            && Shaped(g, v') && Owned(g, v', owner, {}, {}) && SameAddrs(g, v, v', {})
            && (AllMapped(g, v) ==> AllMapped(g, v'))
            && forall y, k, o :: 0 <= y < |v.inodes| && 0 <= k < MAXFILE && 0 <= o < BSIZE ==>
                 Byte(g, v', y, k, o) == if y == x && k == n then c[o] else Byte(g, v, y, k, o)
  {
    var a := BlockOf(g, v, x, n);
    SlotInRange(g, v, owner, {}, BlockSlot(x, n));
    NotIndirect(g, v, owner, {}, {}, a);
    WriteKeepsSlots(g, v, a, c);
    var v' := v.(blocks := v.blocks[a := c]);
    OwnedSame(g, v, v', owner, {}, {});
    if AllMapped(g, v) {
      StillMapped(g, v, v');
    }
    forall y, k, o | 0 <= y < |v.inodes| && 0 <= k < MAXFILE && 0 <= o < BSIZE
      ensures Byte(g, v', y, k, o) == if y == x && k == n then c[o] else Byte(g, v, y, k, o)
    {
      var s := BlockSlot(y, k);
      assert Addr(g, v', s) == Addr(g, v, s);
      if Addr(g, v, s) == a {
        assert s == BlockSlot(x, n);
      }
    }
  }

  /** A file's bytes as one sequence. */
  ghost function FileByte(g: Geometry, v: Vol, x: nat, k: nat): int
    requires Shaped(g, v) && x < |v.inodes| && k < MAXFILE * BSIZE
  {
    Byte(g, v, x, k / BSIZE, k % BSIZE)
  }

  ghost function File(g: Geometry, v: Vol, x: nat): (f: Bytes)
    requires Shaped(g, v) && x < |v.inodes| && 0 <= v.inodes[x].size <= MAXFILE * BSIZE
    ensures |f| == v.inodes[x].size
  {
    seq(v.inodes[x].size, k requires 0 <= k < v.inodes[x].size => FileByte(g, v, x, k))
  }

  // ---- Allocation into a slot, as a whole ----

  /** Slots that hold a block go on holding it. */
  ghost predicate KeepsSlots(g: Geometry, v: Vol, v': Vol)
    requires Shaped(g, v) && Shaped(g, v')
  {
    |v'.inodes| == |v.inodes|
    && forall s :: IsSlot(s, |v.inodes|) && Addr(g, v, s) != 0 ==> Addr(g, v', s) == Addr(g, v, s)
  }

  /** What allocating block `r` into the empty slot `t` must achieve: files keep their bytes. */
  ghost predicate Allocated(g: Geometry, v: Vol, owner: map<int, Slot>, v': Vol, r: int, t: Slot)
    requires Shaped(g, v)
  {
    && Shaped(g, v') && IsSlot(t, |v.inodes|) && 0 < r < g.size
    && Owned(g, v', owner[r := t], {}, {})
    && SameAddrs(g, v, v', {t}) && Addr(g, v', t) == r && KeepsSlots(g, v, v')
    && SameFiles(g, v, v') && (AllMapped(g, v) ==> AllMapped(g, v'))
  }

  /** From marking to placing: what remains once the slot's own change is understood. */
  lemma AllocatedBy(g: Geometry, v: Vol, owner: map<int, Slot>, v': Vol, r: nat, t: Slot)
    requires GoodGeometry(g) && Shaped(g, v) && Owned(g, v, owner, {}, {}) && r < g.size && !v.bitmap[r]
    requires Shaped(g, Marked(v, r)) && Shaped(g, v') && IsSlot(t, |v.inodes|) && Addr(g, Marked(v, r), t) == 0
    requires SameAddrs(g, Marked(v, r), v', {t}) && Addr(g, v', t) == r
    requires v'.bitmap == Marked(v, r).bitmap && v'.blocks[r] == Zeros()
    requires forall x :: 0 <= x < |v.inodes| ==> v'.inodes[x].size == v.inodes[x].size
    requires forall b :: 0 <= b < g.size && (b in owner ==> !owner[b].IndPtr?) ==>
             v'.blocks[b] == Marked(v, r).blocks[b]
    ensures Allocated(g, v, owner, v', r, t)
  {
    var m := Marked(v, r);
    MarkedOwned(g, v, owner, {}, r);
    MarkedFiles(g, v, owner, {}, r);
    PutInSlot(g, m, v', owner, {r}, r, t);
    assert {r} - {r} == {};
    assert {} + {r} == {r};
    forall x, n | 0 <= x < |v.inodes| && 0 <= n < MAXFILE && 0 < BlockOf(g, m, x, n) < g.size
      ensures v'.blocks[BlockOf(g, m, x, n)] == m.blocks[BlockOf(g, m, x, n)]
    {
      SlotInRange(g, m, owner, {r}, BlockSlot(x, n));
    }
    PlacedFiles(g, m, v', r, t);
    SameFilesTrans(g, v, m, v');
  }

  lemma SameFilesTrans(g: Geometry, v: Vol, m: Vol, v': Vol)
    requires Shaped(g, v) && Shaped(g, m) && Shaped(g, v') && SameFiles(g, v, m) && SameFiles(g, m, v')
    ensures SameFiles(g, v, v')
  {
    forall x, n, o | 0 <= x < |v.inodes| && 0 <= n < MAXFILE && 0 <= o < BSIZE
      ensures Byte(g, v', x, n, o) == Byte(g, v, x, n, o)
    {
      assert Byte(g, m, x, n, o) == Byte(g, v, x, n, o);
    }
  }

  lemma AllocatedDirect(g: Geometry, v: Vol, owner: map<int, Slot>, x: nat, i: nat, r: nat)
    requires GoodGeometry(g) && Shaped(g, v) && Owned(g, v, owner, {}, {}) && r < g.size && !v.bitmap[r]
    requires x < |v.inodes| && i < NDIRECT && v.inodes[x].addrs[i] == 0
    ensures Allocated(g, v, owner, SetAddr(Marked(v, r), x, i, r), r, Direct(x, i))
  {
    MarkedOwned(g, v, owner, {}, r);
    DirectSet(g, Marked(v, r), x, i, r);
    AllocatedBy(g, v, owner, SetAddr(Marked(v, r), x, i, r), r, Direct(x, i));
  }

  lemma AllocatedPointer(g: Geometry, v: Vol, owner: map<int, Slot>, x: nat, r: nat)
    requires GoodGeometry(g) && Shaped(g, v) && Owned(g, v, owner, {}, {}) && r < g.size && !v.bitmap[r]
    requires x < |v.inodes| && v.inodes[x].addrs[NDIRECT] == 0
    ensures Allocated(g, v, owner, SetAddr(Marked(v, r), x, NDIRECT, r), r, IndPtr(x))
  {
    MarkedOwned(g, v, owner, {}, r);
    PointerSet(g, Marked(v, r), x, r);
    AllocatedBy(g, v, owner, SetAddr(Marked(v, r), x, NDIRECT, r), r, IndPtr(x));
  }

  function SetIn(v: Vol, p: nat, j: nat, r: nat): Vol
    requires p < |v.blocks| && |v.blocks[p]| == BSIZE && j < NINDIRECT && r < UINT_LIMIT
  {
    v.(blocks := v.blocks[p := SetEntry(v.blocks[p], j, r)])
  }

  lemma AllocatedEntry(g: Geometry, v: Vol, owner: map<int, Slot>, x: nat, j: nat, r: nat)
    requires GoodGeometry(g) && Shaped(g, v) && Owned(g, v, owner, {}, {}) && r < g.size && !v.bitmap[r]
    requires x < |v.inodes| && j < NINDIRECT && v.inodes[x].addrs[NDIRECT] != 0 && Addr(g, v, Ind(x, j)) == 0
    ensures var p := v.inodes[x].addrs[NDIRECT];
            0 < p < g.size && p != r && Allocated(g, v, owner, SetIn(Marked(v, r), p, j, r), r, Ind(x, j))
  {
    var p, m := v.inodes[x].addrs[NDIRECT], Marked(v, r);
    assert Addr(g, v, IndPtr(x)) == p;
    SlotInRange(g, v, owner, {}, IndPtr(x));
    MarkedOwned(g, v, owner, {}, r);
    EntrySet(g, m, owner, {} + {r}, x, j, r);
    AllocatedBy(g, v, owner, SetIn(m, p, j, r), r, Ind(x, j));
  }

  // ---- Writing a range of bytes ----

  /** File `x` has `data` at `off`; every other byte of every file is as before. */
  ghost predicate Wrote(g: Geometry, v: Vol, v': Vol, x: nat, off: nat, data: Bytes)
    requires Shaped(g, v) && Shaped(g, v')
  {
    && |v'.inodes| == |v.inodes|
    && forall y, n, o :: 0 <= y < |v.inodes| && 0 <= n < MAXFILE && 0 <= o < BSIZE ==>
         Byte(g, v', y, n, o) == if y == x && off <= n * BSIZE + o < off + |data| then data[n * BSIZE + o - off]
                                 else Byte(g, v, y, n, o)
  }

  /** Overwriting part of one block. */
  lemma SplicedWrote(g: Geometry, v: Vol, m: Vol, owner: map<int, Slot>, x: nat, off: nat, data: Bytes)
    requires GoodGeometry(g) && Shaped(g, v) && Shaped(g, m) && Owned(g, m, owner, {}, {}) && AllMapped(g, m)
    requires SameFiles(g, v, m) && x < |v.inodes| && off / BSIZE < MAXFILE && off % BSIZE + |data| <= BSIZE
    requires AllBytes(data)
    requires BlockOf(g, m, x, off / BSIZE) != 0
    ensures 0 < BlockOf(g, m, x, off / BSIZE) < g.size
    ensures var a := BlockOf(g, m, x, off / BSIZE);
            var v' := m.(blocks := m.blocks[a := Spliced(m.blocks[a], off % BSIZE, data)]);
            && Shaped(g, v') && Owned(g, v', owner, {}, {}) && AllMapped(g, v') && SameAddrs(g, m, v', {})
            && Wrote(g, v, v', x, off, data)
  {
    var n := off / BSIZE;
    SlotInRange(g, m, owner, {}, BlockSlot(x, n));
    var a := BlockOf(g, m, x, n);
    var c := Spliced(m.blocks[a], off % BSIZE, data);
    WroteBlock(g, m, owner, x, n, c);
    var v' := m.(blocks := m.blocks[a := c]);
    forall y, k, o | 0 <= y < |v.inodes| && 0 <= k < MAXFILE && 0 <= o < BSIZE
      ensures Byte(g, v', y, k, o) == if y == x && off <= k * BSIZE + o < off + |data| then data[k * BSIZE + o - off]
                                      else Byte(g, v, y, k, o)
    {
      assert Byte(g, m, y, k, o) == Byte(g, v, y, k, o);
      assert off <= k * BSIZE + o < off + |data| ==> k == n;
    }
  }

  /** One range right after another is the two together. */
  lemma WroteThen(g: Geometry, v: Vol, m: Vol, v': Vol, x: nat, off: nat, a: Bytes, b: Bytes)
    requires Shaped(g, v) && Shaped(g, m) && Shaped(g, v')
    requires Wrote(g, v, m, x, off, a) && Wrote(g, m, v', x, off + |a|, b)
    ensures Wrote(g, v, v', x, off, a + b)
  {
    forall y, n, o | 0 <= y < |v.inodes| && 0 <= n < MAXFILE && 0 <= o < BSIZE
      ensures Byte(g, v', y, n, o) ==
              if y == x && off <= n * BSIZE + o < off + |a + b| then (a + b)[n * BSIZE + o - off]
              else Byte(g, v, y, n, o)
    {
      var k := n * BSIZE + o;
      assert Byte(g, m, y, n, o) == if y == x && off <= k < off + |a| then a[k - off] else Byte(g, v, y, n, o);
    }
  }

  lemma WroteNothing(g: Geometry, v: Vol, v': Vol, x: nat, off: nat)
    requires Shaped(g, v) && Shaped(g, v') && SameFiles(g, v, v')
    ensures Wrote(g, v, v', x, off, [])
  {
  }

  function Resized(v: Vol, x: nat, size: nat): Vol
    requires x < |v.inodes|
  {
    v.(inodes := v.inodes[x := v.inodes[x].(size := size)])
  }

  /** Only the size of the file changes. */
  lemma ResizedOk(g: Geometry, v: Vol, owner: map<int, Slot>, x: nat, size: nat)
    requires Shaped(g, v) && Owned(g, v, owner, {}, {}) && AllMapped(g, v) && x < |v.inodes| && size <= MAXFILE * BSIZE
    requires forall n :: 0 <= n < MAXFILE && n * BSIZE < size ==> BlockOf(g, v, x, n) != 0
    ensures var v' := Resized(v, x, size);
            && Shaped(g, v') && Owned(g, v', owner, {}, {}) && AllMapped(g, v') && SameAddrs(g, v, v', {})
            && forall y, n, o :: 0 <= y < |v.inodes| && 0 <= n < MAXFILE && 0 <= o < BSIZE ==>
                 Byte(g, v', y, n, o) == Byte(g, v, y, n, o)
  {
    var v' := Resized(v, x, size);
    assert SameAddrs(g, v, v', {}) by {
      forall s | IsSlot(s, |v.inodes|) ensures Addr(g, v', s) == Addr(g, v, s) {
        match s case Direct(y, i) => case IndPtr(y) => case Ind(y, j) =>
      }
    }
    OwnedSame(g, v, v', owner, {}, {});
    forall y | 0 <= y < |v.inodes| ensures Mapped(g, v', y) {
      assert Mapped(g, v, y);
      forall n | 0 <= n < MAXFILE && n * BSIZE < v'.inodes[y].size ensures BlockOf(g, v', y, n) != 0 {
        assert BlockOf(g, v', y, n) == BlockOf(g, v, y, n);
      }
    }
    forall y, n, o | 0 <= y < |v.inodes| && 0 <= n < MAXFILE && 0 <= o < BSIZE
      ensures Byte(g, v', y, n, o) == Byte(g, v, y, n, o)
    {
      assert BlockOf(g, v', y, n) == BlockOf(g, v, y, n);
    }
  }

  lemma WithinBlock(off: nat, i: nat)
    requires off % BSIZE + i < BSIZE
    ensures (off + i) / BSIZE == off / BSIZE && (off + i) % BSIZE == off % BSIZE + i
  {
  }

  /** A range within one block of a file. */
  lemma FileSlice(g: Geometry, v: Vol, owner: map<int, Slot>, x: nat, off: nat, m: nat)
    requires Shaped(g, v) && Owned(g, v, owner, {}, {}) && AllMapped(g, v) && x < |v.inodes| && g.dataStart > 0
    requires m > 0 && off + m <= v.inodes[x].size && off % BSIZE + m <= BSIZE
    ensures off / BSIZE < MAXFILE && 0 < BlockOf(g, v, x, off / BSIZE) < g.size
    ensures v.inodes[x].size <= MAXFILE * BSIZE
    ensures var o := off % BSIZE;
            v.blocks[BlockOf(g, v, x, off / BSIZE)][o..o + m] == File(g, v, x)[off..off + m]
  {
    assert Mapped(g, v, x);
    var n, o := off / BSIZE, off % BSIZE;
    assert BlockOf(g, v, x, n) != 0;
    SlotInRange(g, v, owner, {}, BlockSlot(x, n));
    var part, slice := v.blocks[BlockOf(g, v, x, n)][o..o + m], File(g, v, x)[off..off + m];
    forall i | 0 <= i < m ensures part[i] == slice[i] {
      WithinBlock(off, i);
      assert slice[i] == FileByte(g, v, x, off + i);
    }
  }

  /** `f` with `data` at `off`; it grows if it must. */
  ghost function Overwritten(f: Bytes, off: nat, data: Bytes): Bytes
    requires off <= |f|
  {
    f[..off] + data + if off + |data| < |f| then f[off + |data|..] else []
  }

  /** A write and the growth that goes with it, on the file as one sequence. */
  lemma WroteFile(g: Geometry, v: Vol, v': Vol, x: nat, off: nat, data: Bytes)
    requires Shaped(g, v) && Shaped(g, v') && AllMapped(g, v) && AllMapped(g, v') && x < |v.inodes|
    requires Wrote(g, v, v', x, off, data) && off <= v.inodes[x].size
    requires v'.inodes[x].size == if off + |data| > v.inodes[x].size then off + |data| else v.inodes[x].size
    ensures Mapped(g, v, x) && Mapped(g, v', x)
    ensures File(g, v', x) == Overwritten(File(g, v, x), off, data)
  {
    assert Mapped(g, v, x) && Mapped(g, v', x);
    var f, f' := File(g, v, x), File(g, v', x);
    var e := Overwritten(f, off, data);
    forall k | 0 <= k < |e| ensures f'[k] == e[k] {
      assert f'[k] == FileByte(g, v', x, k);
      assert k / BSIZE * BSIZE + k % BSIZE == k;
      if k < |f| {
        assert f[k] == FileByte(g, v, x, k);
      }
    }
  }

  // ---- Truncation ----

  /** Ownership without the given slots. */
  ghost function Without(owner: map<int, Slot>, gone: set<Slot>): map<int, Slot> {
    map b | b in owner && owner[b] !in gone :: owner[b]
  }

  ghost function DirectsTo(x: nat, i: nat): set<Slot> {
    set k: nat | k < i :: Direct(x, k)
  }

  ghost function EntriesTo(x: nat, j: nat): set<Slot> {
    set k: nat | k < j :: Ind(x, k)
  }

  /** Without one slot more. */
  lemma WithoutMore(g: Geometry, v: Vol, owner: map<int, Slot>, o: map<int, Slot>, dead: set<Slot>, gone: set<Slot>,
                    s: Slot)
    requires GoodGeometry(g) && Shaped(g, v) && Owned(g, v, owner, {}, dead) && owner == Without(o, gone)
    requires IsSlot(s, |v.inodes|) && s !in dead
    ensures Without(o, gone + {s}) == if Addr(g, v, s) == 0 then owner else owner - {Addr(g, v, s)}
  {
    var o' := Without(o, gone + {s});
    var a := Addr(g, v, s);
    assert a != 0 ==> a in owner && owner[a] == s;
    forall b | b in owner ensures b != 0 && (b in o' <==> b != a) {
      assert OwnedBy(g, v, b, owner[b], dead);
      assert b in o && owner[b] == o[b];
    }
    var e := if a == 0 then owner else owner - {a};
    forall b | b in o' ensures b in owner && owner[b] == o'[b] {
    }
    assert o'.Keys == e.Keys;
    assert o' == e;
  }

  /** itrunc on a direct slot: bfree, then zero. */
  lemma DirectDropped(g: Geometry, v: Vol, owner: map<int, Slot>, x: nat, i: nat)
    requires GoodGeometry(g) && Shaped(g, v) && Owned(g, v, owner, {}, {}) && x < |v.inodes| && i < NDIRECT
    requires v.inodes[x].addrs[i] != 0
    ensures var b := v.inodes[x].addrs[i];
            && g.dataStart <= b < g.size && v.bitmap[b]
            && var v' := SetAddr(Cleared(v, b), x, i, 0);
               Shaped(g, v') && Owned(g, v', owner - {b}, {}, {})
  {
    var b, s := v.inodes[x].addrs[i], Direct(x, i);
    assert Addr(g, v, s) == b;
    FreedOwned(g, v, owner, {}, s);
    var m := Cleared(v, b);
    DirectSet(g, m, x, i, 0);
    assert {} + {s} == {s};
    DeadGone(g, m, SetAddr(m, x, i, 0), owner - {b}, {s});
  }

  /** An entry that reads 0 may count as dead. */
  lemma DeadZero(g: Geometry, v: Vol, owner: map<int, Slot>, dead: set<Slot>, s: Slot)
    requires GoodGeometry(g) && Shaped(g, v) && Owned(g, v, owner, {}, dead)
    requires IsSlot(s, |v.inodes|) && Addr(g, v, s) == 0
    ensures Owned(g, v, owner, {}, dead + {s})
  {
    forall b | b in owner ensures OwnedBy(g, v, b, owner[b], dead + {s}) {
      assert OwnedBy(g, v, b, owner[b], dead);
    }
  }

  /** Zeroing the pointer makes all entries read 0 at once. */
  lemma PointerDropped(g: Geometry, v: Vol, owner: map<int, Slot>, x: nat)
    requires Shaped(g, v) && x < |v.inodes|
    requires Owned(g, v, owner, {}, EntriesTo(x, NINDIRECT) + {IndPtr(x)})
    ensures var v' := SetAddr(v, x, NDIRECT, 0);
            Shaped(g, v') && Owned(g, v', owner, {}, {})
  {
    var v', dead := SetAddr(v, x, NDIRECT, 0), EntriesTo(x, NINDIRECT) + {IndPtr(x)};
    forall s | IsSlot(s, |v.inodes|) && s !in dead ensures Addr(g, v', s) == Addr(g, v, s) {
      match s case Direct(y, i) => case IndPtr(y) => case Ind(y, j) =>
    }
    DeadGone(g, v, v', owner, dead);
  }
}
