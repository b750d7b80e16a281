/** Block allocation and file contents: balloc, bfree, bmap, itrunc, readi and writei of kernel/fs.c,
    and the chunking loop of filewrite in kernel/file.c. */
module Fs {
  import opened Common
  import opened Space
  import opened Volume

  function Max(a: int, b: int): int {
    if a < b then b else a
  }

  lemma MinBound(a: int, b: int)
    ensures Min(a, b) <= a && Min(a, b) <= b && (a >= 0 && b >= 0 ==> Min(a, b) >= 0)
    ensures if a >= b then Min(a, b) == b else Min(a, b) == a
  {
  }

  function NonZero(a: int): set<int> {
    if a == 0 then {} else {a}
  }

  // ---- What one call of writei adds to the transaction ----

  /** After `t` rounds: the data blocks `d`, the bitmap blocks `m` and the indirect block `p`. If the first
      block was mapped already, that round took no bitmap block; taking the indirect block may take one. */
  ghost predicate Charged(before: set<int>, logged: set<int>, d: set<int>, m: set<int>, p: int, p0: int, t: nat,
                          mapped: bool) {
    && before <= logged <= before + d + m + NonZero(p)
    && |d| <= t && |m| <= t - One(mapped && t > 0) + One(p != p0)
    && p0 in {0, p}
  }

  lemma ChargedNothing(before: set<int>, p0: int, mapped: bool)
    ensures Charged(before, before, {}, {}, p0, p0, 0, mapped)
  {
  }

  lemma ChargedMore(before: set<int>, logged: set<int>, d: set<int>, m: set<int>, p: int, p0: int, t: nat, mapped: bool,
                    logged': set<int>, maps: set<int>, addr: int, p': int)
    requires Charged(before, logged, d, m, p, p0, t, mapped)
    requires logged <= logged' <= logged + maps + NonZero(addr) + NonZero(p') && p in {0, p'}
    requires |maps| <= One(t > 0 || !mapped) + One(p != p')
    ensures Charged(before, logged', d + NonZero(addr), m + maps, p', p0, t + 1, mapped)
  {
    assert |d + NonZero(addr)| <= |d| + 1;
    assert |m + maps| <= |m| + |maps|;
  }

  /** Four data blocks, four bitmap blocks and the indirect block at most: a fourth round needs a first block
      that was entered in the middle, and such a block is mapped. */
  lemma Bill(before: set<int>, logged: set<int>, d: set<int>, m: set<int>, p: int, p0: int, t: nat, mapped: bool)
    requires Charged(before, logged, d, m, p, p0, t, mapped) && t <= 3 + One(mapped)
    ensures |logged| <= |before| + MAXOPBLOCKS - 1
  {
    var all := before + d + m + NonZero(p);
    SubsetSize(logged, all);
    assert |all| <= |before| + |d| + |m| + |NonZero(p)|;
  }

  /** After `t` rounds `tot` bytes are written: all of them, or up to a block boundary. */
  ghost predicate InStep(off: nat, tot: nat, n: nat, t: nat, mapped: bool) {
    && (t == tot == 0 || tot == n || off + tot == (off / BSIZE + t) * BSIZE)
    && (n <= 3 * BSIZE ==> t <= 3 + One(mapped))
  }

  lemma NextStep(off: nat, tot: nat, n: nat, t: nat, mapped: bool)
    requires InStep(off, tot, n, t, mapped) && tot < n && (off % BSIZE != 0 ==> mapped)
    ensures var k := Min(n - tot, BSIZE - (off + tot) % BSIZE);
            0 < k <= n - tot && (off + tot) % BSIZE + k <= BSIZE && InStep(off, tot + k, n, t + 1, mapped)
    ensures n <= 3 * BSIZE ==> t + 1 <= 3 + One(mapped)
    ensures t == 0 ==> tot == 0
    ensures Edge(off, tot)
  {
  }

  ghost predicate SameSizes(v: Vol, v': Vol) {
    |v'.inodes| == |v.inodes| && forall x :: 0 <= x < |v.inodes| ==> v'.inodes[x].size == v.inodes[x].size
  }

  lemma SplicedKeeps(g: Geometry, u: Vol, v: Vol, x: nat, n: nat, a: nat, c: Bytes)
    requires Shaped(g, u) && Shaped(g, v) && SameFiles(g, u, v) && KeepsSlots(g, u, v) && a < |v.blocks|
             && x < |v.inodes|
    requires n < MAXFILE && var v' := v.(blocks := v.blocks[a := c]); Shaped(g, v') && SameAddrs(g, v, v', {})
    ensures var v' := v.(blocks := v.blocks[a := c]);
            KeepsSlots(g, u, v') && SameSizes(u, v') && BlockOf(g, v', x, n) == BlockOf(g, v, x, n)
  {
    hide Byte;
  }

  lemma Unmoved(g: Geometry, v: Vol)
    requires Shaped(g, v)
    ensures SameFiles(g, v, v) && KeepsSlots(g, v, v)
  {
  }

  lemma KeepsTrans(g: Geometry, v: Vol, m: Vol, v': Vol)
    requires Shaped(g, v) && Shaped(g, m) && Shaped(g, v') && KeepsSlots(g, v, m) && KeepsSlots(g, m, v')
    ensures KeepsSlots(g, v, v')
  {
  }

  lemma SizesKept(g: Geometry, v: Vol, v': Vol)
    requires Shaped(g, v) && Shaped(g, v') && SameFiles(g, v, v')
    ensures SameSizes(v, v')
  {
  }

  /** `data` is in place at `off`, sizes are as before, and all blocks up to its end are mapped. */
  ghost predicate Reached(g: Geometry, v: Vol, v': Vol, x: nat, off: nat, data: Bytes)
    requires Shaped(g, v)
  {
    && Shaped(g, v') && x < |v.inodes| && SameSizes(v, v') && Wrote(g, v, v', x, off, data)
    && forall n :: 0 <= n < MAXFILE && n * BSIZE < off + |data| ==> BlockOf(g, v', x, n) != 0
  }

  lemma ReachedNothing(g: Geometry, v: Vol, x: nat, off: nat)
    requires Shaped(g, v) && AllMapped(g, v) && x < |v.inodes| && off <= v.inodes[x].size
    ensures Reached(g, v, v, x, off, [])
    ensures off % BSIZE != 0 ==> off / BSIZE < MAXFILE && BlockOf(g, v, x, off / BSIZE) != 0
  {
    assert Mapped(g, v, x);
    WroteNothing(g, v, v, x, off);
  }

  lemma ReachedMore(g: Geometry, w: Vol, u: Vol, v: Vol, x: nat, off: nat, a: Bytes, pos: nat, b: Bytes)
    requires Shaped(g, w) && Reached(g, w, u, x, off, a) && Shaped(g, v) && SameSizes(u, v) && KeepsSlots(g, u, v)
    requires pos == off + |a| && Wrote(g, u, v, x, pos, b) && pos / BSIZE < MAXFILE
    requires (b != [] ==> BlockOf(g, v, x, pos / BSIZE) != 0) && pos % BSIZE + |b| <= BSIZE
    ensures Reached(g, w, v, x, off, a + b)
  {
    WroteThen(g, w, u, v, x, off, a, b);
    forall n | 0 <= n < MAXFILE && n * BSIZE < off + |a + b| ensures BlockOf(g, v, x, n) != 0 {
      if n * BSIZE < off + |a| {
        assert BlockOf(g, u, x, n) != 0;
      } else {
        assert n == pos / BSIZE;
      }
    }
  }

  /** File `x` reaches at least to `end`; the other sizes are the same. */
  ghost predicate Grown(v: Vol, v': Vol, x: nat, end: int) {
    && |v'.inodes| == |v.inodes|
    && forall y :: 0 <= y < |v.inodes| ==>
         v'.inodes[y].size == if y == x then Max(v.inodes[y].size, end) else v.inodes[y].size
  }

  ghost predicate SameContents(g: Geometry, v: Vol, v': Vol)
    requires Shaped(g, v) && Shaped(g, v')
  {
    && |v'.inodes| == |v.inodes|
    && forall x, n, o :: 0 <= x < |v.inodes| && 0 <= n < MAXFILE && 0 <= o < BSIZE ==>
         Byte(g, v', x, n, o) == Byte(g, v, x, n, o)
  }

  lemma WroteSame(g: Geometry, v: Vol, m: Vol, v': Vol, x: nat, off: nat, data: Bytes)
    requires Shaped(g, v) && Shaped(g, m) && Shaped(g, v') && Wrote(g, v, m, x, off, data) && SameContents(g, m, v')
    ensures Wrote(g, v, v', x, off, data)
  {
    forall y, n, o | 0 <= y < |v.inodes| && 0 <= n < MAXFILE && 0 <= o < BSIZE
      ensures Byte(g, v', y, n, o) ==
              if y == x && off <= n * BSIZE + o < off + |data| then data[n * BSIZE + o - off] else Byte(g, v, y, n, o)
    {
      assert Byte(g, v', y, n, o) == Byte(g, m, y, n, o);
    }
  }

  // ---- Truncation ----

  const NO_BLOCKS := Inode(seq(NDIRECT + 1, _ => 0), 0)

  /** Part of the way through itrunc on inode `x`: the slots in `gone` no longer own anything. */
  ghost predicate Cutting(g: Geometry, w: Vol, o: map<int, Slot>, v: Vol, owner: map<int, Slot>, x: nat,
                          gone: set<Slot>, dead: set<Slot>) {
    && GoodGeometry(g) && Shaped(g, w) && Shaped(g, v) && x < |w.inodes| == |v.inodes|
    && v.blocks == w.blocks && (forall y :: 0 <= y < |w.inodes| && y != x ==> v.inodes[y] == w.inodes[y])
    && Owned(g, v, owner, {}, dead) && owner == Without(o, gone)
  }

  /** The direct slots before `i` are empty, the others as they were. */
  ghost predicate EmptyTo(w: Inode, a: Inode, i: nat) {
    && |a.addrs| == |w.addrs| && i <= |a.addrs|
    && (forall k :: 0 <= k < i ==> a.addrs[k] == 0)
    && (forall k :: i <= k < |a.addrs| ==> a.addrs[k] == w.addrs[k])
  }

  lemma CutDirect(g: Geometry, w: Vol, o: map<int, Slot>, v: Vol, owner: map<int, Slot>, x: nat, i: nat)
    requires Cutting(g, w, o, v, owner, x, DirectsTo(x, i), {}) && i < NDIRECT && EmptyTo(w.inodes[x], v.inodes[x], i)
    ensures var a := v.inodes[x].addrs[i];
            if a == 0 then
              Cutting(g, w, o, v, owner, x, DirectsTo(x, i + 1), {}) && EmptyTo(w.inodes[x], v.inodes[x], i + 1)
            else
              && 0 < a < g.size && v.bitmap[a]
              && Cutting(g, w, o, SetAddr(Cleared(v, a), x, i, 0), owner - {a}, x, DirectsTo(x, i + 1), {})
              && EmptyTo(w.inodes[x], SetAddr(Cleared(v, a), x, i, 0).inodes[x], i + 1)
  {
    assert Addr(g, v, Direct(x, i)) == v.inodes[x].addrs[i];
    WithoutMore(g, v, owner, o, {}, DirectsTo(x, i), Direct(x, i));
    assert DirectsTo(x, i + 1) == DirectsTo(x, i) + {Direct(x, i)};
    if v.inodes[x].addrs[i] != 0 {
      DirectDropped(g, v, owner, x, i);
    }
  }

  lemma CutEntry(g: Geometry, w: Vol, o: map<int, Slot>, v: Vol, owner: map<int, Slot>, x: nat, j: nat)
    requires Cutting(g, w, o, v, owner, x, DirectsTo(x, NDIRECT) + EntriesTo(x, j), EntriesTo(x, j)) && j < NINDIRECT
    requires 0 < v.inodes[x].addrs[NDIRECT] < g.size
    ensures var a := Entry(v.blocks[v.inodes[x].addrs[NDIRECT]], j);
            var gone := DirectsTo(x, NDIRECT) + EntriesTo(x, j + 1);
            if a == 0 then Cutting(g, w, o, v, owner, x, gone, EntriesTo(x, j + 1))
            else 0 < a < g.size && v.bitmap[a]
                 && Cutting(g, w, o, Cleared(v, a), owner - {a}, x, gone, EntriesTo(x, j + 1))
  {
    var s, dead := Ind(x, j), EntriesTo(x, j);
    var gone := DirectsTo(x, NDIRECT) + dead;
    WithoutMore(g, v, owner, o, dead, gone, s);
    assert EntriesTo(x, j + 1) == dead + {s};
    assert DirectsTo(x, NDIRECT) + EntriesTo(x, j + 1) == gone + {s};
    if Addr(g, v, s) == 0 {
      DeadZero(g, v, owner, dead, s);
    } else {
      FreedOwned(g, v, owner, dead, s);
    }
  }

  ghost function SlotsOf(x: nat): set<Slot> {
    DirectsTo(x, NDIRECT) + EntriesTo(x, NINDIRECT) + {IndPtr(x)}
  }

  lemma CutPointer(g: Geometry, w: Vol, o: map<int, Slot>, v: Vol, owner: map<int, Slot>, x: nat)
    requires Cutting(g, w, o, v, owner, x, DirectsTo(x, NDIRECT) + EntriesTo(x, NINDIRECT), EntriesTo(x, NINDIRECT))
    requires v.inodes[x].addrs[NDIRECT] != 0
    ensures var p := v.inodes[x].addrs[NDIRECT];
            && 0 < p < g.size && v.bitmap[p]
            && Cutting(g, w, o, SetAddr(Cleared(v, p), x, NDIRECT, 0), owner - {p}, x, SlotsOf(x), {})
  {
    var s, dead := IndPtr(x), EntriesTo(x, NINDIRECT);
    WithoutMore(g, v, owner, o, dead, DirectsTo(x, NDIRECT) + dead, s);
    FreedOwned(g, v, owner, dead, s);
    PointerDropped(g, Cleared(v, v.inodes[x].addrs[NDIRECT]), owner - {v.inodes[x].addrs[NDIRECT]}, x);
  }

  /** Without an indirect block there are no entries. */
  lemma CutNoPointer(g: Geometry, w: Vol, o: map<int, Slot>, v: Vol, owner: map<int, Slot>, x: nat)
    requires Cutting(g, w, o, v, owner, x, DirectsTo(x, NDIRECT), {}) && v.inodes[x].addrs[NDIRECT] == 0
    ensures Cutting(g, w, o, v, owner, x, SlotsOf(x), {})
  {
    forall b | b in owner ensures owner[b] !in EntriesTo(x, NINDIRECT) && owner[b] != IndPtr(x) {
      assert OwnedBy(g, v, b, owner[b], {});
    }
    var o' := Without(o, SlotsOf(x));
    forall b ensures b in o' <==> b in owner {
      assert b in owner ==> b in o && owner[b] == o[b];
    }
    assert o' == owner;
  }

  /** With its slots and its size gone, the file is empty and the volume in order. */
  lemma Emptied(g: Geometry, w: Vol, o: map<int, Slot>, m: Vol, owner: map<int, Slot>, x: nat)
    requires Cutting(g, w, o, m, owner, x, SlotsOf(x), {}) && AllMapped(g, w) && Owned(g, w, o, {}, {})
    requires forall k :: 0 <= k <= NDIRECT ==> m.inodes[x].addrs[k] == 0
    ensures var v := Resized(m, x, 0);
            && Shaped(g, v) && v.blocks == w.blocks && v.inodes == w.inodes[x := NO_BLOCKS]
            && AllMapped(g, v) && Owned(g, v, owner, {}, {})
    ensures forall b :: b in owner <==> b in o && o[b].x != x
  {
    var v := Resized(m, x, 0);
    assert m.inodes[x].addrs == NO_BLOCKS.addrs;
    forall s | IsSlot(s, |m.inodes|) ensures Addr(g, v, s) == Addr(g, m, s) {
      match s case Direct(y, i) => case IndPtr(y) => case Ind(y, j) =>
    }
    OwnedSame(g, m, v, owner, {}, {});
    forall y | 0 <= y < |v.inodes| ensures Mapped(g, v, y) {
      assert Mapped(g, w, y);
      forall n | 0 <= n < MAXFILE && n * BSIZE < v.inodes[y].size ensures BlockOf(g, v, y, n) != 0 {
        assert BlockOf(g, w, y, n) != 0;
      }
    }
    forall b | b in o ensures o[b] in SlotsOf(x) <==> o[b].x == x {
      assert OwnedBy(g, w, b, o[b], {});
    }
  }

  /** The most that filewrite puts into one transaction. */
  const CHUNK := (MAXOPBLOCKS - 1 - 1 - 2) / 2 * BSIZE

  lemma StrayIsData(g: Geometry, w: Vol, owner: map<int, Slot>, x: nat, off: nat, good: nat, q: nat, before: set<int>,
                    meta: int)
    requires Shaped(g, w) && x < |w.inodes| && off + q <= MAXFILE * BSIZE && Owned(g, w, owner, {}, {})
             && meta < g.dataStart
    ensures meta !in StrayBlock(g, w, x, off, good, q, before)
  {
    if 0 < good < q {
      var n := (off + good) / BSIZE;
      if BlockOf(g, w, x, n) != 0 {
        SlotInRange(g, w, owner, {}, BlockSlot(x, n));
      }
    }
  }

  /** How much of a write filewrite asks for: nothing behind the end of the file, and only chunks that fit into the
      largest file. */
  function Asked(off: nat, n: nat, size: nat): (r: nat)
    requires size <= MAXFILE * BSIZE
    ensures r <= n && (r > 0 ==> off + r <= MAXFILE * BSIZE)
  {
    if off > size then 0
    else if off + n <= MAXFILE * BSIZE then n
    else (MAXFILE * BSIZE - off) / CHUNK * CHUNK
  }

  /** How much of it the disk has room for. */
  ghost function RoomFor(g: Geometry, v: Vol, x: nat, off: nat, n: nat): (q: nat)
    requires Shaped(g, v) && x < |v.inodes| && Mapped(g, v, x)
    ensures q <= n
  {
    var a := Asked(off, n, v.inodes[x].size);
    if a == 0 then 0 else SpaceFor(g, v, x, off, a)
  }

  /** Where the chunk with byte `good` begins. */
  function ChunkStart(good: nat): (s: nat)
    ensures s <= good < s + CHUNK
  {
    good / CHUNK * CHUNK
  }

  /** The complete rounds in the first `good` bytes; rounds also begin where chunks do. */
  function ChunkRounds(off: nat, good: nat): (r: nat)
    ensures r <= good
  {
    var s := ChunkStart(good);
    s + RoundsTo(off + s, good - s)
  }

  ghost predicate ChunksEnd(q: nat, good: nat, off: nat, r: int, e: nat) {
    e == Min(good, q) && r == if good >= q then q else ChunkRounds(off, good)
  }

  /** The last transaction leaves a block changed and unlogged: the copy breaks off inside a round, and the block was
      mapped before or belongs to an earlier chunk as well. */
  ghost predicate LeavesStray(g: Geometry, w: Vol, x: nat, off: nat, good: nat, q: nat)
    requires Shaped(g, w) && x < |w.inodes|
  {
    var s, b := ChunkStart(good), (off + good) / BSIZE;
    && s < good < q && (off + good) % BSIZE != 0 && b < MAXFILE
    && (BlockOf(g, w, x, b) != 0 || b < Done(off, s))
  }

  /** All chunks up to `i` of `n` bytes are written. */
  ghost predicate ChunkedTo(g: Geometry, w: Vol, v: Vol, x: nat, off: nat, i: nat, n: nat) {
    && Shaped(g, w) && Shaped(g, v) && x < |w.inodes| == |v.inodes| && Mapped(g, w, x) && Mapped(g, v, x)
    && (off <= MAXFILE * BSIZE ==> Taken(g, w, v, x, off / BSIZE, Done(off, i)))
    && i <= RoomFor(g, w, x, off, n) && (i == n || i % CHUNK == 0)
    && (i == 0 ==> v.inodes[x].size == w.inodes[x].size) && (i > 0 ==> off + i <= v.inodes[x].size)
  }

  lemma ChunksBegin(g: Geometry, v: Vol, x: nat, off: nat, src: Bytes)
    requires Shaped(g, v) && x < |v.inodes| && Mapped(g, v, x)
    ensures src[..0] == []
    ensures ChunkedTo(g, v, v, x, off, 0, |src|)
  {
    if off <= MAXFILE * BSIZE {
      NoProgress(g, v, x, off, {});
    }
  }

  lemma ChunkSize(n: nat, i: nat, n1: nat)
    requires i < n && n1 == Min(n - i, CHUNK)
    ensures 0 < n1 <= 3 * BSIZE && i + n1 <= n && (i + n1 == n || n1 == CHUNK)
  {
  }

  lemma ChunksDone(g: Geometry, w: Vol, v: Vol, x: nat, off: nat, n: nat, good: nat)
    requires ChunkedTo(g, w, v, x, off, n, n) && n <= good
    ensures ChunksEnd(RoomFor(g, w, x, off, n), good, off, n, n)
            && !LeavesStray(g, w, x, off, good, RoomFor(g, w, x, off, n))
  {
  }

  /** writei refuses a chunk that filewrite does not get to ask for. */
  lemma ChunkRefused(g: Geometry, w: Vol, u: Vol, x: nat, off: nat, i: nat, n1: nat, n: nat, good: nat)
    requires ChunkedTo(g, w, u, x, off, i, n) && i < n && n1 == Min(n - i, CHUNK) && i <= good
    requires off + i > u.inodes[x].size || off + i + n1 > MAXFILE * BSIZE
    ensures var q := RoomFor(g, w, x, off, n); ChunksEnd(q, good, off, i, i) && !LeavesStray(g, w, x, off, good, q)
  {
    hide SpaceFor, Taken, BlockOf;
    AskedNoMore(off, i, n1, n, w.inodes[x].size);
  }

  lemma AskedNoMore(off: nat, i: nat, n1: nat, n: nat, size: nat)
    requires i < n && n1 == Min(n - i, CHUNK) && i % CHUNK == 0 && size <= MAXFILE * BSIZE && i <= Asked(off, n, size)
    requires (i == 0 && off > size) || off + i + n1 > MAXFILE * BSIZE
    ensures Asked(off, n, size) == i
  {
  }

  lemma AskedMore(off: nat, i: nat, n1: nat, n: nat, size: nat)
    requires i < n && n1 == Min(n - i, CHUNK) && i % CHUNK == 0 && off <= size <= MAXFILE * BSIZE
    requires off + i + n1 <= MAXFILE * BSIZE
    ensures Asked(off, n, size) >= i + n1
  {
  }

  lemma ChunkOf(i: nat, n1: nat, good: nat)
    requires i % CHUNK == 0 && n1 <= CHUNK && i <= good < i + n1
    ensures ChunkStart(good) == i
  {
  }

  lemma ChunkNext(g: Geometry, w: Vol, u: Vol, x: nat, off: nat, i: nat, n1: nat, n: nat)
    requires ChunkedTo(g, w, u, x, off, i, n) && i < n && n1 == Min(n - i, CHUNK)
    requires off + i <= u.inodes[x].size && off + i + n1 <= MAXFILE * BSIZE
    ensures var p, q := SpaceFor(g, u, x, off + i, n1), RoomFor(g, w, x, off, n);
            if p == n1 then q >= i + n1 else q == i + p
    ensures (off + i) / BSIZE < MAXFILE && (off + i) % BSIZE != 0 ==> BlockOf(g, u, x, (off + i) / BSIZE) != 0
  {
    hide SpaceFor, Taken, BlockOf;
    AskedMore(off, i, n1, n, w.inodes[x].size);
    EnteredMapped(g, u, x, off, i);
    SpaceNext(g, w, u, x, off, i, n1, Asked(off, n, w.inodes[x].size));
  }

  /** A chunk that is written in full. */
  lemma ChunkWhole(g: Geometry, w: Vol, u: Vol, v: Vol, x: nat, off: nat, i: nat, n1: nat, n: nat, good: nat, done: nat)
    requires ChunkedTo(g, w, u, x, off, i, n) && i < n && n1 == Min(n - i, CHUNK) && i <= good
    requires off + i <= u.inodes[x].size && off + i + n1 <= MAXFILE * BSIZE
    requires Ends(SpaceFor(g, u, x, off + i, n1), good - i, off + i, n1, done)
    requires Shaped(g, v) && |v.inodes| == |u.inodes| && Mapped(g, v, x) && v.inodes[x].size >= off + i + n1
    requires Taken(g, u, v, x, (off + i) / BSIZE, Done(off + i, n1))
    ensures done == n1 && i + n1 <= good && ChunkedTo(g, w, v, x, off, i + n1, n)
    ensures StrayBlock(g, u, x, off + i, good - i, SpaceFor(g, u, x, off + i, n1), {}) == {}
  {
    hide SpaceFor, Taken, BlockOf, RoundsTo, StrayBlock, RoomFor, ChunkedTo, LeavesStray, Done, Mapped;
    ChunkNext(g, w, u, x, off, i, n1, n);
    RoundsShort(off + i, good - i, n1);
    ChunkStray(g, w, u, x, off, i, n1, n, good);
    ChunkOn(g, w, u, v, x, off, i, n1, n);
  }

  lemma ChunkOn(g: Geometry, w: Vol, u: Vol, v: Vol, x: nat, off: nat, i: nat, n1: nat, n: nat)
    requires ChunkedTo(g, w, u, x, off, i, n) && i < n && n1 == Min(n - i, CHUNK)
    requires off + i <= u.inodes[x].size && off + i + n1 <= MAXFILE * BSIZE && i + n1 <= RoomFor(g, w, x, off, n)
    requires Shaped(g, v) && |v.inodes| == |u.inodes| && Mapped(g, v, x) && v.inodes[x].size >= off + i + n1
    requires Taken(g, u, v, x, (off + i) / BSIZE, Done(off + i, n1))
    ensures ChunkedTo(g, w, v, x, off, i + n1, n)
  {
    hide Taken, BlockOf, RoomFor, Mapped, Done;
    ChunkSize(n, i, n1);
    EnteredMapped(g, u, x, off, i);
    TakenThen(g, w, u, v, x, off, i, n1);
    StillAligned(i, n1, n);
  }

  lemma StillAligned(i: nat, n1: nat, n: nat)
    requires i % CHUNK == 0 && (i + n1 == n || n1 == CHUNK)
    ensures i + n1 == n || (i + n1) % CHUNK == 0
  {
  }

  /** A chunk that is written in part. */
  lemma ChunkPart(g: Geometry, w: Vol, u: Vol, x: nat, off: nat, i: nat, n1: nat, n: nat, good: nat, r: nat, done: nat)
    requires ChunkedTo(g, w, u, x, off, i, n) && i < n && n1 == Min(n - i, CHUNK) && i <= good
    requires off + i <= u.inodes[x].size && off + i + n1 <= MAXFILE * BSIZE
    requires Ends(SpaceFor(g, u, x, off + i, n1), good - i, off + i, r, done) && r != n1
    ensures var p, q := SpaceFor(g, u, x, off + i, n1), RoomFor(g, w, x, off, n);
            && ChunksEnd(q, good, off, i + r, i + done)
            && |StrayBlock(g, u, x, off + i, good - i, p, {})| == One(LeavesStray(g, w, x, off, good, q))
  {
    hide SpaceFor, Taken, BlockOf, RoundsTo, StrayBlock, RoomFor, ChunkedTo, LeavesStray;
    ChunkNext(g, w, u, x, off, i, n1, n);
    ChunkAligned(g, w, u, x, off, i, n);
    if good < i + n1 {
      ChunkOf(i, n1, good);
    }
    ChunkStray(g, w, u, x, off, i, n1, n, good);
  }

  lemma ChunkAligned(g: Geometry, w: Vol, u: Vol, x: nat, off: nat, i: nat, n: nat)
    requires ChunkedTo(g, w, u, x, off, i, n) && i < n
    ensures i % CHUNK == 0
  {
  }

  lemma RoundsShort(off: nat, good: nat, n: nat)
    ensures good < n ==> RoundsTo(off, good) < n
  {
  }

  lemma EnteredMapped(g: Geometry, v: Vol, x: nat, off: nat, i: nat)
    requires Shaped(g, v) && x < |v.inodes| && Mapped(g, v, x) && off + i <= v.inodes[x].size
    ensures (off + i) / BSIZE < MAXFILE && (off + i) % BSIZE != 0 ==> BlockOf(g, v, x, (off + i) / BSIZE) != 0
  {
  }

  lemma ChunkStray(g: Geometry, w: Vol, u: Vol, x: nat, off: nat, i: nat, n1: nat, n: nat, good: nat)
    requires ChunkedTo(g, w, u, x, off, i, n) && i < n && n1 == Min(n - i, CHUNK) && i <= good
    requires off + i <= u.inodes[x].size && off + i + n1 <= MAXFILE * BSIZE
    requires var p, q := SpaceFor(g, u, x, off + i, n1), RoomFor(g, w, x, off, n);
             if p == n1 then q >= i + n1 else q == i + p
    ensures var p, q := SpaceFor(g, u, x, off + i, n1), RoomFor(g, w, x, off, n);
            var stray := StrayBlock(g, u, x, off + i, good - i, p, {});
            && (good >= i + n1 ==> stray == {})
            && (good < i + n1 || p < n1 ==> |stray| == One(LeavesStray(g, w, x, off, good, q)))
  {
    hide SpaceFor, RoomFor, Taken;
    if good < i + n1 {
      ChunkOf(i, n1, good);
      var b := (off + good) / BSIZE;
      if b < MAXFILE {
        StillMapped(g, w, u, x, off, i, n, b);
      }
    }
  }

  lemma StillMapped(g: Geometry, w: Vol, u: Vol, x: nat, off: nat, i: nat, n: nat, b: nat)
    requires ChunkedTo(g, w, u, x, off, i, n) && off <= MAXFILE * BSIZE && off / BSIZE <= b < MAXFILE
    ensures BlockOf(g, u, x, b) != 0 <==> BlockOf(g, w, x, b) != 0 || b < Done(off, i)
  {
  }

  lemma Joined(g: Geometry, w: Vol, u: Vol, v: Vol, x: nat, off: nat, src: Bytes, i: nat, r: nat)
    requires Shaped(g, w) && Shaped(g, u) && Shaped(g, v) && i + r <= |src|
    requires Wrote(g, w, u, x, off, src[..i]) && Wrote(g, u, v, x, off + i, src[i..i + r])
    ensures Wrote(g, w, v, x, off, src[..i + r])
  {
    WroteThen(g, w, u, v, x, off, src[..i], src[i..i + r]);
    assert src[..i] + src[i..i + r] == src[..i + r];
  }

  // ---- What a transaction owes the log ----

  /** BBLOCK: the bitmap block with the bit of block `b`. */
  function MapBlock(g: Geometry, b: int): int {
    b / BPB + g.bmapStart
  }

  /** IBLOCK: the block with inode `x`. */
  function InodeBlock(g: Geometry, x: nat): int {
    x / IPB + g.inodeStart
  }

  /** The inode blocks end before the bitmap begins. */
  ghost predicate InodesFit(g: Geometry, n: nat) {
    n == 0 || InodeBlock(g, n - 1) < g.bmapStart
  }

  /** Whatever the transaction has changed since `start` is in a block that it logged, or is a stray. */
  ghost predicate Recorded(g: Geometry, start: Vol, v: Vol, dinodes: seq<Inode>, logged: set<int>, stray: set<int>) {
    && |start.blocks| == |v.blocks| && |start.bitmap| == |v.bitmap| && |start.inodes| == |dinodes|
    && (forall b :: 0 <= b < |v.blocks| && v.blocks[b] != start.blocks[b] ==> b in logged || b in stray)
    && (forall b :: 0 <= b < |v.bitmap| && v.bitmap[b] != start.bitmap[b] ==> MapBlock(g, b) in logged)
    && (forall x :: 0 <= x < |dinodes| && dinodes[x] != start.inodes[x] ==> InodeBlock(g, x) in logged)
  }

  lemma RecordedBlock(g: Geometry, start: Vol, v: Vol, dinodes: seq<Inode>, logged: set<int>, stray: set<int>,
                      a: nat, c: Bytes, logged': set<int>, stray': set<int>)
    requires Recorded(g, start, v, dinodes, logged, stray) && a < |v.blocks| && logged <= logged' && stray <= stray'
    requires a in logged' || a in stray' || c == v.blocks[a]
    ensures Recorded(g, start, v.(blocks := v.blocks[a := c]), dinodes, logged', stray')
  {
  }

  lemma RecordedBit(g: Geometry, start: Vol, v: Vol, dinodes: seq<Inode>, logged: set<int>, stray: set<int>,
                    b: nat, on: bool)
    requires Recorded(g, start, v, dinodes, logged, stray) && b < |v.bitmap|
    ensures Recorded(g, start, v.(bitmap := v.bitmap[b := on]), dinodes, logged + {MapBlock(g, b)}, stray)
  {
  }

  lemma RecordedInode(g: Geometry, start: Vol, v: Vol, dinodes: seq<Inode>, logged: set<int>, stray: set<int>, x: nat,
                      d: Inode)
    requires Recorded(g, start, v, dinodes, logged, stray) && x < |dinodes|
    ensures Recorded(g, start, v, dinodes[x := d], logged + {InodeBlock(g, x)}, stray)
  {
  }

  lemma RecordedInCore(g: Geometry, start: Vol, v: Vol, dinodes: seq<Inode>, logged: set<int>, stray: set<int>,
                       inodes: seq<Inode>)
    requires Recorded(g, start, v, dinodes, logged, stray)
    ensures Recorded(g, start, v.(inodes := inodes), dinodes, logged, stray)
  {
  }

  lemma SliceMore(f: Bytes, off: nat, pos: nat, m: nat, k: nat)
    requires off <= pos && k <= m && pos + m <= |f|
    ensures f[off..pos] + f[pos..pos + m][..k] == f[off..pos + k]
  {
  }

  lemma SliceBytes(f: Bytes, n: nat, m: nat)
    requires n <= m <= |f| && AllBytes(f)
    ensures AllBytes(f[n..m])
  {
  }

  lemma SlicePrefix(f: Bytes, n: nat, m: nat, k: nat)
    requires k <= m && n + m <= |f|
    ensures f[n..n + m][..k] == f[n..n + k]
  {
  }

  lemma PrefixMore(f: Bytes, n: nat, m: nat, k: nat)
    requires k <= m && n + m <= |f|
    ensures f[..n] + f[n..n + m][..k] == f[..n + k]
  {
  }

  class FileSystem {
    const g: Geometry
    var v: Vol // the inodes here are the in-memory copies
    var dinodes: seq<Inode> // the copies on the disk
    ghost var owner: map<int, Slot>
    ghost var logged: set<int> // blocks logged in this transaction
    ghost var peak: int // the most that were logged before any log_write of it
    ghost var start: Vol // the volume when the transaction began, with the inodes of the disk
    ghost var stray: set<int> // blocks changed since, but not logged

    constructor (g: Geometry, v: Vol, ghost owner: map<int, Slot>)
      requires GoodGeometry(g) && Shaped(g, v) && Owned(g, v, owner, {}, {}) && AllMapped(g, v)
               && InodesFit(g, |v.inodes|)
      ensures Valid() && this.g == g && this.v == v && this.owner == owner && logged == {} && peak == 0
      ensures dinodes == v.inodes && stray == {}
    {
      this.g, this.v, this.owner, logged, peak, start, stray := g, v, owner, {}, 0, v, {};
      dinodes := v.inodes;
    }

    ghost predicate Valid()
      reads this
    {
      GoodGeometry(g) && Shaped(g, v) && Owned(g, v, owner, {}, {}) && AllMapped(g, v) && peak <= |logged|
      && InodesFit(g, |v.inodes|) && |dinodes| == |v.inodes| && Recorded(g, start, v, dinodes, logged, stray)
    }

    /** log_write, as far as the size of the transaction goes. */
    ghost method LogWrite(b: int)
      requires peak <= |logged|
      modifies `logged, `peak
      ensures logged == old(logged) + {b} && peak == Max(old(peak), |old(logged)|) && peak <= |logged|
    {
      peak := Max(peak, |logged|);
      logged := logged + {b};
      if b in old(logged) {
        assert logged == old(logged);
      }
    }

    /** balloc: the first free block, zeroed, or 0 if there is none. */
    method Balloc() returns (r: int)
      requires GoodGeometry(g) && Shaped(g, v) && v.bitmap[0] && peak <= |logged|
               && Recorded(g, start, v, dinodes, logged, stray)
      modifies `v, `logged, `peak
      ensures Recorded(g, start, v, dinodes, logged, stray)
      ensures r == 0 ==> v == old(v) && logged == old(logged) && peak == old(peak)
                         && forall b :: 0 <= b < g.size ==> v.bitmap[b]
      ensures r != 0 ==> 0 < r < g.size && !old(v).bitmap[r] && (forall b :: 0 <= b < r ==> old(v).bitmap[b])
                         && v == Marked(old(v), r)
                         && logged == old(logged) + {MapBlock(g, r), r} && old(peak) <= peak <= |logged|
    {
      var b := 0;
      while b < g.size
        invariant 0 <= b && v == old(v) && logged == old(logged) && peak == old(peak)
        invariant forall k :: 0 <= k < b && k < g.size ==> v.bitmap[k]
      {
        var bi := 0;
        while bi < BPB && b + bi < g.size
          invariant 0 <= bi <= BPB && v == old(v) && logged == old(logged) && peak == old(peak)
          invariant forall k :: 0 <= k < b + bi && k < g.size ==> v.bitmap[k]
        {
          if !v.bitmap[b + bi] {
            RecordedBit(g, start, v, dinodes, logged, stray, b + bi, true);
            v := v.(bitmap := v.bitmap[b + bi := true]);
            LogWrite(MapBlock(g, b + bi));
            Bzero(b + bi);
            return b + bi;
          }
          bi := bi + 1;
        }
        b := b + BPB;
      }
      r := 0;
    }

    method Bzero(b: nat)
      requires b < |v.blocks| && peak <= |logged| && Recorded(g, start, v, dinodes, logged, stray)
      modifies `v, `logged, `peak
      ensures Recorded(g, start, v, dinodes, logged, stray)
      ensures v == old(v).(blocks := old(v).blocks[b := Zeros()])
      ensures logged == old(logged) + {b} && old(peak) <= peak <= |logged|
    {
      RecordedBlock(g, start, v, dinodes, logged, stray, b, Zeros(), logged + {b}, stray);
      v := v.(blocks := v.blocks[b := Zeros()]);
      LogWrite(b);
    }

    /** bfree: never called for a free block. */
    method Bfree(b: nat) returns (panic: bool)
      requires b < |v.bitmap| && v.bitmap[b] && peak <= |logged| && Recorded(g, start, v, dinodes, logged, stray)
      modifies `v, `logged, `peak
      ensures Recorded(g, start, v, dinodes, logged, stray)
      ensures !panic && v == Cleared(old(v), b) && old(peak) <= peak <= |logged|
    {
      panic := !v.bitmap[b];
      if !panic {
        RecordedBit(g, start, v, dinodes, logged, stray, b, false);
        v := v.(bitmap := v.bitmap[b := false]);
        LogWrite(MapBlock(g, b));
      }
    }

    ghost predicate Unchanged(w: Vol, o: map<int, Slot>, l: set<int>, p: int)
      reads this
    {
      v == w && owner == o && logged == l && peak == p
    }

    method FillDirect(x: nat, i: nat) returns (r: int)
      requires Valid() && x < |v.inodes| && i < NDIRECT && v.inodes[x].addrs[i] == 0
      modifies `v, `owner, `logged, `peak
      ensures Valid()
      ensures r == 0 ==> Frees(v) == 0 && Unchanged(old(v), old(owner), old(logged), old(peak))
      ensures r != 0 ==> Frees(old(v)) == Frees(v) + 1 && r < g.size
      ensures r != 0 ==> Allocated(g, old(v), old(owner), v, r, Direct(x, i)) && old(peak) <= peak
                         && logged == old(logged) + {MapBlock(g, r), r}
                         && v.inodes[x].addrs[NDIRECT] == old(v).inodes[x].addrs[NDIRECT]
    {
      r := Balloc();
      if r == 0 {
        NoFrees(v);
      } else {
        OneTaken(old(v), v, r);
        AllocatedDirect(g, old(v), owner, x, i, r);
        RecordedInCore(g, start, v, dinodes, logged, stray, SetAddr(v, x, i, r).inodes);
        v := SetAddr(v, x, i, r);
        owner := owner[r := Direct(x, i)];
      }
    }

    method FillPointer(x: nat) returns (r: int)
      requires Valid() && x < |v.inodes| && v.inodes[x].addrs[NDIRECT] == 0
      modifies `v, `owner, `logged, `peak
      ensures Valid()
      ensures r == 0 ==> Frees(v) == 0 && Unchanged(old(v), old(owner), old(logged), old(peak))
      ensures r != 0 ==> Frees(old(v)) == Frees(v) + 1 && r < g.size
      ensures r != 0 ==> Allocated(g, old(v), old(owner), v, r, IndPtr(x)) && old(peak) <= peak
                         && logged == old(logged) + {MapBlock(g, r), r}
                         && v.inodes[x].addrs[NDIRECT] == r
    {
      r := Balloc();
      if r == 0 {
        NoFrees(v);
      } else {
        OneTaken(old(v), v, r);
        AllocatedPointer(g, old(v), owner, x, r);
        RecordedInCore(g, start, v, dinodes, logged, stray, SetAddr(v, x, NDIRECT, r).inodes);
        v := SetAddr(v, x, NDIRECT, r);
        owner := owner[r := IndPtr(x)];
      }
    }

    method FillEntry(x: nat, j: nat) returns (r: int)
      requires Valid() && x < |v.inodes| && j < NINDIRECT && v.inodes[x].addrs[NDIRECT] != 0
      requires Addr(g, v, Ind(x, j)) == 0
      modifies `v, `owner, `logged, `peak
      ensures Valid()
      ensures r == 0 ==> Frees(v) == 0 && Unchanged(old(v), old(owner), old(logged), old(peak))
      ensures r != 0 ==> Frees(old(v)) == Frees(v) + 1 && r < g.size
      ensures r != 0 ==> Allocated(g, old(v), old(owner), v, r, Ind(x, j)) && old(peak) <= peak
                         && logged == old(logged) + {MapBlock(g, r), r} + {v.inodes[x].addrs[NDIRECT]}
                         && v.inodes[x].addrs[NDIRECT] == old(v).inodes[x].addrs[NDIRECT]
    {
      r := Balloc();
      if r == 0 {
        NoFrees(v);
      } else {
        OneTaken(old(v), v, r);
        AllocatedEntry(g, old(v), owner, x, j, r);
        var p := v.inodes[x].addrs[NDIRECT];
        RecordedBlock(g, start, v, dinodes, logged, stray, p, SetEntry(v.blocks[p], j, r), logged + {p}, stray);
        v := v.(blocks := v.blocks[p := SetEntry(v.blocks[p], j, r)]);
        owner := owner[r := Ind(x, j)];
        LogWrite(p);
      }
    }

    /** The block numbers that a call of bmap adds to the transaction: bitmap blocks, the block itself
        and the indirect block. */
    ghost predicate Adds(l: set<int>, maps: set<int>, addr: int, x: nat)
      reads this
      requires Shaped(g, v) && x < |v.inodes|
    {
      && l <= logged <= l + maps + NonZero(addr) + NonZero(v.inodes[x].addrs[NDIRECT])
      && forall b :: b in maps ==> b < g.dataStart
    }

    lemma AddsNone(x: nat)
      requires Shaped(g, v) && x < |v.inodes|
      ensures forall addr :: Adds(logged, {}, addr, x)
    {
    }

    lemma AddsNew(l: set<int>, addr: int, x: nat)
      requires GoodGeometry(g) && Shaped(g, v) && x < |v.inodes| && 0 < addr < g.size
      requires logged == l + {MapBlock(g, addr), addr}
               || logged == l + {MapBlock(g, addr), addr} + {v.inodes[x].addrs[NDIRECT]}
      requires v.inodes[x].addrs[NDIRECT] != 0 || logged == l + {MapBlock(g, addr), addr}
      ensures Adds(l, {MapBlock(g, addr)}, addr, x) && addr in logged
    {
    }

    lemma AddsBoth(l: set<int>, mid: set<int>, p: int, maps: set<int>, addr: int, x: nat)
      requires GoodGeometry(g) && Shaped(g, v) && x < |v.inodes| && 0 < p == v.inodes[x].addrs[NDIRECT] < g.size
      requires mid == l + {MapBlock(g, p), p} && Adds(mid, maps, addr, x)
      ensures Adds(l, maps + {MapBlock(g, p)}, addr, x) && |maps + {MapBlock(g, p)}| <= |maps| + 1
    {
    }

    /** bmap: the block of a file's block number, allocated if need be; 0 if the disk is full.
        The contents of every file stay the same. */
    method Bmap(x: nat, n: nat) returns (addr: int, ghost maps: set<int>)
      requires Valid() && x < |v.inodes| && n < MAXFILE
      modifies `v, `owner, `logged, `peak
      ensures Valid() && SameFiles(g, old(v), v) && KeepsSlots(g, old(v), v) && old(peak) <= peak
      ensures addr == BlockOf(g, v, x, n) && Had(g, old(v), v, x, n, addr != 0)
      ensures n < NDIRECT ==> addr == v.inodes[x].addrs[n]
      ensures n >= NDIRECT && addr != 0 ==>
                var p := v.inodes[x].addrs[NDIRECT]; 0 < p < |v.blocks| && addr == Entry(v.blocks[p], n - NDIRECT)
      ensures BlockOf(g, old(v), x, n) != 0 ==> Unchanged(old(v), old(owner), old(logged), old(peak))
      ensures Adds(old(logged), maps, addr, x) && (BlockOf(g, old(v), x, n) == 0 && addr != 0 ==> addr in logged)
      ensures old(v).inodes[x].addrs[NDIRECT] in {0, v.inodes[x].addrs[NDIRECT]}
      ensures |maps| <= One(BlockOf(g, old(v), x, n) == 0 && addr != 0)
                        + One(old(v).inodes[x].addrs[NDIRECT] != v.inodes[x].addrs[NDIRECT])
    {
      if n < NDIRECT {
        addr, maps := BmapDirect(x, n);
      } else {
        addr, maps := BmapIndirect(x, n - NDIRECT);
      }
    }

    method BmapDirect(x: nat, i: nat) returns (addr: int, ghost maps: set<int>)
      requires Valid() && x < |v.inodes| && i < NDIRECT
      modifies `v, `owner, `logged, `peak
      ensures Valid() && SameFiles(g, old(v), v) && KeepsSlots(g, old(v), v) && old(peak) <= peak
      ensures addr == Addr(g, v, Direct(x, i)) && Had(g, old(v), v, x, i, addr != 0)
      ensures Addr(g, old(v), Direct(x, i)) != 0 || addr == 0 ==>
                Unchanged(old(v), old(owner), old(logged), old(peak)) && maps == {}
      ensures Adds(old(logged), maps, addr, x) && (Addr(g, old(v), Direct(x, i)) == 0 && addr != 0 ==> addr in logged)
      ensures v.inodes[x].addrs[NDIRECT] == old(v).inodes[x].addrs[NDIRECT]
      ensures |maps| <= 1
    {
      hide Had, Recorded, AllMapped, SameFiles, KeepsSlots, InodesFit, Owned, Entry, IsBlock, SameAddrs, Frees,
           FileSystem.Adds;
      AddsNone(x);
      Unmoved(g, v);
      maps := {};
      addr := v.inodes[x].addrs[i];
      if addr != 0 {
        HadAlready(g, v, x, i);
        return;
      }
      addr := FillDirect(x, i);
      if addr == 0 {
        HadNone(g, v, x, i);
      } else {
        maps := {MapBlock(g, addr)};
        AddsNew(old(logged), addr, x);
        HadNew(g, old(v), old(owner), v, x, i, addr);
      }
    }

    method BmapIndirect(x: nat, j: nat) returns (addr: int, ghost maps: set<int>)
      requires Valid() && x < |v.inodes| && j < NINDIRECT
      modifies `v, `owner, `logged, `peak
      ensures Valid() && SameFiles(g, old(v), v) && KeepsSlots(g, old(v), v) && old(peak) <= peak
      ensures addr == Addr(g, v, Ind(x, j)) && Had(g, old(v), v, x, NDIRECT + j, addr != 0)
      ensures Addr(g, old(v), Ind(x, j)) != 0 ==> Unchanged(old(v), old(owner), old(logged), old(peak))
      ensures Adds(old(logged), maps, addr, x) && (Addr(g, old(v), Ind(x, j)) == 0 && addr != 0 ==> addr in logged)
      ensures old(v).inodes[x].addrs[NDIRECT] in {0, v.inodes[x].addrs[NDIRECT]}
      ensures |maps| <= One(Addr(g, old(v), Ind(x, j)) == 0 && addr != 0)
                        + One(old(v).inodes[x].addrs[NDIRECT] != v.inodes[x].addrs[NDIRECT])
    {
      hide Had, Recorded, AllMapped, SameFiles, KeepsSlots, InodesFit, Owned, Entry, IsBlock, SameAddrs, Frees,
           FileSystem.Adds;
      AddsNone(x);
      Unmoved(g, v);
      if v.inodes[x].addrs[NDIRECT] != 0 {
        addr, maps := BmapEntry(x, j);
        return;
      }
      addr := 0;
      maps := {};
      var p := FillPointer(x);
      if p == 0 {
        HadNone(g, v, x, NDIRECT + j);
      } else {
        ghost var w, l := v, logged;
        addr, maps := BmapEntry(x, j);
        AddsBoth(old(logged), l, p, maps, addr, x);
        SameFilesTrans(g, old(v), w, v);
        KeepsTrans(g, old(v), w, v);
        HadBoth(g, old(v), old(owner), w, v, x, NDIRECT + j, p, addr != 0);
        maps := maps + {MapBlock(g, p)};
      }
    }

    method BmapEntry(x: nat, j: nat) returns (addr: int, ghost maps: set<int>)
      requires Valid() && x < |v.inodes| && j < NINDIRECT && v.inodes[x].addrs[NDIRECT] != 0
      modifies `v, `owner, `logged, `peak
      ensures Valid() && SameFiles(g, old(v), v) && KeepsSlots(g, old(v), v) && old(peak) <= peak
      ensures addr == Addr(g, v, Ind(x, j)) && Had(g, old(v), v, x, NDIRECT + j, addr != 0)
      ensures Addr(g, old(v), Ind(x, j)) != 0 || addr == 0 ==>
                Unchanged(old(v), old(owner), old(logged), old(peak)) && maps == {}
      ensures Adds(old(logged), maps, addr, x) && (Addr(g, old(v), Ind(x, j)) == 0 && addr != 0 ==> addr in logged)
      ensures v.inodes[x].addrs[NDIRECT] == old(v).inodes[x].addrs[NDIRECT]
      ensures |maps| <= 1
    {
      hide Had, Recorded, AllMapped, SameFiles, KeepsSlots, InodesFit, Owned, Entry, SameAddrs, Frees,
           FileSystem.Adds;
      SlotInRange(g, v, owner, {}, IndPtr(x));
      AddsNone(x);
      Unmoved(g, v);
      var p := v.inodes[x].addrs[NDIRECT];
      maps := {};
      addr := Entry(v.blocks[p], j);
      if addr != 0 {
        HadAlready(g, v, x, NDIRECT + j);
        return;
      }
      addr := FillEntry(x, j);
      if addr == 0 {
        HadNone(g, v, x, NDIRECT + j);
      } else {
        maps := {MapBlock(g, addr)};
        AddsNew(old(logged), addr, x);
        HadNew(g, old(v), old(owner), v, x, NDIRECT + j, addr);
      }
    }

    /** iupdate: copies the inode to the disk. */
    method Iupdate(x: nat)
      requires x < |v.inodes| == |dinodes| && peak <= |logged| && Recorded(g, start, v, dinodes, logged, stray)
      modifies `dinodes, `logged, `peak
      ensures Recorded(g, start, v, dinodes, logged, stray)
      ensures dinodes == old(dinodes)[x := v.inodes[x]]
      ensures logged == old(logged) + {InodeBlock(g, x)} && peak == Max(old(peak), |old(logged)|) && peak <= |logged|
    {
      RecordedInode(g, start, v, dinodes, logged, stray, x, v.inodes[x]);
      dinodes := dinodes[x := v.inodes[x]];
      LogWrite(InodeBlock(g, x));
    }

    /** One round of writei's loop: `data` lies within one block, and its first `good` bytes can be read.
        If the copy breaks off, what it copied stays in the buffer, which is not logged. */
    method WriteOne(x: nat, off: nat, data: Bytes, good: nat)
      returns (ok: bool, ghost p: nat, ghost addr: int, ghost maps: set<int>)
      requires Valid() && x < |v.inodes| && off / BSIZE < MAXFILE && off % BSIZE + |data| <= BSIZE
      requires AllBytes(data)
      modifies `v, `owner, `logged, `peak, `stray
      ensures Valid() && KeepsSlots(g, old(v), v) && SameSizes(old(v), v) && |v.inodes| == |old(v).inodes|
      ensures p == (if addr == 0 then 0 else Min(good, |data|)) && Wrote(g, old(v), v, x, off, data[..p])
      ensures addr == BlockOf(g, v, x, off / BSIZE) && Had(g, old(v), v, x, off / BSIZE, addr != 0)
      ensures ok <==> addr != 0 && good >= |data|
      ensures var b := BlockOf(g, old(v), x, off / BSIZE);
              stray == old(stray) + if 0 < good < |data| && b != 0 && b !in old(logged) then {b} else {}
      ensures !ok && BlockOf(g, old(v), x, off / BSIZE) != 0 ==> logged == old(logged)
      ensures Adds(old(logged), maps, addr, x)
      ensures old(v).inodes[x].addrs[NDIRECT] in {0, v.inodes[x].addrs[NDIRECT]}
      ensures |maps| <= One(BlockOf(g, old(v), x, off / BSIZE) == 0)
                        + One(old(v).inodes[x].addrs[NDIRECT] != v.inodes[x].addrs[NDIRECT])
    {
      hide Recorded, Owned, AllMapped, InodesFit, Wrote, Byte, BlockOf, KeepsSlots, SameSizes, SameFiles, SameAddrs,
           Had, Pointer,
           Min, NonZero;
      var a;
      a, maps := Bmap(x, off / BSIZE);
      addr, ok, p := a, a != 0 && good >= |data|, 0;
      if a == 0 {
        SizesKept(g, old(v), v);
        WroteNothing(g, old(v), v, x, off);
        assert data[..0] == [];
        return;
      }
      var n := Min(good, |data|);
      MinBound(good, |data|);
      p := n;
      ghost var u, l := v, logged;
      var part := data[..n];
      Splice(old(v), x, off, part, a, ok);
      AddsStill(old(logged), l, maps, addr, x, u);
      HadSame(g, old(v), u, v, x, off / BSIZE, true);
    }

    lemma AddsStill(l: set<int>, mid: set<int>, maps: set<int>, addr: int, x: nat, u: Vol)
      requires Shaped(g, u) && Shaped(g, v) && x < |v.inodes| && u.inodes == v.inodes && addr != 0
      requires l <= mid <= l + maps + NonZero(addr) + NonZero(u.inodes[x].addrs[NDIRECT])
      requires forall b :: b in maps ==> b < g.dataStart
      requires logged == mid || logged == mid + {addr}
      ensures Adds(l, maps, addr, x)
    {
    }

    /** The bytes go into the block; it is logged, or strays. */
    method Splice(ghost u: Vol, x: nat, off: nat, data: Bytes, a: int, log: bool)
      requires Valid() && Shaped(g, u) && SameFiles(g, u, v) && KeepsSlots(g, u, v) && x < |u.inodes|
      requires off / BSIZE < MAXFILE && off % BSIZE + |data| <= BSIZE && 0 != a == BlockOf(g, v, x, off / BSIZE)
      requires AllBytes(data)
      modifies `v, `logged, `peak, `stray
      ensures Valid() && KeepsSlots(g, u, v) && SameSizes(u, v) && v.inodes == old(v).inodes
              && Wrote(g, u, v, x, off, data)
      ensures BlockOf(g, v, x, off / BSIZE) == a && v.bitmap == old(v).bitmap && SameAddrs(g, old(v), v, {})
      ensures logged == old(logged) + if log then {a} else {}
      ensures stray == old(stray) + if !log && data != [] && a !in logged then {a} else {}
    {
      hide Recorded, Owned, AllMapped, Wrote, Byte, SameFiles, SameAddrs, KeepsSlots, SameSizes, BlockOf, AllBytes;
      ghost var more := if !log && data != [] && a !in logged then {a} else {};
      var bn, o := off / BSIZE, off % BSIZE;
      SplicedWrote(g, u, v, owner, x, off, data);
      var c := Spliced(v.blocks[a], o, data);
      SplicedKeeps(g, u, v, x, bn, a, c);
      assert data == [] ==> c == v.blocks[a];
      RecordedBlock(g, start, v, dinodes, logged, stray, a, c, if log then logged + {a} else logged, stray + more);
      v := v.(blocks := v.blocks[a := c]);
      stray := stray + more;
      if log {
        LogWrite(a);
      }
    }

    /** writei: puts `src` at `off`, block by block, until the disk is full or a copy from the user fails:
        the first `good` bytes of the source can be read. Returns the number of bytes in complete rounds;
        `e` is what reached the blocks. The two differ, and the last block is not logged, only if
        a copy breaks off inside a block. At most MAXOPBLOCKS blocks join the transaction if at most three
        blocks' worth is written. */
    method Writei(x: nat, src: Bytes, off: nat, good: nat) returns (r: int, ghost e: nat)
      requires Valid() && x < |v.inodes| && AllBytes(src)
      modifies `v, `dinodes, `owner, `logged, `peak, `stray
      ensures Valid()
      ensures r == -1 <==> off > old(v).inodes[x].size || off + |src| > MAXFILE * BSIZE
      ensures r == -1 ==> Unchanged(old(v), old(owner), old(logged), old(peak)) && stray == old(stray)
      ensures r != -1 ==> 0 <= r <= e <= |src| && Wrote(g, old(v), v, x, off, src[..e])
                          && Grown(old(v), v, x, off + r) && dinodes == old(dinodes)[x := v.inodes[x]]
                          && Ends(SpaceFor(g, old(v), x, off, |src|), good, off, r, e)
      ensures r != -1 && r == e ==> Mapped(g, old(v), x) && Mapped(g, v, x)
                                    && File(g, v, x) == Overwritten(File(g, old(v), x), off, src[..r])
      ensures r != -1 ==>
                var more := StrayBlock(g, old(v), x, off, good, SpaceFor(g, old(v), x, off, |src|), old(logged));
                stray == old(stray) + more && more !! logged
      ensures r == |src| ==> Taken(g, old(v), v, x, off / BSIZE, Done(off, |src|))
      ensures |src| <= 3 * BSIZE && old(peak) <= |old(logged)| ==>
                |logged| <= |old(logged)| + MAXOPBLOCKS && peak < |old(logged)| + MAXOPBLOCKS
    {
      hide Recorded, Owned, Wrote, Overwritten, Byte, File, SpaceFor, StrayBlock, Ends;
      e := 0;
      if off > v.inodes[x].size || off + |src| >= UINT_LIMIT {
        return -1, 0;
      }
      if off + |src| > MAXFILE * BSIZE {
        return -1, 0;
      }
      r, e := WriteLoop(x, src, off, good);
      var end := off + r;
      ghost var w, l := v, logged;
      Extend(x, end);
      TakenExtended(g, old(v), w, v, x, off, |src|, r);
      WroteSame(g, old(v), w, v, x, off, src[..e]);
      StrayIsData(g, old(v), old(owner), x, off, good, SpaceFor(g, old(v), x, off, |src|), old(logged),
                  InodeBlock(g, x));
      Iupdate(x);
      if r == e {
        WroteFile(g, old(v), v, x, off, src[..r]);
      }
    }

    /** The file reaches at least to `end`. */
    method Extend(x: nat, end: nat)
      requires Valid() && x < |v.inodes| && end <= MAXFILE * BSIZE
      requires forall n :: 0 <= n < MAXFILE && n * BSIZE < end ==> BlockOf(g, v, x, n) != 0
      modifies `v
      ensures Valid() && Grown(old(v), v, x, end) && SameContents(g, old(v), v) && v.bitmap == old(v).bitmap
      ensures forall n :: 0 <= n < MAXFILE ==> BlockOf(g, v, x, n) == BlockOf(g, old(v), x, n)
      ensures Pointer(g, v, x) == Pointer(g, old(v), x)
    {
      if end > v.inodes[x].size {
        ResizedOk(g, v, owner, x, end);
        RecordedInCore(g, start, v, dinodes, logged, stray, v.inodes[x := v.inodes[x].(size := end)]);
        v := v.(inodes := v.inodes[x := v.inodes[x].(size := end)]);
      }
    }

    method WriteLoop(x: nat, src: Bytes, off: nat, good: nat) returns (tot: int, ghost e: nat)
      requires Valid() && x < |v.inodes| && AllBytes(src)
      requires off <= v.inodes[x].size && off + |src| <= MAXFILE * BSIZE
      modifies `v, `owner, `logged, `peak, `stray
      ensures Valid() && SameSizes(old(v), v) && 0 <= tot <= e <= |src|
      ensures Wrote(g, old(v), v, x, off, src[..e])
      ensures var q := SpaceFor(g, old(v), x, off, |src|);
              && Ends(q, good, off, tot, e) && stray == old(stray) + StrayBlock(g, old(v), x, off, good, q, old(logged))
              && StrayBlock(g, old(v), x, off, good, q, old(logged)) !! logged
      ensures tot == |src| ==> Taken(g, old(v), v, x, off / BSIZE, Done(off, |src|))
      ensures forall n :: 0 <= n < MAXFILE && n * BSIZE < off + tot ==> BlockOf(g, v, x, n) != 0
      ensures |src| <= 3 * BSIZE ==> |logged| <= |old(logged)| + MAXOPBLOCKS - 1
    {
      hide Recorded, Owned, AllMapped, Wrote, Charged, KeepsSlots, Progress, SpaceFor, StrayBlock, Ends;
      tot, e := 0, 0;
      var t := 0;
      ghost var w, d, m, p0 := v, {}, {}, v.inodes[x].addrs[NDIRECT];
      ghost var mapped := off / BSIZE < MAXFILE && BlockOf(g, v, x, off / BSIZE) != 0;
      ReachedNothing(g, v, x, off);
      ChargedNothing(logged, p0, mapped);
      NoProgress(g, v, x, off, logged);
      assert src[..0] == [];
      while tot < |src|
        invariant Valid() && 0 <= tot == e <= |src| && Reached(g, w, v, x, off, src[..tot])
        invariant Charged(old(logged), logged, d, m, v.inodes[x].addrs[NDIRECT], p0, t, mapped)
        invariant (t == 0 ==> v == w) && InStep(off, tot, |src|, t, mapped) && tot <= good && stray == old(stray)
        invariant Progress(g, w, v, x, off, tot, logged, old(logged))
      {
        var ok;
        ok, tot, e, d, m := WriteRound(w, x, src, off, tot, t, good, old(logged), d, m, p0, mapped);
        t := t + 1;
        if !ok {
          break;
        }
      }
      if tot == |src| {
        LoopDone(w, x, off, |src|, good, old(logged));
      }
      if |src| <= 3 * BSIZE {
        Bill(old(logged), logged, d, m, v.inodes[x].addrs[NDIRECT], p0, t, mapped);
      }
    }

    lemma LoopDone(w: Vol, x: nat, off: nat, n: nat, good: nat, before: set<int>)
      requires off + n <= MAXFILE * BSIZE && Progress(g, w, v, x, off, n, logged, before) && n <= good
      ensures Taken(g, w, v, x, off / BSIZE, Done(off, n))
      ensures SpaceFor(g, w, x, off, n) == n && Ends(n, good, off, n, n)
              && StrayBlock(g, w, x, off, good, n, before) == {}
    {
      EndsAll(g, w, v, x, off, n, good, logged, before);
    }

    lemma Account(before: set<int>, l: set<int>, d: set<int>, m: set<int>, p: int, p0: int, t: nat, mapped: bool,
                  maps: set<int>, addr: int, x: nat, empty: bool)
      requires Shaped(g, v) && x < |v.inodes| && Charged(before, l, d, m, p, p0, t, mapped)
      requires Adds(l, maps, addr, x) && p in {0, v.inodes[x].addrs[NDIRECT]} && (empty ==> t > 0 || !mapped)
      requires |maps| <= One(empty) + One(p != v.inodes[x].addrs[NDIRECT])
      ensures Charged(before, logged, d + NonZero(addr), m + maps, v.inodes[x].addrs[NDIRECT], p0, t + 1, mapped)
    {
      ChargedMore(before, l, d, m, p, p0, t, mapped, logged, maps, addr, v.inodes[x].addrs[NDIRECT]);
    }

    /** One round, with the accounts. */
    method WriteRound(ghost w: Vol, x: nat, src: Bytes, off: nat, tot: nat, t: nat, good: nat, ghost before: set<int>,
                      ghost d: set<int>, ghost m: set<int>, ghost p0: int, ghost mapped: bool)
      returns (ok: bool, tot': nat, ghost e: nat, ghost d': set<int>, ghost m': set<int>)
      requires Valid() && x < |v.inodes| && tot < |src| && off + |src| <= MAXFILE * BSIZE && Shaped(g, w)
      requires AllBytes(src)
      requires Reached(g, w, v, x, off, src[..tot]) && tot <= good
      requires Charged(before, logged, d, m, v.inodes[x].addrs[NDIRECT], p0, t, mapped)
      requires InStep(off, tot, |src|, t, mapped) && (t == 0 ==> (mapped <==> BlockOf(g, v, x, off / BSIZE) != 0))
      requires off % BSIZE != 0 ==> mapped
      requires Progress(g, w, v, x, off, tot, logged, before)
      modifies `v, `owner, `logged, `peak, `stray
      ensures Valid() && |v.inodes| == |old(v).inodes|
      ensures (if ok then tot < tot' == e <= good else tot == tot' <= e) && e <= |src|
              && Reached(g, w, v, x, off, src[..e])
      ensures ok ==> InStep(off, tot', |src|, t + 1, mapped) && stray == old(stray)
                     && Progress(g, w, v, x, off, tot', logged, before)
      ensures !ok && |src| <= 3 * BSIZE ==> t + 1 <= 3 + One(mapped)
      ensures !ok ==> var q := SpaceFor(g, w, x, off, |src|);
                      && Ends(q, good, off, tot, e) && stray == old(stray) + StrayBlock(g, w, x, off, good, q, before)
                      && tot < |src| && StrayBlock(g, w, x, off, good, q, before) !! logged
      ensures Charged(before, logged, d', m', v.inodes[x].addrs[NDIRECT], p0, t + 1, mapped)
    {
      hide Ends, SpaceFor, StrayBlock, Progress, Taken, Had, Pointer, Edge, Reached, Recorded, Owned, AllMapped, Wrote,
           Charged, InStep, KeepsSlots, SameSizes, Min, NonZero, Mapped, AllBytes, One, BlockOf, FileSystem.Adds;
      var k := Min(|src| - tot, BSIZE - (off + tot) % BSIZE);
      NextStep(off, tot, |src|, t, mapped);
      var pos := off + tot;
      assert pos / BSIZE < MAXFILE;
      var part := src[tot..tot + k];
      SliceBytes(src, tot, tot + k);
      ghost var head := src[..tot];
      ghost var u, l := v, logged;
      ghost var p, addr, maps;
      ok, p, addr, maps := WriteOne(x, pos, part, good - tot);
      MinBound(good - tot, k);
      PrefixMore(src, tot, k, p);
      Account(before, l, d, m, u.inodes[x].addrs[NDIRECT], p0, t, mapped, maps, addr, x,
              BlockOf(g, u, x, pos / BSIZE) == 0);
      d', m' := d + NonZero(addr), m + maps;
      ReachedMore(g, w, u, v, x, off, head, pos, part[..p]);
      e := tot + p;
      if ok {
        tot' := tot + k;
        RoundDone(w, u, x, off, tot, k, l, before, maps);
        return;
      }
      tot' := tot;
      if addr == 0 {
        EndsFull(g, w, u, v, x, off, |src|, tot, good, l, before);
      } else {
        EndsBroken(g, w, u, v, x, off, |src|, tot, k, good, l, before);
      }
    }

    lemma RoundDone(w: Vol, u: Vol, x: nat, off: nat, tot: nat, k: nat, l: set<int>, before: set<int>, maps: set<int>)
      requires Valid() && x < |v.inodes| && off + tot < MAXFILE * BSIZE && Edge(off, tot) && k > 0
      requires (off + tot) % BSIZE + k <= BSIZE
      requires Progress(g, w, u, x, off, tot, l, before) && Had(g, u, v, x, (off + tot) / BSIZE, true)
      requires Adds(l, maps, BlockOf(g, v, x, (off + tot) / BSIZE), x)
      ensures Progress(g, w, v, x, off, tot + k, logged, before)
    {
      Progresses(g, w, u, v, owner, x, off, tot, k, l, logged, before, maps);
    }

    /** readi: the bytes of the file from `off` on, up to `n` of them. It never allocates. The user's memory takes
        `good` bytes: if that is too little, they are copied all the same, and the result is -1. */
    method Readi(x: nat, off: nat, n: nat, good: nat) returns (r: int, dst: Bytes)
      requires Valid() && x < |v.inodes|
      modifies `v, `owner, `logged, `peak
      ensures Valid() && Unchanged(old(v), old(owner), old(logged), old(peak))
      ensures off > v.inodes[x].size || off + n >= UINT_LIMIT ==> r == 0 && dst == []
      ensures off <= v.inodes[x].size && off + n < UINT_LIMIT ==>
                && v.inodes[x].size <= MAXFILE * BSIZE
                && var count := Min(n, v.inodes[x].size - off);
                   && r == (if good < count then -1 else count)
                   && dst == File(g, v, x)[off..off + Min(good, count)]
    {
      hide Recorded, Owned, File, BlockOf;
      r, dst := 0, [];
      if off > v.inodes[x].size || off + n >= UINT_LIMIT {
        return;
      }
      assert Mapped(g, v, x);
      var count := Min(n, v.inodes[x].size - off);
      ghost var f := File(g, v, x);
      while r < count
        invariant 0 <= r <= count && r <= good && Valid() && dst == f[off..off + r]
        invariant Unchanged(old(v), old(owner), old(logged), old(peak))
      {
        var pos := off + r;
        var m := Min(count - r, BSIZE - pos % BSIZE);
        var part := ReadOne(x, pos, m);
        var k := Min(good - r, m);
        MinBound(good - r, m);
        SliceMore(f, off, pos, m, k);
        dst := dst + part[..k];
        if k < m {
          assert off + good == pos + k;
          return -1, dst;
        }
        r := r + m;
      }
    }

    /** One round of readi's loop. The block is mapped, so bmap allocates nothing. */
    method ReadOne(x: nat, pos: nat, m: nat) returns (part: Bytes)
      requires Valid() && x < |v.inodes| && m > 0 && pos + m <= v.inodes[x].size && pos % BSIZE + m <= BSIZE
      modifies `v, `owner, `logged, `peak
      ensures Valid() && Unchanged(old(v), old(owner), old(logged), old(peak))
      ensures v.inodes[x].size <= MAXFILE * BSIZE && part == File(g, v, x)[pos..pos + m]
    {
      FileSlice(g, v, owner, x, pos, m);
      var addr;
      ghost var maps;
      addr, maps := Bmap(x, pos / BSIZE);
      var o := pos % BSIZE;
      part := v.blocks[addr][o..o + m];
    }

    /** itrunc's first loop: the direct blocks. */
    method DropDirects(x: nat)
      requires Valid() && x < |v.inodes|
      modifies `v, `owner, `logged, `peak
      ensures Cutting(g, old(v), old(owner), v, owner, x, DirectsTo(x, NDIRECT), {})
      ensures EmptyTo(old(v).inodes[x], v.inodes[x], NDIRECT) && peak <= |logged|
              && Recorded(g, start, v, dinodes, logged, stray)
    {
      var i := 0;
      ghost var w, o := v, owner;
      assert Without(o, DirectsTo(x, 0)) == o;
      while i < NDIRECT
        invariant 0 <= i <= NDIRECT && Cutting(g, w, o, v, owner, x, DirectsTo(x, i), {})
        invariant EmptyTo(w.inodes[x], v.inodes[x], i) && peak <= |logged|
                  && Recorded(g, start, v, dinodes, logged, stray)
      {
        CutDirect(g, w, o, v, owner, x, i);
        if v.inodes[x].addrs[i] != 0 {
          var a := v.inodes[x].addrs[i];
          var _ := Bfree(a);
          RecordedInCore(g, start, v, dinodes, logged, stray, SetAddr(v, x, i, 0).inodes);
          v := SetAddr(v, x, i, 0);
          owner := owner - {a};
        }
        i := i + 1;
      }
    }

    /** itrunc's second loop: the entries of the indirect block. */
    method DropEntries(x: nat, ghost w: Vol, ghost o: map<int, Slot>)
      requires Cutting(g, w, o, v, owner, x, DirectsTo(x, NDIRECT), {}) && peak <= |logged|
               && Recorded(g, start, v, dinodes, logged, stray)
      requires 0 < v.inodes[x].addrs[NDIRECT] < g.size
      modifies `v, `owner, `logged, `peak
      ensures Cutting(g, w, o, v, owner, x, DirectsTo(x, NDIRECT) + EntriesTo(x, NINDIRECT), EntriesTo(x, NINDIRECT))
      ensures v.inodes == old(v).inodes && peak <= |logged| && Recorded(g, start, v, dinodes, logged, stray)
    {
      hide Owned, Recorded, Without, IsBlock;
      var p := v.inodes[x].addrs[NDIRECT];
      var j := 0;
      assert EntriesTo(x, 0) == {};
      assert DirectsTo(x, NDIRECT) + {} == DirectsTo(x, NDIRECT);
      while j < NINDIRECT
        invariant 0 <= j <= NINDIRECT && v.inodes == old(v).inodes && peak <= |logged|
        invariant Recorded(g, start, v, dinodes, logged, stray)
        invariant Cutting(g, w, o, v, owner, x, DirectsTo(x, NDIRECT) + EntriesTo(x, j), EntriesTo(x, j))
      {
        DropEntry(x, j, p, w, o);
        j := j + 1;
      }
    }

    method DropEntry(x: nat, j: nat, p: int, ghost w: Vol, ghost o: map<int, Slot>)
      requires Cutting(g, w, o, v, owner, x, DirectsTo(x, NDIRECT) + EntriesTo(x, j), EntriesTo(x, j)) && j < NINDIRECT
      requires x < |v.inodes| && |v.inodes[x].addrs| == NDIRECT + 1 && 0 < p == v.inodes[x].addrs[NDIRECT] < g.size
      requires peak <= |logged| && Recorded(g, start, v, dinodes, logged, stray)
      modifies `v, `owner, `logged, `peak
      ensures Cutting(g, w, o, v, owner, x, DirectsTo(x, NDIRECT) + EntriesTo(x, j + 1), EntriesTo(x, j + 1))
      ensures v.inodes == old(v).inodes && peak <= |logged| && Recorded(g, start, v, dinodes, logged, stray)
    {
      hide Owned, Recorded, Without, EntriesTo, DirectsTo;
      CutEntry(g, w, o, v, owner, x, j);
      var a := Entry(v.blocks[p], j);
      if a != 0 {
        var _ := Bfree(a);
        owner := owner - {a};
      }
    }

    /** itrunc: the file is empty, its blocks, and only those, are free, and no other file changes. */
    method Itrunc(x: nat)
      requires Valid() && x < |v.inodes|
      modifies `v, `dinodes, `owner, `logged, `peak
      ensures Valid() && v.blocks == old(v).blocks && v.inodes == old(v).inodes[x := NO_BLOCKS]
      ensures forall b :: b in owner <==> b in old(owner) && old(owner)[b].x != x
      ensures dinodes == old(dinodes)[x := NO_BLOCKS]
    {
      ghost var w, o := v, owner;
      DropDirects(x);
      DropIndirect(x, w, o);
      Emptied(g, w, o, v, owner, x);
      RecordedInCore(g, start, v, dinodes, logged, stray, v.inodes[x := v.inodes[x].(size := 0)]);
      v := v.(inodes := v.inodes[x := v.inodes[x].(size := 0)]);
      Iupdate(x);
    }

    method DropIndirect(x: nat, ghost w: Vol, ghost o: map<int, Slot>)
      requires Cutting(g, w, o, v, owner, x, DirectsTo(x, NDIRECT), {}) && EmptyTo(w.inodes[x], v.inodes[x], NDIRECT)
      requires peak <= |logged| && Recorded(g, start, v, dinodes, logged, stray)
      modifies `v, `owner, `logged, `peak
      ensures Cutting(g, w, o, v, owner, x, SlotsOf(x), {}) && peak <= |logged|
              && Recorded(g, start, v, dinodes, logged, stray)
      ensures |v.inodes[x].addrs| == NDIRECT + 1 && forall k :: 0 <= k <= NDIRECT ==> v.inodes[x].addrs[k] == 0
    {
      if v.inodes[x].addrs[NDIRECT] == 0 {
        CutNoPointer(g, w, o, v, owner, x);
        return;
      }
      SlotInRange(g, v, owner, {}, IndPtr(x));
      DropEntries(x, w, o);
      CutPointer(g, w, o, v, owner, x);
      var p := v.inodes[x].addrs[NDIRECT];
      var _ := Bfree(p);
      RecordedInCore(g, start, v, dinodes, logged, stray, SetAddr(v, x, NDIRECT, 0).inodes);
      v := SetAddr(v, x, NDIRECT, 0);
      owner := owner - {p};
    }

    /** A new transaction starts with nothing logged. */
    ghost method BeginOp()
      requires Valid()
      modifies `logged, `peak, `start, `stray
      ensures Valid() && logged == {} && peak == 0 && stray == {}
      ensures start == v.(inodes := dinodes)
    {
      logged, peak, start, stray := {}, 0, v.(inodes := dinodes), {};
    }

    /** filewrite on an inode: chunks of three blocks, each in a transaction of its own. No transaction logs more
        than MAXOPBLOCKS blocks, nor calls log_write once it has logged that many. With room for `q` bytes, exactly
        those that can be read of them reach the file, and the offset moves past what was written in complete
        rounds; -1 is returned unless that is everything. */
    method FileWrite(x: nat, off: nat, src: Bytes, good: nat)
      returns (ret: int, off': nat, ghost e: nat, ghost ops: seq<(int, int)>)
      requires Valid() && x < |v.inodes| && AllBytes(src)
      modifies `v, `dinodes, `owner, `logged, `peak, `start, `stray
      ensures Valid() && Mapped(g, old(v), x) && e <= |src| && off <= off' <= off + e
      ensures forall i :: 0 <= i < |ops| ==> ops[i].0 <= MAXOPBLOCKS && ops[i].1 < MAXOPBLOCKS
      ensures Wrote(g, old(v), v, x, off, src[..e])
      ensures ChunksEnd(RoomFor(g, old(v), x, off, |src|), good, off, off' - off, e)
      ensures ret == if off' == off + |src| then |src| else -1
      ensures src != [] ==> |stray| == One(LeavesStray(g, old(v), x, off, good, RoomFor(g, old(v), x, off, |src|)))
    {
      hide Recorded, Owned, Wrote, Taken, RoomFor, ChunksEnd, LeavesStray;
      InOrder(x);
      var i := 0;
      off', e, ops := off, 0, [];
      ghost var w := v;
      WroteNothing(g, w, v, x, off);
      ChunksBegin(g, v, x, off, src);
      var ok := true;
      while ok && i < |src|
        invariant Valid() && 0 <= i <= |src| && off' == off + i && |v.inodes| == |w.inodes|
        invariant ok ==> i == e <= good && Wrote(g, w, v, x, off, src[..i]) && ChunkedTo(g, w, v, x, off, i, |src|)
        invariant ok && i > 0 ==> stray == {} && i <= good
        invariant !ok ==> i <= e <= |src| && Wrote(g, w, v, x, off, src[..e])
                          && ChunksEnd(RoomFor(g, w, x, off, |src|), good, off, i, e)
                          && |stray| == One(LeavesStray(g, w, x, off, good, RoomFor(g, w, x, off, |src|)))
        invariant forall k :: 0 <= k < |ops| ==> ops[k].0 <= MAXOPBLOCKS && ops[k].1 < MAXOPBLOCKS
        decreases ok, |src| - i
      {
        var n1 := Min(|src| - i, CHUNK);
        ghost var op;
        ok, i, e, op := WriteChunk(w, x, off, src, i, n1, good);
        off' := off + i;
        ops := ops + [op];
      }
      if ok {
        ChunksDone(g, w, v, x, off, |src|, good);
      }
      ret := if i == |src| then |src| else -1;
    }

    lemma InOrder(x: nat)
      requires Valid() && x < |v.inodes|
      ensures Shaped(g, v) && Mapped(g, v, x)
    {
    }

    /** One transaction of filewrite. */
    method WriteChunk(ghost w: Vol, x: nat, off: nat, src: Bytes, i: nat, n1: nat, good: nat)
      returns (ok: bool, i': nat, ghost e: nat, ghost op: (int, int))
      requires Valid() && x < |v.inodes| && Shaped(g, w) && i < |src| && n1 == Min(|src| - i, CHUNK) && i <= good
      requires AllBytes(src) && Wrote(g, w, v, x, off, src[..i]) && ChunkedTo(g, w, v, x, off, i, |src|)
      modifies `v, `dinodes, `owner, `logged, `peak, `start, `stray
      ensures Valid() && |v.inodes| == |old(v).inodes|
      ensures i <= i' <= e <= |src| && Wrote(g, w, v, x, off, src[..e])
      ensures ok ==> i' == e == i + n1 <= good && ChunkedTo(g, w, v, x, off, i', |src|) && stray == {}
      ensures !ok ==> ChunksEnd(RoomFor(g, w, x, off, |src|), good, off, i', e)
                      && |stray| == One(LeavesStray(g, w, x, off, good, RoomFor(g, w, x, off, |src|)))
      ensures op.0 <= MAXOPBLOCKS && op.1 < MAXOPBLOCKS
    {
      hide Recorded, Owned, AllMapped, Wrote, Overwritten, File, BlockOf, ChunkedTo, ChunksEnd, RoomFor,
           SpaceFor, StrayBlock, LeavesStray, Ends, Taken, Min;
      InOrder(x);
      BeginOp();
      ghost var u := v;
      ChunkSize(|src|, i, n1);
      var part := src[i..i + n1];
      SliceBytes(src, i, i + n1);
      var pos := off + i;
      var r;
      ghost var done;
      r, done := Writei(x, part, pos, good - i);
      op := (|logged|, peak);
      ok := r == n1;
      if r == -1 {
        i', e := i, i;
        ChunkRefused(g, w, u, x, off, i, n1, |src|, good);
        return;
      }
      SlicePrefix(src, i, n1, done);
      Joined(g, w, u, v, x, off, src, i, done);
      i', e := i + r, i + done;
      InOrder(x);
      assert stray == StrayBlock(g, u, x, pos, good - i, SpaceFor(g, u, x, pos, n1), {});
      if ok {
        ChunkWhole(g, w, u, v, x, off, i, n1, |src|, good, done);
      } else {
        ChunkPart(g, w, u, x, off, i, n1, |src|, good, r, done);
      }
    }
  }

  // ---- A write that breaks off ----

  /** One file of one block, which is block 2. */
  const SMALL := Geometry(3, 0, 1, 2)

  function SmallVol(): Vol {
    Vol([true, true, true], [Zeros(), Zeros(), Zeros()], [Inode([2] + seq(NDIRECT, _ => 0), BSIZE)])
  }

  lemma SmallVolume()
    ensures GoodGeometry(SMALL) && Shaped(SMALL, SmallVol()) && Owned(SMALL, SmallVol(), map[2 := Direct(0, 0)], {}, {})
    ensures AllMapped(SMALL, SmallVol()) && BlockOf(SMALL, SmallVol(), 0, 0) == 2
    ensures |SmallVol().inodes| == 1 && SmallVol().inodes[0].size == BSIZE
  {
    var v := SmallVol();
    assert OwnedBy(SMALL, v, 2, Direct(0, 0), {});
    forall s | IsSlot(s, |v.inodes|) && Addr(SMALL, v, s) != 0 ensures s == Direct(0, 0) {
      match s case Direct(_, i) => case IndPtr(_) => case Ind(_, j) =>
    }
    assert BlockOf(SMALL, v, 0, 0) == 2;
  }

  /** Two bytes are to be written at the start of the file, and only the first can be read: writei returns 0, the file
      has changed, and its block is not logged. */
  method BreaksOff() returns (fs: FileSystem, r: int)
    ensures fs.Valid() && r == 0 && fs.g == SMALL && fs.stray == {2} && 2 !in fs.logged && |fs.v.inodes| == 1
            && Byte(SMALL, fs.v, 0, 0, 0) == 7
  {
    hide SpaceFor, Recorded, Taken, Overwritten, File, SmallVol;
    SmallVolume();
    var v := SmallVol();
    fs := new FileSystem(SMALL, v, map[2 := Direct(0, 0)]);
    MappedSpace(SMALL, v, 0, 0, 2);
    ghost var e;
    r, e := fs.Writei(0, [7, 7], 0, 1);
    assert [7, 7][..1] == [7];
  }
}
