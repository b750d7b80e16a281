/** The buffer cache of kernel/bio.c over one disk. */
module Bio {
  import opened Common

  const NBUF := 30
  const ROOTDEV := 1
  const BLOCK_WORDS := 256

  type Block = seq<int>
  type Disk = seq<Block>

  datatype Buf = Buf(valid: bool, dev: nat, blockno: nat, locked: bool, refcnt: int, data: Block)

  const ZEROED := Buf(false, 0, 0, false, 0, [])

  predicate Caches(f: Buf, blockno: nat) {
    f.dev == ROOTDEV && f.blockno == blockno
  }

  // ---- The invariant, one part at a time ----

  ghost predicate Listed(bufs: map<int, Buf>, lru: seq<int>) {
    && (forall i :: 0 <= i < |lru| ==> lru[i] in bufs)
    && (forall b :: b in bufs ==> b in lru)
  }

  /** The list holds every buffer once. */
  ghost predicate ListOk(bufs: map<int, Buf>, lru: seq<int>, count: int) {
    && Distinct(lru)
    && Listed(bufs, lru)
    && (forall b :: b in bufs ==> 0 <= b)
    && count == |lru|
  }

  /** At most one buffer caches a block: the one that `at` names. */
  ghost predicate KeysOk(bufs: map<int, Buf>, at: map<nat, int>, blocks: nat) {
    && (forall n :: n in at ==> n < blocks && at[n] in bufs && Caches(bufs[at[n]], n))
    && (forall b :: b in bufs && bufs[b].dev == ROOTDEV ==> bufs[b].blockno in at && at[bufs[b].blockno] == b)
  }

  /** A buffer's count is its users plus one if it is pinned, and its lock is held by a user. */
  ghost predicate CountOk(f: Buf, n: nat, users: seq<nat>, held: set<nat>, pins: set<nat>) {
    && n < |users|
    && f.refcnt == users[n] + One(n in pins)
    && (f.locked <==> n in held)
    && (n in held ==> users[n] > 0)
    && (n in pins ==> f.valid)
  }

  ghost predicate CountsOk(bufs: map<int, Buf>, at: map<nat, int>, users: seq<nat>, held: set<nat>, pins: set<nat>) {
    && (forall n :: n in at ==> at[n] in bufs && CountOk(bufs[at[n]], n, users, held, pins))
    && (forall n :: 0 <= n < |users| && n !in at ==> users[n] == 0)
    && (forall n :: n in held || n in pins ==> n in at)
    && (forall b :: b in bufs && bufs[b].dev != ROOTDEV ==> bufs[b].refcnt == 0 && !bufs[b].locked)
  }

  /** A buffer nobody refers to agrees with the disk. */
  ghost predicate CleanOk(bufs: map<int, Buf>, at: map<nat, int>, disk: Disk) {
    && (forall n :: 0 <= n < |disk| ==> |disk[n]| == BLOCK_WORDS)
    && (forall n :: n in at && at[n] in bufs && bufs[at[n]].valid ==>
          n < |disk| && |bufs[at[n]].data| == BLOCK_WORDS
          && (bufs[at[n]].refcnt == 0 ==> bufs[at[n]].data == disk[n]))
  }

  /** The current contents of a block: the cached copy, or the disk's if there is none. */
  ghost function Value(bufs: map<int, Buf>, at: map<nat, int>, disk: Disk, n: nat): Block
    requires n < |disk|
  {
    if n in at && at[n] in bufs && bufs[at[n]].valid then bufs[at[n]].data else disk[n]
  }

  ghost predicate SameValues(bufs: map<int, Buf>, at: map<nat, int>, disk: Disk,
                             bufs': map<int, Buf>, at': map<nat, int>, disk': Disk) {
    |disk'| == |disk| && forall n :: 0 <= n < |disk| ==> Value(bufs', at', disk', n) == Value(bufs, at, disk, n)
  }

  ghost function ViewOf(bufs: map<int, Buf>, at: map<nat, int>, disk: Disk): (v: Disk)
    ensures |v| == |disk|
    ensures forall n :: 0 <= n < |v| ==> v[n] == Value(bufs, at, disk, n)
  {
    seq(|disk|, n requires 0 <= n < |disk| => Value(bufs, at, disk, n))
  }

  /** Two buffers never cache the same block. */
  lemma OneBuffer(bufs: map<int, Buf>, at: map<nat, int>, blocks: nat, b: int, c: int)
    requires KeysOk(bufs, at, blocks) && b in bufs && c in bufs
    requires bufs[b].dev == ROOTDEV == bufs[c].dev && bufs[b].blockno == bufs[c].blockno
    ensures b == c
  {
  }

  // ---- Searching the list ----

  /** The buffer that caches block `n`, or -1. */
  method Find(bufs: map<int, Buf>, lru: seq<int>, n: nat, ghost at: map<nat, int>, ghost blocks: nat) returns (b: int)
    requires KeysOk(bufs, at, blocks) && Listed(bufs, lru)
    requires -1 !in bufs
    ensures b != -1 <==> n in at
    ensures b != -1 ==> b == at[n]
  {
    var i := 0;
    while i < |lru|
      invariant 0 <= i <= |lru|
      invariant forall j :: 0 <= j < i ==> lru[j] in bufs && !Caches(bufs[lru[j]], n)
    {
      if Caches(bufs[lru[i]], n) {
        return lru[i];
      }
      i := i + 1;
    }
    b := -1;
    if n in at {
      var j :| 0 <= j < |lru| && lru[j] == at[n];
      assert false;
    }
  }

  ghost predicate AllUsed(bufs: map<int, Buf>) {
    forall b :: b in bufs ==> bufs[b].refcnt != 0
  }

  /** The least recently used of the buffers that nobody refers to. */
  ghost predicate LastUnused(bufs: map<int, Buf>, lru: seq<int>, b: int) {
    exists i :: 0 <= i < |lru| && b == lru[i] && b in bufs && bufs[b].refcnt == 0
                && forall j :: i < j < |lru| ==> lru[j] in bufs && bufs[lru[j]].refcnt != 0
  }

  /** Searches for an unused buffer from the least recently used end; -1 if there is none. */
  method FindUnused(bufs: map<int, Buf>, lru: seq<int>) returns (b: int)
    requires Listed(bufs, lru)
    requires -1 !in bufs
    ensures b == -1 <==> AllUsed(bufs)
    ensures b != -1 ==> LastUnused(bufs, lru, b) && b in bufs && bufs[b].refcnt == 0
  {
    var k := |lru|;
    while k > 0
      invariant 0 <= k <= |lru|
      invariant forall j :: k <= j < |lru| ==> lru[j] in bufs && bufs[lru[j]].refcnt != 0
    {
      k := k - 1;
      if bufs[lru[k]].refcnt == 0 {
        return lru[k];
      }
    }
    b := -1;
  }

  /** There is always an address that is not in use. */
  lemma Unused(s: set<int>)
    ensures exists b :: b >= 0 && b !in s
  {
    var b := Above(s);
    assert b !in s;
  }

  lemma {:induction false} Above(s: set<int>) returns (b: int)
    ensures b >= 0 && forall x :: x in s ==> x < b
    decreases |s|
  {
    if exists x :: x in s {
      var x :| x in s;
      b := Above(s - {x});
      b := if x < b then b else x + 1;
      forall y | y in s ensures y < b {
        assert y == x || y in s - {x};
      }
    } else {
      b := 0;
    }
  }

  // ---- Taking buffers off the list ----

  lemma PushList(lru: seq<int>, b: int)
    requires Distinct(lru) && b !in lru
    ensures Distinct([b] + lru)
  {
  }

  /** The position of a buffer on the list. */
  method IndexOf(lru: seq<int>, b: int) returns (i: nat)
    requires b in lru
    ensures i < |lru| && lru[i] == b
  {
    i := 0;
    while lru[i] != b
      invariant i < |lru| && b in lru[i..]
      decreases |lru| - i
    {
      i := i + 1;
    }
  }

  /** The list without a buffer, in the same order. */
  function Others(lru: seq<int>, b: int): (rest: seq<int>) {
    if lru == [] then [] else (if lru[0] == b then [] else [lru[0]]) + Others(lru[1..], b)
  }

  lemma {:induction false} OthersOf(lru: seq<int>, b: int)
    requires b !in lru
    ensures Others(lru, b) == lru
  {
    if lru != [] {
      OthersOf(lru[1..], b);
    }
  }

  lemma {:induction false} OthersAt(lru: seq<int>, i: nat)
    requires i < |lru| && Distinct(lru)
    ensures Others(lru, lru[i]) == RemoveAt(lru, i)
  {
    var b, rest := lru[i], lru[1..];
    if i == 0 {
      OthersOf(rest, b);
    } else {
      OthersAt(rest, i - 1);
      assert lru[0] != b && RemoveAt(lru, i) == [lru[0]] + RemoveAt(rest, i - 1);
    }
  }

  /** From the far end of a list unused buffers are gone, as long as more than NBUF are left; buffer `b` stays. */
  ghost predicate Trimmed(bufs: map<int, Buf>, list: seq<int>, lru: seq<int>, b: int) {
    && lru <= list && |lru| > 0
    && (forall i :: |lru| <= i < |list| ==> list[i] != b && list[i] in bufs && bufs[list[i]].refcnt == 0)
    && (|lru| < |list| ==> |lru| >= NBUF)
    && (|lru| > NBUF ==> var t := lru[|lru| - 1]; t == b || (t in bufs && bufs[t].refcnt != 0))
  }

  /** How much is gone follows from that. */
  lemma TrimmedOnce(bufs: map<int, Buf>, list: seq<int>, l1: seq<int>, l2: seq<int>, b: int)
    requires Trimmed(bufs, list, l1, b) && Trimmed(bufs, list, l2, b)
    ensures l1 == l2
  {
    assert |l1| == |l2|;
  }

  /** The buffer released last is the last to be recycled. */
  lemma RecentStays(bufs: map<int, Buf>, b: int, rest: seq<int>, c: int, d: int)
    requires LastUnused(bufs, [b] + rest, c) && b !in rest && d in rest && d in bufs && bufs[d].refcnt == 0
    ensures c != b
  {
    var list := [b] + rest;
    var i :| 0 <= i < |list| && c == list[i] && c in bufs && bufs[c].refcnt == 0
             && forall j :: i < j < |list| ==> list[j] in bufs && bufs[list[j]].refcnt != 0;
    var j :| 0 <= j < |rest| && rest[j] == d;
    assert list[j + 1] == d;
  }

  // ---- Recycling an unused buffer for another block ----

  function Recast(f: Buf, n: nat): Buf {
    f.(dev := ROOTDEV, blockno := n, valid := false, refcnt := 1)
  }

  /** One more user of a cached block. */
  function Shared(bufs: map<int, Buf>, b: int): (r: map<int, Buf>)
    requires b in bufs
  {
    bufs[b := bufs[b].(refcnt := bufs[b].refcnt + 1)]
  }

  /** A buffer from the list, or a new one, for block `n`; its contents are not valid yet. */
  function Taken(bufs: map<int, Buf>, b: int, n: nat): (r: map<int, Buf>) {
    bufs[b := Recast(if b in bufs then bufs[b] else ZEROED, n)]
  }

  function Released(bufs: map<int, Buf>, b: int): (r: map<int, Buf>)
    requires b in bufs
  {
    bufs[b := bufs[b].(locked := false, refcnt := bufs[b].refcnt - 1)]
  }

  ghost function Unkeyed(bufs: map<int, Buf>, at: map<nat, int>, b: int): map<nat, int>
    requires b in bufs
  {
    if bufs[b].dev == ROOTDEV then at - {bufs[b].blockno} else at
  }

  ghost function Rekeyed(bufs: map<int, Buf>, at: map<nat, int>, n: nat, b: int): map<nat, int>
    requires b in bufs
  {
    Unkeyed(bufs, at, b)[n := b]
  }

  /** Nothing is lost when an unused buffer is freed. */
  lemma Freed(bufs: map<int, Buf>, at: map<nat, int>, disk: Disk, users: seq<nat>, held: set<nat>, pins: set<nat>,
              b: int)
    requires KeysOk(bufs, at, |disk|) && |users| == |disk| && CountsOk(bufs, at, users, held, pins)
    requires CleanOk(bufs, at, disk) && b in bufs && bufs[b].refcnt == 0
    ensures var bufs', at' := bufs - {b}, Unkeyed(bufs, at, b);
            && KeysOk(bufs', at', |disk|) && CountsOk(bufs', at', users, held, pins) && CleanOk(bufs', at', disk)
            && SameValues(bufs, at, disk, bufs', at', disk)
  {
    var bufs', at' := bufs - {b}, Unkeyed(bufs, at, b);
    forall k | k in at' ensures k in at && at'[k] == at[k] != b {}
    forall k | k in at && k !in at' ensures users[k] == 0 && k !in held && k !in pins {
      assert CountOk(bufs[at[k]], k, users, held, pins);
    }
  }

  lemma RecycledKeys(bufs: map<int, Buf>, at: map<nat, int>, blocks: nat, n: nat, b: int)
    requires KeysOk(bufs, at, blocks) && n !in at && n < blocks && b in bufs
    ensures KeysOk(bufs[b := Recast(bufs[b], n)], Rekeyed(bufs, at, n, b), blocks)
  {
    var at' := Rekeyed(bufs, at, n, b);
    forall k | k in at' && k != n ensures k in at && at'[k] == at[k] != b {}
  }

  /** Another block keeps its buffer, unless it was cached in the one recycled. */
  lemma RecycledOther(bufs: map<int, Buf>, at: map<nat, int>, blocks: nat, n: nat, b: int, k: nat)
    requires KeysOk(bufs, at, blocks) && n !in at && b in bufs && k != n
    ensures k in Rekeyed(bufs, at, n, b) <==> k in at && at[k] != b
    ensures k in at && at[k] != b ==> Rekeyed(bufs, at, n, b)[k] == at[k]
  {
  }

  lemma RecycledCounts(bufs: map<int, Buf>, at: map<nat, int>, users: seq<nat>, held: set<nat>, pins: set<nat>,
                       n: nat, b: int)
    requires KeysOk(bufs, at, |users|) && CountsOk(bufs, at, users, held, pins)
    requires n !in at && n < |users| && b in bufs && bufs[b].refcnt == 0
    ensures CountsOk(bufs[b := Recast(bufs[b], n)], Rekeyed(bufs, at, n, b), users[n := 1], held, pins)
    ensures users[n] == 0
  {
    var bufs', at', users' := bufs[b := Recast(bufs[b], n)], Rekeyed(bufs, at, n, b), users[n := 1];
    assert n !in held && n !in pins;
    forall k | k in at' ensures at'[k] in bufs' && CountOk(bufs'[at'[k]], k, users', held, pins) {
      if k != n {
        RecycledOther(bufs, at, |users|, n, b, k);
        assert CountOk(bufs[at[k]], k, users, held, pins);
      }
    }
    forall k: nat | k in at && k !in at' ensures users[k] == 0 && k !in held && k !in pins {
      RecycledOther(bufs, at, |users|, n, b, k);
      assert CountOk(bufs[at[k]], k, users, held, pins);
    }
  }

  /** Nothing is lost when an unused buffer is recycled. */
  lemma RecycledClean(bufs: map<int, Buf>, at: map<nat, int>, disk: Disk, n: nat, b: int)
    requires KeysOk(bufs, at, |disk|) && CleanOk(bufs, at, disk)
    requires n !in at && n < |disk| && b in bufs && bufs[b].refcnt == 0
    ensures CleanOk(bufs[b := Recast(bufs[b], n)], Rekeyed(bufs, at, n, b), disk)
    ensures SameValues(bufs, at, disk, bufs[b := Recast(bufs[b], n)], Rekeyed(bufs, at, n, b), disk)
  {
    var bufs', at' := bufs[b := Recast(bufs[b], n)], Rekeyed(bufs, at, n, b);
    forall k: nat | k < |disk| && k != n ensures Value(bufs', at', disk, k) == Value(bufs, at, disk, k) {
      RecycledOther(bufs, at, |disk|, n, b, k);
    }
    forall k | k in at' && k != n ensures k in at && at'[k] == at[k] != b {
      RecycledOther(bufs, at, |disk|, n, b, k);
    }
  }

  /** A zeroed buffer caches nothing. */
  lemma GrownKeys(bufs: map<int, Buf>, at: map<nat, int>, disk: Disk, users: seq<nat>, held: set<nat>, pins: set<nat>,
                  b: int)
    requires KeysOk(bufs, at, |disk|) && CountsOk(bufs, at, users, held, pins) && CleanOk(bufs, at, disk) && b !in bufs
    ensures var bufs' := bufs[b := ZEROED];
            && KeysOk(bufs', at, |disk|) && CountsOk(bufs', at, users, held, pins) && CleanOk(bufs', at, disk)
            && SameValues(bufs, at, disk, bufs', at, disk)
  {
  }

  /** Two blocks have one more user each, and are locked. */
  ghost predicate Lent(u: seq<nat>, h: set<nat>, u': seq<nat>, h': set<nat>, n: nat, m: nat) {
    && |u'| == |u| && (forall k :: 0 <= k < |u| ==> u'[k] == u[k] + One(k == n || k == m))
    && forall k :: k in h' <==> k in h || k == n || k == m
  }

  lemma LentNow(u: seq<nat>, h: set<nat>, n: nat, m: nat)
    requires n < |u| && m < |u| && n != m
    ensures Lent(u, h, u[n := u[n] + 1][m := u[m] + 1], h + {n} + {m}, n, m)
  {
  }

  lemma GivenBack(u: seq<nat>, h: set<nat>, u': seq<nat>, h': set<nat>, n: nat, m: nat)
    requires Lent(u, h, u', h', n, m) || Lent(u, h, u', h', m, n)
    requires n < |u| && m < |u| && n != m && n !in h && m !in h
    ensures u'[n] > 0 && u'[m] > 0 && u'[n := u'[n] - 1][m := u'[m] - 1] == u && h' - {n} - {m} == h
  {
    var w := u'[n := u[n]][m := u[m]];
    assert w == u;
  }

  /** One more user of a cached block. */
  lemma ReusedOk(bufs: map<int, Buf>, lru: seq<int>, count: int, at: map<nat, int>, disk: Disk, users: seq<nat>,
                 held: set<nat>, pins: set<nat>, n: nat)
    requires ListOk(bufs, lru, count) && KeysOk(bufs, at, |disk|) && |users| == |disk|
    requires CountsOk(bufs, at, users, held, pins) && CleanOk(bufs, at, disk) && n in at
    ensures n < |users| && at[n] in bufs
    ensures var b := at[n];
            var bufs' := Shared(bufs, b);
            && ListOk(bufs', lru, count) && KeysOk(bufs', at, |disk|) && CleanOk(bufs', at, disk)
            && CountsOk(bufs', at, users[n := users[n] + 1], held, pins)
            && ViewOf(bufs', at, disk) == ViewOf(bufs, at, disk)
  {
  }

  class BufferCache {
    var bufs: map<int, Buf>
    var lru: seq<int> // most recently used first
    var count: int
    var disk: Disk

    ghost var at: map<nat, int> // which buffer caches a block
    ghost var users: seq<nat> // processes between bget and brelse, by block
    ghost var held: set<nat> // blocks whose buffer is locked
    ghost var pins: set<nat> // blocks pinned by the log
    ghost var disks: seq<Disk> // the disk after each write

    ghost predicate Valid()
      reads this
    {
      && ListOk(bufs, lru, count)
      && count >= NBUF
      && KeysOk(bufs, at, |disk|)
      && |users| == |disk|
      && CountsOk(bufs, at, users, held, pins)
      && CleanOk(bufs, at, disk)
    }

    /** The current contents of every block. */
    ghost function View(): (v: Disk)
      reads this
    {
      ViewOf(bufs, at, disk)
    }

    ghost predicate Idle()
      reads this
    {
      held == {} && forall n :: 0 <= n < |users| ==> users[n] == 0
    }

    /** Blocks in use keep their buffer, and a buffer with contents keeps them. */
    twostate predicate Stay()
      reads this
    {
      forall n :: n in old(at) && n < |old(users)| && (old(users)[n] > 0 || n in old(pins)) ==>
        && n in at && at[n] == old(at)[n]
        && (old(at)[n] in old(bufs) && old(bufs)[old(at)[n]].valid ==>
              at[n] in bufs && bufs[at[n]].valid && bufs[at[n]].data == old(bufs)[old(at)[n]].data)
    }

    /** binit: NBUF empty buffers on the list. */
    constructor (d: Disk)
      requires forall n :: 0 <= n < |d| ==> |d[n]| == BLOCK_WORDS
      ensures Valid() && Idle() && pins == {} && disk == d && View() == d && disks == []
    {
      disk := d;
      bufs, lru, count := map[], [], 0;
      at, users, held, pins, disks := map[], seq(|d|, _ => 0), {}, {}, [];
      new;
      while count < NBUF
        invariant 0 <= count <= NBUF && ListOk(bufs, lru, count)
        invariant forall b :: b in bufs ==> bufs[b] == ZEROED
        invariant disk == d && at == map[] && |users| == |d| && Idle() && pins == {} && disks == []
        modifies `bufs, `lru, `count
      {
        var _ := Grow();
      }
      assert View() == d;
    }

    /** Finds or makes a buffer for the block and counts the caller among its users. `room` says whether the slab
        allocator has memory for one more; without it, bget panics exactly if the block is not cached and every
        buffer is in use. */
    method Bget(n: nat, room: bool) returns (b: int)
      requires Valid() && n < |disk|
      modifies `bufs, `lru, `count, `at, `users
      ensures Valid() && View() == old(View()) && Stay()
      ensures b == -1 <==> n !in old(at) && AllUsed(old(bufs)) && !room
      ensures b == -1 ==> bufs == old(bufs) && lru == old(lru) && users == old(users)
      ensures b != -1 ==> n in at && at[n] == b && b in bufs && users == old(users)[n := old(users)[n] + 1]
      ensures n in old(at) ==> b == old(at)[n] && lru == old(lru) && bufs == Shared(old(bufs), b)
      ensures b != -1 && n !in old(at) ==> bufs == Taken(old(bufs), b, n)
      ensures n !in old(at) && !AllUsed(old(bufs)) ==> LastUnused(old(bufs), lru, b) && lru == old(lru)
      ensures n !in old(at) && AllUsed(old(bufs)) && room ==> lru == [b] + old(lru) && b !in old(bufs)
    {
      b := Find(bufs, lru, n, at, |disk|);
      if b != -1 {
        Reuse(n, b);
      } else {
        b := Assign(n, room);
      }
    }

    /** Recycles the least recently used unused buffer for a block, or adds one. */
    method Assign(n: nat, room: bool) returns (b: int)
      requires Valid() && n < |disk| && n !in at
      modifies `bufs, `lru, `count, `at, `users
      ensures Valid() && View() == old(View()) && Stay()
      ensures b == -1 <==> AllUsed(old(bufs)) && !room
      ensures b == -1 ==> bufs == old(bufs) && lru == old(lru) && users == old(users)
      ensures b != -1 ==> n in at && at[n] == b && b in bufs && users == old(users)[n := old(users)[n] + 1]
                          && bufs == Taken(old(bufs), b, n)
      ensures !AllUsed(old(bufs)) ==> LastUnused(old(bufs), lru, b) && lru == old(lru)
      ensures AllUsed(old(bufs)) && room ==> lru == [b] + old(lru) && b !in old(bufs)
    {
      hide CountOk, CountsOk, CleanOk, KeysOk, AllUsed, ViewOf, LastUnused;
      b := FindUnused(bufs, lru);
      if b != -1 {
        Recycle(n, b);
      } else if room {
        b := TakeNew(n);
      }
    }

    /** Adds a buffer for a block. */
    method TakeNew(n: nat) returns (b: int)
      requires Valid() && n < |disk| && n !in at
      modifies `bufs, `lru, `count, `at, `users
      ensures Valid() && View() == old(View()) && Stay() && b != -1 && b !in old(bufs) && lru == [b] + old(lru)
      ensures n in at && at[n] == b && b in bufs && users == old(users)[n := old(users)[n] + 1]
      ensures bufs == Taken(old(bufs), b, n)
    {
      b := Grow();
      GrownKeys(old(bufs), at, disk, users, held, pins, b);
      assert View() == old(View());
      Recycle(n, b);
    }

    method Reuse(n: nat, b: int)
      requires Valid() && n in at && at[n] == b
      modifies `bufs, `users
      ensures Valid() && View() == old(View()) && Stay()
      ensures users == old(users)[n := old(users)[n] + 1] && b in old(bufs) && bufs == Shared(old(bufs), b)
    {
      hide CountOk, CleanOk, KeysOk, ListOk, CountsOk, ViewOf;
      ReusedOk(bufs, lru, count, at, disk, users, held, pins, n);
      bufs := Shared(bufs, b);
      users := users[n := users[n] + 1];
    }

    method Recycle(n: nat, b: int)
      requires Valid() && n !in at && n < |disk| && b in bufs && bufs[b].refcnt == 0
      modifies `bufs, `at, `users
      ensures Valid() && View() == old(View()) && Stay()
      ensures n in at && at[n] == b && b in bufs
      ensures users == old(users)[n := old(users)[n] + 1] && bufs == Taken(old(bufs), b, n)
    {
      RecycledKeys(bufs, at, |disk|, n, b);
      RecycledCounts(bufs, at, users, held, pins, n, b);
      RecycledClean(bufs, at, disk, n, b);
      at := Rekeyed(bufs, at, n, b);
      bufs := bufs[b := Recast(bufs[b], n)];
      users := users[n := 1];
      assert View() == old(View());
    }

    /** Adds a zeroed buffer at the most recently used end. The slab allocator may put it at any address not in use. */
    method Grow() returns (b: int)
      requires ListOk(bufs, lru, count)
      modifies `bufs, `lru, `count
      ensures ListOk(bufs, lru, count) && count == old(count) + 1
      ensures b >= 0 && b !in old(bufs) && bufs == old(bufs)[b := ZEROED] && lru == [b] + old(lru)
    {
      Unused(bufs.Keys);
      b :| b >= 0 && b !in bufs;
      PushList(lru, b);
      bufs := bufs[b := ZEROED];
      lru := [b] + lru;
      count := count + 1;
    }

    /** acquiresleep, once the lock is free. */
    method Lock(b: int)
      requires Valid() && b in bufs && bufs[b].dev == ROOTDEV && !bufs[b].locked && users[bufs[b].blockno] > 0
      modifies `bufs, `held
      ensures Valid() && View() == old(View())
      ensures held == old(held) + {bufs[b].blockno} && bufs == old(bufs)[b := old(bufs)[b].(locked := true)]
    {
      held := held + {bufs[b].blockno};
      bufs := bufs[b := bufs[b].(locked := true)];
      assert View() == old(View());
    }

    /** Reads a locked buffer from the disk unless it holds the block already. */
    method Fill(b: int)
      requires Valid() && b in bufs && bufs[b].dev == ROOTDEV
      modifies `bufs
      ensures Valid() && View() == old(View())
      ensures bufs[b].valid && bufs[b].data == View()[bufs[b].blockno]
      ensures bufs == old(bufs)[b := bufs[b]]
      ensures bufs[b] == old(bufs)[b].(valid := true, data := bufs[b].data)
    {
      if !bufs[b].valid {
        bufs := bufs[b := bufs[b].(valid := true, data := disk[bufs[b].blockno])];
      }
      assert View() == old(View());
    }

    /** A locked buffer with the current contents of the block, if bget does not panic for want of memory. */
    method Bread(n: nat) returns (b: int)
      requires Valid() && n < |disk| && n !in held
      modifies `bufs, `lru, `count, `at, `users, `held
      ensures Valid() && View() == old(View()) && Stay()
      ensures n in at && at[n] == b && Holds(b, n)
      ensures bufs[b].data == View()[n]
      ensures users == old(users)[n := old(users)[n] + 1] && held == old(held) + {n}
      ensures forall c, m :: old(Holds(c, m)) ==> Holds(c, m) && bufs[c].data == old(bufs)[c].data
    {
      b := Bget(n, true);
      ghost var before := bufs[b];
      Lock(b);
      Fill(b);
      assert before.valid ==> bufs[b].data == before.data;
    }

    /** The buffer is locked and has the block's contents. */
    ghost predicate Holds(b: int, n: nat)
      reads this
    {
      b in bufs && Caches(bufs[b], n) && bufs[b].valid && n in held && n < |disk|
    }

    /** The holder of a locked buffer changes its contents. */
    method Modify(b: int, data: Block)
      requires Valid() && b in bufs && Holds(b, bufs[b].blockno) && |data| == BLOCK_WORDS
      modifies `bufs
      ensures Valid() && bufs == old(bufs)[b := old(bufs)[b].(data := data)]
      ensures View() == old(View())[bufs[b].blockno := data]
    {
      bufs := bufs[b := bufs[b].(data := data)];
      assert View() == old(View())[bufs[b].blockno := data];
    }

    /** Writes a locked buffer to the disk. */
    method Bwrite(b: int)
      requires Valid() && b in bufs && Holds(b, bufs[b].blockno)
      modifies `disk, `disks
      ensures Valid() && View() == old(View())
      ensures disk == old(disk)[bufs[b].blockno := bufs[b].data] && disks == old(disks) + [disk]
    {
      disk := disk[bufs[b].blockno := bufs[b].data];
      disks := disks + [disk];
      assert View() == old(View());
    }

    method Bpin(b: int)
      requires Valid() && b in bufs && Holds(b, bufs[b].blockno) && bufs[b].blockno !in pins
      modifies `bufs, `pins
      ensures Valid() && View() == old(View())
      ensures pins == old(pins) + {bufs[b].blockno}
      ensures bufs == old(bufs)[b := old(bufs)[b].(refcnt := old(bufs)[b].refcnt + 1)]
    {
      pins := pins + {bufs[b].blockno};
      bufs := bufs[b := bufs[b].(refcnt := bufs[b].refcnt + 1)];
      assert View() == old(View());
    }

    method Bunpin(b: int)
      requires Valid() && b in bufs && Holds(b, bufs[b].blockno) && bufs[b].blockno in pins
      modifies `bufs, `pins
      ensures Valid() && View() == old(View())
      ensures pins == old(pins) - {bufs[b].blockno}
      ensures bufs == old(bufs)[b := old(bufs)[b].(refcnt := old(bufs)[b].refcnt - 1)]
    {
      pins := pins - {bufs[b].blockno};
      bufs := bufs[b := bufs[b].(refcnt := bufs[b].refcnt - 1)];
      assert View() == old(View());
    }

    /** Gives up a locked buffer, which is pinned or agrees with the disk. */
    method Brelse(b: int)
      requires Valid() && b in bufs && Holds(b, bufs[b].blockno)
      requires bufs[b].blockno in pins || bufs[b].data == disk[bufs[b].blockno]
      modifies `bufs, `lru, `count, `at, `users, `held
      ensures Valid() && View() == old(View()) && Stay()
      ensures var n := old(bufs)[b].blockno;
              users == old(users)[n := old(users)[n] - 1] && held == old(held) - {n}
      ensures forall c, m :: old(Holds(c, m)) && m != old(bufs)[b].blockno ==>
                Holds(c, m) && bufs[c].data == old(bufs)[c].data
      ensures var released := Released(old(bufs), b);
              if released[b].refcnt > 0 then bufs == released && lru == old(lru) && count == old(count)
              else Trimmed(released, [b] + Others(old(lru), b), lru, b)
                   && forall c :: c in bufs ==> c in released && bufs[c] == released[c]
    {
      hide CleanOk, ViewOf, ListOk;
      Unlock(b);
      if bufs[b].refcnt == 0 {
        ToFront(b);
        Shrink(b);
        assert Caches(bufs[b], old(bufs)[b].blockno);
      }
    }

    method Unlock(b: int)
      requires Valid() && b in bufs && Holds(b, bufs[b].blockno)
      requires bufs[b].blockno in pins || bufs[b].data == disk[bufs[b].blockno]
      modifies `bufs, `users, `held
      ensures Valid() && View() == old(View())
      ensures bufs == Released(old(bufs), b)
      ensures var n := old(bufs)[b].blockno;
              users == old(users)[n := old(users)[n] - 1] && held == old(held) - {n}
    {
      ghost var n := bufs[b].blockno;
      held := held - {n};
      users := users[n := users[n] - 1];
      bufs := bufs[b := bufs[b].(locked := false, refcnt := bufs[b].refcnt - 1)];
      assert View() == old(View());
    }

    /** Moves a buffer to the most recently used end. */
    method ToFront(b: int)
      requires ListOk(bufs, lru, count) && b in bufs
      modifies `lru
      ensures ListOk(bufs, lru, count) && lru == [b] + Others(old(lru), b)
    {
      var i := IndexOf(lru, b);
      RemoveAtMembers(lru, i);
      OthersAt(lru, i);
      PushList(RemoveAt(lru, i), b);
      lru := [b] + RemoveAt(lru, i);
    }

    /** Frees unused buffers from the least recently used end while there are more than NBUF. */
    method Shrink(b: int)
      requires Valid() && b in bufs
      modifies `bufs, `lru, `count, `at
      ensures Valid() && View() == old(View()) && Stay() && b in bufs && bufs[b] == old(bufs)[b]
      ensures Trimmed(old(bufs), old(lru), lru, b)
      ensures forall c :: c in bufs ==> c in old(bufs) && bufs[c] == old(bufs)[c]
    {
      hide CountOk, CleanOk, KeysOk, CountsOk, ViewOf;
      while count > NBUF
        invariant Valid() && View() == old(View()) && Stay() && b in bufs && bufs[b] == old(bufs)[b]
        invariant lru <= old(lru) && forall c :: c in bufs ==> c in old(bufs) && bufs[c] == old(bufs)[c]
        invariant forall i :: |lru| <= i < |old(lru)| ==>
                    old(lru)[i] != b && old(lru)[i] in old(bufs) && old(bufs)[old(lru)[i]].refcnt == 0
        decreases count
      {
        var t := lru[|lru| - 1];
        if t == b || bufs[t].refcnt != 0 {
          break;
        }
        Free(t);
      }
    }

    method Free(t: int)
      requires Valid() && count > NBUF && t == lru[|lru| - 1] && bufs[t].refcnt == 0
      modifies `bufs, `lru, `count, `at
      ensures Valid() && View() == old(View()) && Stay()
      ensures bufs == old(bufs) - {t} && count == old(count) - 1 && lru == old(lru)[..|old(lru)| - 1]
    {
      RemoveAtMembers(lru, |lru| - 1);
      assert RemoveAt(lru, |lru| - 1) == lru[..|lru| - 1];
      Freed(bufs, at, disk, users, held, pins, t);
      at := Unkeyed(bufs, at, t);
      bufs := bufs - {t};
      lru := lru[..|lru| - 1];
      count := count - 1;
      assert View() == old(View());
    }

    // ---- Copying from block to block, beside other users ----

    /** Changes a block and writes it to the disk. */
    method Put(b: int, n: nat, data: Block)
      requires Valid() && Holds(b, n) && |data| == BLOCK_WORDS
      modifies `bufs, `disk, `disks
      ensures Valid() && View() == old(View())[n := data]
      ensures disk == old(disk)[n := data] && disks == old(disks) + [disk]
      ensures forall c, m :: old(Holds(c, m)) ==> Holds(c, m) && (m != n ==> bufs[c].data == old(bufs)[c].data)
      ensures bufs[b].data == data
    {
      Modify(b, data);
      Bwrite(b);
    }

    /** Two breads, of blocks that nobody has locked. */
    method GetBoth(n: nat, m: nat) returns (b: int, c: int)
      requires Valid() && n != m && n < |disk| && m < |disk| && n !in held && m !in held
      modifies `bufs, `lru, `count, `at, `users, `held
      ensures Valid() && View() == old(View()) && Lent(old(users), old(held), users, held, n, m)
      ensures Holds(b, n) && bufs[b].data == View()[n] && |bufs[b].data| == BLOCK_WORDS
      ensures Holds(c, m) && bufs[c].data == View()[m] && |bufs[c].data| == BLOCK_WORDS
    {
      LentNow(users, held, n, m);
      b := Take(n);
      c := Take(m);
    }

    method Take(n: nat) returns (b: int)
      requires Valid() && n < |disk| && n !in held
      modifies `bufs, `lru, `count, `at, `users, `held
      ensures Valid() && View() == old(View()) && held == old(held) + {n} && users == old(users)[n := old(users)[n] + 1]
      ensures Holds(b, n) && bufs[b].data == View()[n] && |bufs[b].data| == BLOCK_WORDS
      ensures forall c, m :: old(Holds(c, m)) ==> Holds(c, m) && bufs[c].data == old(bufs)[c].data
    {
      b := Bread(n);
    }

    /** bunpin of a locked buffer. */
    method Unpin(b: int, n: nat)
      requires Valid() && Holds(b, n) && n in pins
      modifies `bufs, `pins
      ensures Valid() && View() == old(View()) && pins == old(pins) - {n}
      ensures forall c, m :: old(Holds(c, m)) ==> Holds(c, m) && bufs[c].data == old(bufs)[c].data
    {
      Bunpin(b);
    }

    /** Two brelses: everything is as before the breads. */
    method ReleaseBoth(b: int, n: nat, c: int, m: nat, ghost u: seq<nat>, ghost h: set<nat>)
      requires Valid() && n != m && Holds(b, n) && Holds(c, m) && n !in h && m !in h
      requires Lent(u, h, users, held, n, m) || Lent(u, h, users, held, m, n)
      requires (n in pins || bufs[b].data == disk[n]) && (m in pins || bufs[c].data == disk[m])
      modifies `bufs, `lru, `count, `at, `users, `held
      ensures Valid() && View() == old(View()) && users == u && held == h
    {
      GivenBack(u, h, users, held, n, m);
      Drop(b, n);
      Drop(c, m);
    }

    method Drop(b: int, n: nat)
      requires Valid() && Holds(b, n) && (n in pins || bufs[b].data == disk[n])
      modifies `bufs, `lru, `count, `at, `users, `held
      ensures Valid() && View() == old(View()) && held == old(held) - {n}
      ensures n < |old(users)| && old(users)[n] > 0 && users == old(users)[n := old(users)[n] - 1]
      ensures forall c, m :: old(Holds(c, m)) && m != n ==> Holds(c, m) && bufs[c].data == old(bufs)[c].data
    {
      InUse(b, n);
      Brelse(b);
    }

    /** The holder of a lock counts among the users. */
    lemma InUse(b: int, n: nat)
      requires Valid() && Holds(b, n)
      ensures n < |users| && users[n] > 0 && n in at && at[n] == b
    {
      assert CountOk(bufs[at[n]], n, users, held, pins);
    }
  }
}
