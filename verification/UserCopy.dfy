/** copyin and copyout of kernel/vm.c: across pages, user memory is one array of bytes. */
module UserCopy {
  import opened Common
  import opened PageTable
  import opened Vm

  predicate User(e: int) {
    e / PTE_U % 2 == 1
  }

  predicate Writable(e: int) {
    e / PTE_W % 2 == 1
  }

  /** The byte at address `a` of table `r` is the user's. */
  ghost predicate Readable(m: Mem, r: nat, a: nat) {
    a / PGSIZE < MAX_PAGE && At(m, r, a / PGSIZE).0 != 0 && User(At(m, r, a / PGSIZE).0)
  }

  ghost predicate CanWrite(m: Mem, r: nat, a: nat) {
    Readable(m, r, a) && Writable(At(m, r, a / PGSIZE).0)
  }

  /** User pages belong to their table: what is borrowed, the trampoline and the trapframe, is not the user's. */
  ghost predicate UserHeld(m: Mem, r: nat) {
    forall p :: 0 <= p < MAX_PAGE && At(m, r, p).0 != 0 && User(At(m, r, p).0) ==> At(m, r, p).1
  }

  ghost function Byte(m: Mem, r: nat, a: nat): int {
    var c := Frame(At(m, r, a / PGSIZE).0);
    if c >= 0 && c in m.d && |m.d[c]| == PGSIZE then m.d[c][a % PGSIZE] else 0
  }

  /** The page of address `a` belongs to table `r`. */
  ghost predicate Held(m: Mem, r: nat, a: nat) {
    a / PGSIZE < MAX_PAGE && At(m, r, a / PGSIZE).1
  }

  // ---- One page at a time ----

  /** A page that its table holds has contents, and no other entry of any table shows its frame as its own. */
  lemma HeldPage(m: Mem, r: nat, p: nat)
    requires Sound(m) && Root(m, r) && At(m, r, p).1
    ensures var c := Frame(At(m, r, p).0); c >= 0 && c in m.at && c in m.d && |m.d[c]| == PGSIZE
  {
  }

  lemma OneHolder(m: Mem, r: nat, p: nat, s: nat, q: nat)
    requires Sound(m) && Root(m, r) && Root(m, s) && p < MAX_PAGE && q < MAX_PAGE
    requires At(m, r, p).1 && At(m, s, q).1 && Frame(At(m, r, p).0) == Frame(At(m, s, q).0)
    ensures r == s && p == q
  {
    OneWay(m.t, m.at, r, p, s, q, 0);
    PxInjective(p, q);
  }

  /** The addresses of one round lie in one page. */
  lemma SamePage(a: nat, n: nat, k: nat)
    requires a % PGSIZE + n <= PGSIZE && k < n
    ensures (a + k) / PGSIZE == a / PGSIZE && (a + k) % PGSIZE == a % PGSIZE + k
  {
    assert a + k == a / PGSIZE * PGSIZE + (a % PGSIZE + k);
  }

  // ---- copyin ----

  /** `dst` is what user memory holds from `va` on. */
  ghost predicate Fetched(m: Mem, r: nat, va: nat, dst: seq<int>) {
    forall b: nat :: va <= b < va + |dst| ==> Readable(m, r, b) && Byte(m, r, b) == dst[b - va]
  }

  lemma FetchedMore(m: Mem, r: nat, va: nat, dst: seq<int>, n: nat, part: seq<int>)
    requires Sound(m) && Root(m, r) && Fetched(m, r, va, dst)
    requires var a := va + |dst|; a % PGSIZE + n <= PGSIZE && Readable(m, r, a) && Held(m, r, a)
    requires |part| == n && var a := va + |dst|;
             var c := Frame(At(m, r, a / PGSIZE).0);
             c >= 0 && c in m.d && |m.d[c]| == PGSIZE && part == m.d[c][a % PGSIZE..a % PGSIZE + n]
    ensures Fetched(m, r, va, dst + part)
  {
    hide At;
    var all, a := dst + part, va + |dst|;
    forall b: nat | va <= b < va + |all| ensures Readable(m, r, b) && Byte(m, r, b) == all[b - va] {
      if b >= a {
        SamePage(a, n, b - a);
      }
    }
  }

  /** copyin: the bytes up to the first one that is not the user's; it succeeds if there are enough. */
  method Copyin(vm: VirtualMemory, root: nat, va: nat, len: nat, ghost loose: set<nat>)
    returns (ok: bool, dst: seq<int>)
    requires vm.Valid(loose) && Root(vm.M(), root) && UserHeld(vm.M(), root)
    modifies vm
    ensures vm.Same(old(vm.free), old(vm.M()))
    ensures |dst| <= len && Fetched(vm.M(), root, va, dst)
    ensures ok <==> |dst| == len
    ensures !ok ==> !Readable(vm.M(), root, va + |dst|)
  {
    dst := [];
    while |dst| < len
      invariant vm.Same(old(vm.free), old(vm.M())) && |dst| <= len && Fetched(vm.M(), root, va, dst)
      decreases len - |dst|
    {
      var a := va + |dst|;
      if a / PGSIZE >= MAX_PAGE {
        return false, dst;
      }
      var e := vm.Find(root, a / PGSIZE, loose);
      if e == 0 || !User(e) {
        return false, dst;
      }
      var n := Min(PGSIZE - a % PGSIZE, len - |dst|);
      HeldPage(vm.M(), root, a / PGSIZE);
      var part := vm.data[Frame(e)][a % PGSIZE..a % PGSIZE + n];
      FetchedMore(vm.M(), root, va, dst, n, part);
      dst := dst + part;
    }
    ok := true;
  }

  // ---- copyout ----

  /** Bytes `[va, va + |src|)` of table `root` are `src`, and every other byte of a page that a table holds is as
      before. */
  ghost predicate Stored(m: Mem, m': Mem, root: nat, va: nat, src: seq<int>) {
    && m'.t == m.t && m'.at == m.at
    && forall r: nat, a: nat :: Root(m, r) && Held(m, r, a) ==>
         Byte(m', r, a) == if r == root && va <= a < va + |src| then src[a - va] else Byte(m, r, a)
  }

  lemma StoredOne(m: Mem, root: nat, a: nat, part: seq<int>)
    requires Sound(m) && Root(m, root) && Held(m, root, a) && a % PGSIZE + |part| <= PGSIZE
    ensures var c := Frame(At(m, root, a / PGSIZE).0);
            && c >= 0 && c in m.at && c in m.d && |m.d[c]| == PGSIZE
            && var m' := m.(d := m.d[c := Spliced(m.d[c], a % PGSIZE, part)]);
               Sound(m') && Stored(m, m', root, a, part)
  {
    HeldPage(m, root, a / PGSIZE);
    var c := Frame(At(m, root, a / PGSIZE).0);
    var page := Spliced(m.d[c], a % PGSIZE, part);
    var m' := m.(d := m.d[c := page]);
    forall r: nat, b: nat | Root(m, r) && Held(m, r, b)
      ensures Byte(m', r, b) == if r == root && a <= b < a + |part| then part[b - a] else Byte(m, r, b)
    {
      OneByte(m, m', root, a, part, r, b, c, page);
    }
  }

  lemma OneByte(m: Mem, m': Mem, root: nat, a: nat, part: seq<int>, r: nat, b: nat, c: nat, page: seq<int>)
    requires Sound(m) && Root(m, root) && Held(m, root, a) && a % PGSIZE + |part| <= PGSIZE
    requires Root(m, r) && Held(m, r, b) && c == Frame(At(m, root, a / PGSIZE).0) && c in m.d && |m.d[c]| == PGSIZE
    requires page == Spliced(m.d[c], a % PGSIZE, part) && m' == m.(d := m.d[c := page])
    ensures Byte(m', r, b) == if r == root && a <= b < a + |part| then part[b - a] else Byte(m, r, b)
  {
    if r == root && a <= b < a + |part| {
      SamePage(a, |part|, b - a);
    } else if Frame(At(m, r, b / PGSIZE).0) == c {
      OneHolder(m, root, a / PGSIZE, r, b / PGSIZE);
      assert b == b / PGSIZE * PGSIZE + b % PGSIZE && a == a / PGSIZE * PGSIZE + a % PGSIZE;
    }
  }

  lemma StoredThen(m: Mem, m1: Mem, m2: Mem, root: nat, va: nat, done: seq<int>, a: nat, part: seq<int>)
    requires a == va + |done| && Stored(m, m1, root, va, done) && Stored(m1, m2, root, a, part)
    ensures Stored(m, m2, root, va, done + part)
  {
    hide At, Byte;
    forall r: nat, b: nat | Root(m, r) && Held(m, r, b)
      ensures Byte(m2, r, b) ==
              if r == root && va <= b < va + |done + part| then (done + part)[b - va] else Byte(m, r, b)
    {
      SameMaps(m, m1, r, b);
    }
  }

  lemma StoredNothing(m: Mem, root: nat, va: nat)
    ensures Stored(m, m, root, va, [])
  {
  }

  /** Writing contents changes no mapping. */
  lemma SameMaps(m: Mem, m': Mem, r: nat, a: nat)
    requires m'.t == m.t && m'.at == m.at
    ensures CanWrite(m', r, a) == CanWrite(m, r, a) && Readable(m', r, a) == Readable(m, r, a)
            && Held(m', r, a) == Held(m, r, a)
  {
  }

  /** copyout: writes up to the first byte that the user may not write; it succeeds if that is everything. */
  method Copyout(vm: VirtualMemory, root: nat, va: nat, src: seq<int>, ghost loose: set<nat>)
    returns (ok: bool, ghost n: nat)
    requires vm.Valid(loose) && Root(vm.M(), root) && UserHeld(vm.M(), root)
    modifies vm
    ensures vm.Valid(loose) && vm.free == old(vm.free) && n <= |src| && Stored(old(vm.M()), vm.M(), root, va, src[..n])
    ensures ok <==> n == |src|
    ensures forall b: nat :: va <= b < va + n ==> CanWrite(old(vm.M()), root, b)
    ensures !ok ==> !CanWrite(old(vm.M()), root, va + n)
  {
    ghost var m := vm.M();
    var done := 0;
    n := 0;
    StoredNothing(m, root, va);
    assert src[..0] == [];
    while done < |src|
      invariant 0 <= done == n <= |src| && vm.Valid(loose) && vm.free == old(vm.free)
      invariant Stored(m, vm.M(), root, va, src[..done])
      invariant forall b: nat :: va <= b < va + done ==> CanWrite(m, root, b)
    {
      var fine, k := StoreOne(vm, root, va, src, done, m, loose);
      if !fine {
        return false, done;
      }
      done := done + k;
      n := done;
    }
    ok := true;
  }

  /** One round of copyout's loop. */
  method StoreOne(vm: VirtualMemory, root: nat, va: nat, src: seq<int>, done: nat, ghost m: Mem, ghost loose: set<nat>)
    returns (ok: bool, n: nat)
    requires vm.Valid(loose) && Sound(m) && Root(m, root) && UserHeld(m, root) && done < |src|
    requires Stored(m, vm.M(), root, va, src[..done])
    modifies vm
    ensures vm.Valid(loose) && vm.free == old(vm.free)
    ensures ok ==> 0 < n <= |src| - done && Stored(m, vm.M(), root, va, src[..done + n])
                   && forall b: nat :: va + done <= b < va + done + n ==> CanWrite(m, root, b)
    ensures !ok ==> !CanWrite(m, root, va + done) && vm.M() == old(vm.M())
  {
    var a := va + done;
    n := 0;
    ghost var m1 := vm.M();
    SameMaps(m, m1, root, a);
    if a / PGSIZE >= MAX_PAGE {
      return false, 0;
    }
    var e := vm.Find(root, a / PGSIZE, loose);
    if e == 0 || !User(e) || !Writable(e) {
      return false, 0;
    }
    n := Min(PGSIZE - a % PGSIZE, |src| - done);
    var part := src[done..done + n];
    StoredOne(m1, root, a, part);
    vm.data := vm.data[Frame(e) := Spliced(vm.data[Frame(e)], a % PGSIZE, part)];
    StoredThen(m, m1, vm.M(), root, va, src[..done], a, part);
    assert src[..done] + part == src[..done + n];
    forall b: nat | a <= b < a + n ensures CanWrite(m, root, b) {
      SamePage(a, n, b - a);
    }
    ok := true;
  }

  // ---- Together ----

  /** What copyout wrote, copyin reads back. */
  lemma ReadBack(m: Mem, m': Mem, root: nat, va: nat, src: seq<int>, dst: seq<int>)
    requires Root(m, root) && UserHeld(m, root) && Stored(m, m', root, va, src) && Fetched(m', root, va, dst)
             && |dst| == |src|
    ensures dst == src
  {
    forall k | 0 <= k < |src| ensures dst[k] == src[k] {
      var b := va + k;
      SameMaps(m, m', root, b);
      assert Readable(m', root, b) && Held(m, root, b);
    }
  }

  /** After a fork parent and child read the same bytes, and writing to one does not show in the other. */
  lemma ForkedBytes(m: Mem, m1: Mem, m2: Mem, parent: nat, child: nat, n: nat, a: nat, va: nat, src: seq<int>)
    requires Copied(m, m1, parent, child, n) && n <= MAX_PAGE && a / PGSIZE < n && Readable(m, parent, a)
    requires Root(m1, parent) && Root(m1, child) && parent != child && Held(m1, child, a)
             && Stored(m1, m2, parent, va, src)
    ensures Readable(m2, child, a) && Byte(m2, child, a) == Byte(m, parent, a)
  {
    SameMaps(m1, m2, child, a);
    assert CopyAt(m, m1, parent, child, a / PGSIZE);
    SameFlags(At(m, parent, a / PGSIZE).0, At(m1, child, a / PGSIZE).0);
  }

  lemma BitsOfFlags(e: int)
    ensures User(e) == User(Flags(e)) && Writable(e) == Writable(Flags(e))
  {
    var q, r := e / FLAGS, Flags(e);
    Over16(64 * q + r / 16, r % 16);
    Over4(256 * q + r / 4, r % 4);
    assert e == 16 * (64 * q + r / 16) + r % 16 && e == 4 * (256 * q + r / 4) + r % 4;
    Even(32 * q, r / 16);
    Even(128 * q, r / 4);
  }

  lemma Over16(q: int, b: int)
    requires 0 <= b < 16
    ensures (16 * q + b) / 16 == q
  {
  }

  lemma Over4(q: int, b: int)
    requires 0 <= b < 4
    ensures (4 * q + b) / 4 == q
  {
  }

  lemma Even(q: int, b: int)
    ensures (2 * q + b) % 2 == b % 2
  {
  }

  lemma SameFlags(e: int, f: int)
    requires Flags(e) == Flags(f)
    ensures User(e) == User(f) && Writable(e) == Writable(f)
  {
    BitsOfFlags(e);
    BitsOfFlags(f);
  }
}
