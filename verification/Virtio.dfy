/** The driver half of kernel/virtio_disk.c: descriptors, requests and completions, updated in place. */
module Virtio {
  import opened VirtioRing

  class VirtioDisk {
    var free: seq<bool>
    var desc: seq<Desc>
    var ops: seq<BlkReq>
    var info: seq<Info>
    var busy: set<nat> // buffers whose disk flag is set
    var availIdx: nat
    var avail: seq<int>
    var usedIdx: nat
    var devIdx: nat // used->idx, written by the device
    var used: seq<int>
    ghost var rest: State // chains, histories, buffers and disk

    ghost function S(): State
      reads this
    {
      rest.(free := free, desc := desc, ops := ops, info := info, busy := busy,
            availIdx := availIdx, avail := avail, usedIdx := usedIdx, devIdx := devIdx, used := used)
    }

    ghost predicate Valid()
      reads this
    {
      Inv(S())
    }

    constructor (m: map<nat, Block>, d: Disk)
      ensures Valid() && Initial(S()) && rest.mem == m && rest.disk == d
    {
      free, desc := seq(NUM, _ => true), seq(NUM, _ => CLEAR);
      ops, info := seq(NUM, _ => BlkReq(0, 0)), seq(NUM, _ => Info(-1, 0));
      busy, availIdx, avail, usedIdx, devIdx, used := {}, 0, seq(NUM, _ => 0), 0, 0, seq(NUM, _ => 0);
      rest := State([], [], [], [], {}, 0, [], 0, 0, [], m, d, map[], seq(NUM, _ => -1), map[], [], 0, [], 0, []);
      new;
      InitialInv(S());
    }

    /** alloc_desc: the lowest free descriptor, marked as taken, or -1. */
    method AllocDesc() returns (i: int)
      modifies `free
      ensures i == First(old(free)) && free == Less(old(free), i)
    {
      i := 0;
      while i < |free|
        invariant 0 <= i <= |free| && free == old(free) && FirstFrom(free, 0) == FirstFrom(free, i)
      {
        if free[i] {
          free := free[i := false];
          return;
        }
        i := i + 1;
      }
      i := -1;
    }

    /** free_desc: panics on an index out of range or a descriptor that is free already. */
    method FreeDesc(i: nat) returns (panic: bool)
      requires |free| == |desc| == NUM
      modifies `free, `desc
      ensures panic <==> i >= NUM || old(free)[i]
      ensures panic ==> free == old(free) && desc == old(desc)
      ensures !panic ==> free == Set(old(free), i, true) && desc == Set(old(desc), i, CLEAR)
    {
      if i >= NUM {
        return true;
      }
      if free[i] {
        return true;
      }
      desc := desc[i := CLEAR];
      free := free[i := true];
      panic := false;
    }

    /** alloc3_desc: the three lowest free descriptors, exactly if three are free; otherwise nothing changes. */
    method Alloc3Desc() returns (ok: bool, idx: seq<int>, panic: bool)
      requires |free| == |desc| == NUM && forall i :: 0 <= i < NUM && free[i] ==> desc[i] == CLEAR
      modifies `free, `desc
      ensures !panic && desc == old(desc) && (ok <==> Room(old(free)))
      ensures ok ==> idx == Indices(Lowest(old(free))) && free == Marked(old(free), Lowest(old(free)))
      ensures !ok ==> free == old(free)
    {
      ghost var was, t := free, Lowest(free);
      RoomIsThree(free);
      idx, panic := [], false;
      var i := 0;
      while i < 3
        invariant 0 <= i <= 3 && |idx| == i && idx == Indices(t)[..i] && !panic
        invariant |free| == NUM && desc == old(desc) && free == TakenUpTo(was, t, i)
        invariant forall k :: 0 <= k < i ==> idx[k] >= 0
      {
        var d := AllocDesc();
        assert d == if i == 0 then t.head else if i == 1 then t.mid else t.last;
        assert Indices(t)[..i + 1] == Indices(t)[..i] + [Indices(t)[i]];
        idx := idx + [d];
        if d < 0 {
          panic := UndoAlloc(idx, i, was, t);
          return false, idx, panic;
        }
        i := i + 1;
      }
      assert Indices(t)[..3] == Indices(t);
      assert idx[2] == t.last;
      ok := true;
    }

    /** Frees the descriptors got so far. */
    method UndoAlloc(idx: seq<int>, n: nat, ghost was: seq<bool>, ghost t: Trio) returns (panic: bool)
      requires |was| == |desc| == NUM && t == Lowest(was) && n < 3 && |idx| == n + 1
      requires idx == Indices(t)[..n + 1] && free == TakenUpTo(was, t, n)
      requires forall i :: 0 <= i < NUM && was[i] ==> desc[i] == CLEAR
      requires forall k :: 0 <= k < n ==> idx[k] >= 0
      modifies `free, `desc
      ensures !panic && free == was && desc == old(desc)
    {
      RoomIsThree(was);
      assert n > 0 ==> idx[0] == t.head;
      assert n > 1 ==> idx[1] == t.mid;
      panic := false;
      var j := 0;
      while j < n
        invariant 0 <= j <= n && !panic && desc == old(desc) && |free| == NUM
        invariant forall i :: 0 <= i < NUM ==> free[i] == (was[i] && !Among(idx, j, n, i))
      {
        panic := FreeDesc(idx[j]);
        j := j + 1;
      }
    }

    /** free_chain: frees the three descriptors of a chain. */
    method FreeChain(head: int, ghost f: Flight) returns (panic: bool)
      requires IsChain(free, desc, head, f)
      modifies `free, `desc
      ensures !panic
      ensures free == Set(Set(Set(old(free), head, true), f.mid, true), f.last, true)
      ensures desc == Set(Set(Set(old(desc), head, CLEAR), f.mid, CLEAR), f.last, CLEAR)
    {
      ghost var links := [head, f.mid, f.last];
      var i := head;
      ghost var n := 0;
      panic := false;
      while true
        invariant 0 <= n < 3 && i == links[n] && !panic
        invariant |free| == |desc| == NUM
        invariant free == Cleared(old(free), links, n, true) && desc == Cleared(old(desc), links, n, CLEAR)
        decreases 3 - n
      {
        var flag, nxt := desc[i].flags, desc[i].next;
        panic := FreeDesc(i);
        if !HasNext(flag) {
          break;
        }
        i := nxt;
        n := n + 1;
      }
    }

    /** virtio_disk_rw up to its first sleep: without three free descriptors it waits and nothing has changed. */
    method Submit(b: nat, write: bool, blockno: nat) returns (ok: bool, head: int)
      requires Valid() && b !in rest.holder && b in rest.mem && HasBlock(rest.disk, blockno)
      modifies `free, `desc, `ops, `info, `busy, `avail, `availIdx, `rest
      ensures Valid() && (ok <==> Room(old(free)))
      ensures S() == if ok then old(AfterSubmit(S(), Req(b, write, blockno, rest.mem[b]))) else old(S())
      ensures ok ==> head in rest.flights && rest.flights[head].req == Req(b, write, blockno, old(rest).mem[b])
    {
      hide Inv, Room, Chained, Marked, Lowest;
      ghost var s, q := S(), Req(b, write, blockno, rest.mem[b]);
      RoomIsThree(free);
      FreeAreClear(s);
      var idx, panic;
      ok, idx, panic := Alloc3Desc();
      head := -1;
      if ok {
        StepKeeps(Act.Submit(q), s);
        head := idx[0];
        Publish(idx, b, write, blockno, q);
      }
    }

    method Publish(idx: seq<int>, b: nat, write: bool, blockno: nat, ghost q: Req)
      requires |desc| == |ops| == |info| == |avail| == NUM && |idx| == 3
      requires forall k :: 0 <= k < 3 ==> 0 <= idx[k] < NUM
      requires q.b == b && q.write == write && q.blockno == blockno
      modifies `desc, `ops, `info, `busy, `avail, `availIdx, `rest
      ensures var t := Trio(idx[0], idx[1], idx[2]);
              && desc == Chained(old(desc), t, q) && ops == Set(old(ops), t.head, Header(q))
              && info == Set(old(info), t.head, Info(q.b, PENDING)) && busy == old(busy) + {b}
              && avail == old(avail)[old(availIdx) % NUM := t.head] && availIdx == (old(availIdx) + 1) % WRAP
              && rest == Launched(old(rest), t, q)
    {
      ops := ops[idx[0] := BlkReq(if write then T_OUT else T_IN, blockno * SECTORS_PER_BLOCK)];
      desc := Format(desc, idx, b, write, q);
      info := info[idx[0] := info[idx[0]].(status := PENDING)];
      busy := busy + {b};
      info := info[idx[0] := info[idx[0]].(b := b)];
      avail := avail[availIdx % NUM := idx[0]];
      availIdx := (availIdx + 1) % WRAP;
      rest := Launched(rest, Trio(idx[0], idx[1], idx[2]), q);
    }

    /** virtio_disk_rw once its buffer's flag is clear: it frees the chain. */
    method Finish(head: int) returns (panic: bool)
      requires Valid() && Ready(Act.Free(head), S())
      modifies `free, `desc, `info, `rest
      ensures Valid() && !panic && S() == old(AfterFree(S(), head))
    {
      hide Inv;
      ghost var s := S();
      StepKeeps(Act.Free(head), s);
      ChainFacts(s, head);
      info := info[head := info[head].(b := -1)];
      panic := FreeChain(head, rest.flights[head]);
      rest := Landed(rest, head);
    }

    /** One pass of virtio_disk_intr's loop. */
    method CompleteOne() returns (panic: bool)
      requires Valid() && usedIdx != devIdx
      modifies `busy, `usedIdx, `rest
      ensures Valid() && !panic && S() == old(AfterComplete(S()))
    {
      hide Inv;
      ghost var s := S();
      UsedHead(s);
      StepKeeps(Act.Complete, s);
      var id := used[usedIdx % NUM];
      panic := info[id].status != 0;
      busy := busy - {info[id].b};
      usedIdx := (usedIdx + 1) % WRAP;
      rest := rest.(seen := rest.seen + 1, flights := rest.flights[id := rest.flights[id].(stage := Seen)],
                    log := rest.log + [Event(Completed, rest.flights[id].id)]);
    }

    /** virtio_disk_intr: clears the flag of every request that the device has returned, of no other, and each once. */
    method Intr() returns (panic: bool)
      requires Valid()
      modifies `busy, `usedIdx, `rest
      ensures Valid() && !panic && usedIdx == devIdx && rest.seen == |rest.returned|
      ensures forall h :: h in old(rest).flights ==>
                && h in rest.flights
                && rest.flights[h] ==
                   if old(rest).flights[h].stage.Returned? then old(rest).flights[h].(stage := Seen)
                   else old(rest).flights[h]
      ensures forall h :: h in rest.flights ==> h in old(rest).flights
    {
      hide Inv;
      panic := false;
      Wrapped(S());
      while usedIdx != devIdx
        invariant Valid() && !panic && rest.seen <= |rest.returned|
                  && (usedIdx == devIdx <==> rest.seen == |rest.returned|)
        invariant forall h :: h in old(rest).flights ==>
                    h in rest.flights && (rest.flights[h] == old(rest).flights[h]
                        || (old(rest).flights[h].stage.Returned?
                            && rest.flights[h] == old(rest).flights[h].(stage := Seen)))
        invariant forall h :: h in rest.flights ==> h in old(rest).flights
        decreases |rest.returned| - rest.seen
      {
        UsedHead(S());
        panic := CompleteOne();
        Wrapped(S());
      }
      AllSeen(S());
    }
  }

  /** A chain goes into flight. */
  ghost function Launched(s: State, t: Trio, q: Req): State {
    s.(flights := s.flights[t.head := Flight(t.mid, t.last, q, |s.queue|, Queued)],
       owner := Set(Set(Set(s.owner, t.head, t.head), t.mid, t.head), t.last, t.head),
       holder := s.holder[q.b := t.head], queue := s.queue + [t.head], log := s.log + [Event(Submitted, |s.queue|)])
  }

  ghost function Landed(s: State, h: int): State
    requires h in s.flights
  {
    var f := s.flights[h];
    s.(flights := s.flights - {h}, owner := Set(Set(Set(s.owner, h, -1), f.mid, -1), f.last, -1),
       holder := s.holder - {f.req.b}, log := s.log + [Event(Freed, f.id)])
  }

  /** The three descriptors of a request. */
  method Format(desc: seq<Desc>, idx: seq<int>, b: nat, write: bool, ghost q: Req) returns (r: seq<Desc>)
    requires |idx| == 3 && forall k :: 0 <= k < 3 ==> 0 <= idx[k] < |desc|
    requires q.b == b && q.write == write
    ensures r == Chained(desc, Trio(idx[0], idx[1], idx[2]), q)
  {
    r := desc[idx[0] := Desc(OpAt(idx[0]), SIZEOF_BLK_REQ, F_NEXT, idx[1])];
    r := r[idx[1] := Desc(DataOf(b), BSIZE, if write then 0 else F_WRITE, 0)];
    r := r[idx[1] := r[idx[1]].(flags := r[idx[1]].flags + F_NEXT, next := idx[2])];
    r := r[idx[2] := Desc(StatusAt(idx[0]), 1, F_WRITE, 0)];
  }

  function Indices(t: Trio): seq<int> {
    [t.head, t.mid, t.last]
  }

  ghost predicate Among(idx: seq<int>, j: nat, n: nat, i: int)
    requires n <= |idx|
  {
    exists k :: j <= k < n && idx[k] == i
  }

  /** The free flags after `n` allocations. */
  ghost function TakenUpTo(free: seq<bool>, t: Trio, n: nat): (r: seq<bool>)
    ensures |r| == |free|
  {
    if n == 0 then free else if n == 1 then Less(free, t.head)
    else if n == 2 then Less(Less(free, t.head), t.mid) else Marked(free, t)
  }

  ghost function Cleared<T>(s: seq<T>, links: seq<int>, n: nat, x: T): (r: seq<T>)
    requires n <= |links|
    ensures |r| == |s|
  {
    if n == 0 then s else Set(Cleared(s, links, n - 1, x), links[n - 1], x)
  }

  /** Three descriptors in use, linked from `h`. */
  ghost predicate IsChain(free: seq<bool>, desc: seq<Desc>, h: int, f: Flight) {
    && |free| == |desc| == NUM && 0 <= h < NUM && 0 <= f.mid < NUM && 0 <= f.last < NUM
    && h != f.mid && h != f.last && f.mid != f.last && !free[h] && !free[f.mid] && !free[f.last]
    && HasNext(desc[h].flags) && desc[h].next == f.mid
    && HasNext(desc[f.mid].flags) && desc[f.mid].next == f.last && !HasNext(desc[f.last].flags)
  }

  lemma ChainFacts(s: State, h: int)
    requires Inv(s) && h in s.flights
    ensures IsChain(s.free, s.desc, h, s.flights[h]) && |s.info| == NUM
  {
    var f := s.flights[h];
    assert FlightOk(s, h, f) && Owns(s.owner, h, f);
    assert OwnerOk(s, h) && OwnerOk(s, f.mid) && OwnerOk(s, f.last);
  }

  lemma FreeAreClear(s: State)
    requires Inv(s)
    ensures |s.free| == |s.desc| == |s.ops| == |s.info| == |s.owner| == NUM && |s.avail| == NUM
    ensures forall i :: 0 <= i < NUM && s.free[i] ==> s.desc[i] == CLEAR
  {
    forall i | 0 <= i < NUM && s.free[i] ensures s.desc[i] == CLEAR {
      assert OwnerOk(s, i);
    }
  }

  lemma UsedHead(s: State)
    requires Inv(s) && s.usedIdx != s.devIdx
    ensures |s.used| == NUM && |s.info| == NUM && s.seen < |s.returned|
    ensures var h := s.used[s.usedIdx % NUM];
            && 0 <= h < NUM && h in s.flights && s.flights[h].stage.Returned?
            && s.info[h] == Info(s.flights[h].req.b, 0)
  {
    Wrapped(s);
    assert UsedAt(s, s.seen);
    var h := s.returned[s.seen];
    assert FlightOk(s, h, s.flights[h]);
  }

  lemma AllSeen(s: State)
    requires Inv(s) && s.seen == |s.returned|
    ensures forall h :: h in s.flights ==> !s.flights[h].stage.Returned?
  {
  }
}
