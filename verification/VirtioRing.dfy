/** The descriptor rings of kernel/virtio_disk.c between the driver and the device, as a state machine. The device
    follows sections 2.6 and 5.2 of Virtio 1.1: it takes available chains in order, may finish them in any order,
    and reports each in the used ring. */
module VirtioRing {
  import opened Common

  const NUM := 8
  const BSIZE := 1024
  const SECTORS_PER_BLOCK := 2
  const SIZEOF_BLK_REQ := 16
  const F_NEXT := 1
  const F_WRITE := 2
  const T_IN := 0
  const T_OUT := 1
  const PENDING := 0xff
  const WRAP := 0x1_0000

  const SECTOR := 512

  type Block = s: seq<int> | |s| == BSIZE witness seq(BSIZE, _ => 0)
  type Sector = s: seq<int> | |s| == SECTOR witness seq(SECTOR, _ => 0)
  type Disk = map<nat, Sector>

  // ---- Blocks on a disk of sectors ----

  function FirstSector(n: nat): (r: nat) { n * (BSIZE / SECTOR) }

  predicate HasBlock(disk: Disk, n: nat) {
    FirstSector(n) in disk && FirstSector(n) + 1 in disk
  }

  function BlockAt(disk: Disk, n: nat): (r: Block)
    requires HasBlock(disk, n)
  {
    var a: seq<int>, b: seq<int> := disk[FirstSector(n)], disk[FirstSector(n) + 1];
    a + b
  }

  function WithBlock(disk: Disk, n: nat, data: Block): (r: Disk) {
    disk[FirstSector(n) := data[..SECTOR]][FirstSector(n) + 1 := data[SECTOR..]]
  }

  /** Writing a block shows in that block and in no other. */
  lemma BlockWritten(disk: Disk, n: nat, data: Block, k: nat)
    ensures HasBlock(WithBlock(disk, n, data), k) <==> HasBlock(disk, k) || k == n
    ensures HasBlock(WithBlock(disk, n, data), k) ==>
              BlockAt(WithBlock(disk, n, data), k) == if k == n then data else BlockAt(disk, k)
  {
    assert data == data[..SECTOR] + data[SECTOR..];
  }

  /** What the device reads from `n` sectors. */
  function Fetch(disk: Disk, sector: nat, n: nat): (r: seq<int>)
    decreases n
  {
    if n == 0 then [] else (if sector in disk then disk[sector] else []) + Fetch(disk, sector + 1, n - 1)
  }

  /** The disk once the device has written data to as many sectors as it fills. */
  function Store(disk: Disk, sector: nat, data: seq<int>): (r: Disk)
    decreases |data|
  {
    if |data| < SECTOR then disk else Store(disk[sector := data[..SECTOR]], sector + 1, data[SECTOR..])
  }

  lemma FetchBlock(disk: Disk, n: nat)
    requires HasBlock(disk, n)
    ensures Fetch(disk, FirstSector(n), BSIZE / SECTOR) == BlockAt(disk, n)
  {
    var k := FirstSector(n);
    assert Fetch(disk, k + 1, 1) == disk[k + 1] + [];
  }

  lemma StoreBlock(disk: Disk, n: nat, data: Block)
    ensures Store(disk, FirstSector(n), data) == WithBlock(disk, n, data)
  {
    var k, rest := FirstSector(n), data[SECTOR..];
    assert |rest| == SECTOR && rest[..SECTOR] == rest && |rest[SECTOR..]| == 0;
    assert Store(disk[k := data[..SECTOR]], k + 1, rest) == disk[k := data[..SECTOR]][k + 1 := rest];
  }

  /** What a physical address points to. */
  datatype Addr = Null | OpAt(i: int) | DataOf(b: nat) | StatusAt(i: int)

  datatype Desc = Desc(addr: Addr, len: nat, flags: nat, next: int)

  datatype BlkReq = BlkReq(kind: nat, sector: nat)

  datatype Info = Info(b: int, status: nat)

  const CLEAR := Desc(Null, 0, 0, 0)

  predicate HasNext(flags: nat) {
    flags % 2 == 1
  }

  predicate Writable(flags: nat) {
    flags / 2 % 2 == 1
  }

  // ---- The three lowest free descriptors ----

  function FirstFrom(free: seq<bool>, i: nat): (r: int)
    requires i <= |free|
    ensures r == -1 || (i <= r < |free| && free[r])
    ensures r == -1 ==> forall j :: i <= j < |free| ==> !free[j]
    ensures forall j :: i <= j < r ==> !free[j]
    decreases |free| - i
  {
    if i == |free| then -1 else if free[i] then i else FirstFrom(free, i + 1)
  }

  function First(free: seq<bool>): (r: int) {
    FirstFrom(free, 0)
  }

  function Less(free: seq<bool>, i: int): (r: seq<bool>)
    ensures |r| == |free|
  {
    if 0 <= i < |free| then free[i := false] else free
  }

  datatype Trio = Trio(head: int, mid: int, last: int)

  function Lowest(free: seq<bool>): (t: Trio) {
    var i := First(free);
    var j := First(Less(free, i));
    Trio(i, j, First(Less(Less(free, i), j)))
  }

  function Marked(free: seq<bool>, t: Trio): (r: seq<bool>)
    ensures |r| == |free|
  {
    Less(Less(Less(free, t.head), t.mid), t.last)
  }

  /** Three descriptors are free. */
  ghost predicate Room(free: seq<bool>) {
    exists i, j, k :: 0 <= i < j < k < |free| && free[i] && free[j] && free[k]
  }

  lemma RoomIsThree(free: seq<bool>)
    ensures var t := Lowest(free);
            && (Room(free) <==> t.last >= 0)
            && (t.last >= 0 ==> 0 <= t.head < t.mid < t.last < |free| && free[t.head] && free[t.mid] && free[t.last])
            && (t.mid >= 0 ==> 0 <= t.head < t.mid)
  {
    var t := Lowest(free);
    if Room(free) {
      var i, j, k :| 0 <= i < j < k < |free| && free[i] && free[j] && free[k];
      assert t.head <= i;
      var g := Less(free, t.head);
      assert g[j] && t.mid <= j;
      var e := Less(g, t.mid);
      assert e[k];
    }
  }

  // ---- Requests in flight ----

  /** A transfer between buffer `b` and a disk block; `data` is what a write is to put there. */
  datatype Req = Req(b: nat, write: bool, blockno: nat, data: Block)

  /** Returned: the device has put it in the used ring, at the given place of its history. Seen: the interrupt handler
      has read it there, and the process has yet to free its descriptors. */
  datatype Stage = Queued | Held | Returned(at: nat) | Seen

  /** A chain of three descriptors; its head is its key. The `id`-th request of all. */
  datatype Flight = Flight(mid: int, last: int, req: Req, id: nat, stage: Stage)

  datatype Kind = Submitted | Taken | Answered | Completed | Freed

  datatype Event = Event(kind: Kind, id: nat)

  /** The shared memory of driver and device; the buffers and the disk; and, for the proof, the chains in flight, the
      head of the chain each descriptor and each buffer is in, the heads made available and returned so far, how many
      of them were taken and seen, and all events. */
  datatype State = State(
    free: seq<bool>, desc: seq<Desc>, ops: seq<BlkReq>, info: seq<Info>, busy: set<nat>,
    availIdx: nat, avail: seq<int>, usedIdx: nat, devIdx: nat, used: seq<int>,
    mem: map<nat, Block>, disk: Disk,
    flights: map<int, Flight>, owner: seq<int>, holder: map<nat, int>, queue: seq<int>, taken: nat, returned: seq<int>,
    seen: nat, log: seq<Event>)

  ghost function Chain(h: int, f: Flight): set<int> {
    {h, f.mid, f.last}
  }

  predicate Waiting(g: Stage) {
    g == Queued || g == Held
  }

  /** The three descriptors say what the request asks for. */
  ghost predicate Formatted(s: State, h: int, f: Flight) {
    && |s.desc| == |s.ops| == |s.info| == NUM && 0 <= h < NUM && 0 <= f.mid < NUM && 0 <= f.last < NUM
    && s.desc[h] == Desc(OpAt(h), SIZEOF_BLK_REQ, F_NEXT, f.mid)
    && s.desc[f.mid] == Desc(DataOf(f.req.b), BSIZE, if f.req.write then F_NEXT else F_WRITE + F_NEXT, f.last)
    && s.desc[f.last] == Desc(StatusAt(h), 1, F_WRITE, 0)
    && s.ops[h] == BlkReq(if f.req.write then T_OUT else T_IN, f.req.blockno * SECTORS_PER_BLOCK)
    && s.info[h] == Info(f.req.b, if Waiting(f.stage) then PENDING else 0)
  }

  ghost predicate FlightOk(s: State, h: int, f: Flight) {
    && Formatted(s, h, f)
    && (f.req.b in s.busy <==> f.stage != Seen)
    && f.req.b in s.mem && HasBlock(s.disk, f.req.blockno)
    && (f.req.write && Waiting(f.stage) ==> s.mem[f.req.b] == f.req.data)
  }

  /** Every descriptor is free and cleared, or in exactly one chain. */
  ghost predicate Partition(s: State) {
    && |s.free| == |s.desc| == |s.owner| == |s.ops| == |s.info| == NUM
    && (forall i :: 0 <= i < NUM ==> OwnerOk(s, i))
    && (forall h :: h in s.flights ==> Owns(s.owner, h, s.flights[h]))
  }

  ghost predicate OwnerOk(s: State, i: nat)
    requires |s.free| == |s.desc| == |s.owner| == NUM && i < NUM
  {
    if s.free[i] then s.owner[i] == -1 && s.desc[i] == CLEAR
    else s.owner[i] in s.flights && i in Chain(s.owner[i], s.flights[s.owner[i]])
  }

  ghost predicate Owns(owner: seq<int>, h: int, f: Flight) {
    && 0 <= h < |owner| && 0 <= f.mid < |owner| && 0 <= f.last < |owner| && h != f.mid && h != f.last && f.mid != f.last
    && owner[h] == owner[f.mid] == owner[f.last] == h
  }

  /** A buffer is in one chain at most. */
  ghost predicate OneEach(s: State) {
    && (forall h :: h in s.flights ==> s.flights[h].req.b in s.holder && s.holder[s.flights[h].req.b] == h)
    && (forall b :: b in s.holder ==> s.holder[b] in s.flights && s.flights[s.holder[b]].req.b == b)
  }

  /** The available ring holds the heads that the device has yet to take. */
  ghost predicate AvailOk(s: State) {
    && |s.avail| == NUM && s.taken <= |s.queue| && s.availIdx == |s.queue| % WRAP
    && (forall h :: h in s.flights ==> s.flights[h].id < |s.queue| && s.queue[s.flights[h].id] == h)
    && (forall h :: h in s.flights ==> (s.flights[h].stage == Queued <==> s.flights[h].id >= s.taken))
    && (forall i :: s.taken <= i < |s.queue| ==> AvailAt(s, i))
  }

  ghost predicate AvailAt(s: State, i: nat)
    requires |s.avail| == NUM && i < |s.queue|
  {
    s.queue[i] in s.flights && s.flights[s.queue[i]].id == i && s.avail[i % NUM] == s.queue[i]
  }

  /** The used ring holds the heads that the driver has yet to see. */
  ghost predicate UsedOk(s: State) {
    && |s.used| == NUM && s.seen <= |s.returned| && s.devIdx == |s.returned| % WRAP && s.usedIdx == s.seen % WRAP
    && (forall h :: h in s.flights && s.flights[h].stage.Returned? ==>
          s.seen <= s.flights[h].stage.at < |s.returned| && s.returned[s.flights[h].stage.at] == h)
    && (forall i :: s.seen <= i < |s.returned| ==> UsedAt(s, i))
  }

  ghost predicate UsedAt(s: State, i: nat)
    requires |s.used| == NUM && i < |s.returned|
  {
    s.returned[i] in s.flights && s.flights[s.returned[i]].stage == Returned(i) && s.used[i % NUM] == s.returned[i]
  }

  /** The events of one request, in order. */
  function Of(log: seq<Event>, id: nat): seq<Kind> {
    if log == [] then [] else
      var e := log[|log| - 1];
      Of(log[..|log| - 1], id) + if e.id == id then [e.kind] else []
  }

  function Past(g: Stage): seq<Kind> {
    match g
    case Queued => [Submitted]
    case Held => [Submitted, Taken]
    case Returned(_) => [Submitted, Taken, Answered]
    case Seen => [Submitted, Taken, Answered, Completed]
  }

  /** What has happened to the `id`-th request so far. */
  ghost function Story(queue: seq<int>, flights: map<int, Flight>, id: nat): seq<Kind> {
    if id >= |queue| then []
    else if queue[id] in flights && flights[queue[id]].id == id then Past(flights[queue[id]].stage)
    else [Submitted, Taken, Answered, Completed, Freed]
  }

  ghost predicate TraceOk(s: State) {
    forall id: nat :: Of(s.log, id) == Story(s.queue, s.flights, id)
  }

  ghost predicate AllFlights(s: State) {
    forall h :: h in s.flights ==> FlightOk(s, h, s.flights[h])
  }

  ghost predicate Inv(s: State) {
    AllFlights(s) && Partition(s) && OneEach(s) && AvailOk(s) && UsedOk(s) && TraceOk(s)
  }

  // ---- At most two chains, so the rings never overflow ----

  lemma SmallSet(s: set<int>)
    requires forall i :: i in s ==> 0 <= i < NUM
    ensures |s| <= NUM
  {
    var all: set<int> := {0, 1, 2, 3, 4, 5, 6, 7};
    forall i | i in s ensures i in all {
    }
    assert s <= all;
    assert |all - s| == |all| - |s|;
  }

  lemma ChainOfThree(s: State, h: int)
    requires Partition(s) && h in s.flights
    ensures |Chain(h, s.flights[h])| == 3 && forall i :: i in Chain(h, s.flights[h]) ==> 0 <= i < NUM
  {
    assert Owns(s.owner, h, s.flights[h]);
  }

  lemma NineTooMany(x: set<int>, y: set<int>, z: set<int>)
    requires |x| == |y| == |z| == 3 && x !! y && y !! z && x !! z
    ensures exists i :: i in x + y + z && !(0 <= i < NUM)
  {
    assert |x + y| == 6;
    assert (x + y) !! z;
    assert |x + y + z| == 9;
    if forall i :: i in x + y + z ==> 0 <= i < NUM {
      SmallSet(x + y + z);
    }
  }

  /** Three chains would take nine descriptors. */
  lemma NoThree(s: State, a: int, b: int, c: int)
    requires Partition(s) && a != b && b != c && a != c
    ensures !(a in s.flights && b in s.flights && c in s.flights)
  {
    if a in s.flights && b in s.flights && c in s.flights {
      ChainOfThree(s, a);
      ChainOfThree(s, b);
      ChainOfThree(s, c);
      OthersApart(s, a, b);
      OthersApart(s, b, c);
      OthersApart(s, a, c);
      NineTooMany(Chain(a, s.flights[a]), Chain(b, s.flights[b]), Chain(c, s.flights[c]));
    }
  }

  /** No available entry is overwritten before the device has taken it. */
  lemma AvailFits(s: State)
    requires Inv(s)
    ensures |s.queue| - s.taken <= 2
  {
    var i := s.taken;
    if |s.queue| - i >= 3 {
      assert AvailAt(s, i) && AvailAt(s, i + 1) && AvailAt(s, i + 2);
      NoThree(s, s.queue[i], s.queue[i + 1], s.queue[i + 2]);
    }
  }

  /** No used entry is overwritten before the driver has seen it. */
  lemma UsedFits(s: State)
    requires Inv(s)
    ensures |s.returned| - s.seen <= 2
  {
    var i := s.seen;
    if |s.returned| - i >= 3 {
      assert UsedAt(s, i) && UsedAt(s, i + 1) && UsedAt(s, i + 2);
      NoThree(s, s.returned[i], s.returned[i + 1], s.returned[i + 2]);
    }
  }

  /** The 16-bit indices of the rings tell what is left to see and where, for all time. */
  lemma Wrapped(s: State)
    requires Inv(s)
    ensures s.seen <= |s.returned| && (s.usedIdx == s.devIdx <==> s.seen == |s.returned|)
    ensures s.usedIdx % NUM == s.seen % NUM && s.devIdx % NUM == |s.returned| % NUM
            && s.availIdx % NUM == |s.queue| % NUM
    ensures (s.usedIdx + 1) % WRAP == (s.seen + 1) % WRAP && (s.devIdx + 1) % WRAP == (|s.returned| + 1) % WRAP
    ensures (s.availIdx + 1) % WRAP == (|s.queue| + 1) % WRAP
  {
    hide TraceOk, AllFlights, Partition, OneEach;
    UsedFits(s);
    IndexWraps(s.seen);
    IndexWraps(|s.returned|);
    IndexWraps(|s.queue|);
    Behind(s.seen, |s.returned|);
  }

  lemma IndexWraps(n: nat)
    ensures n % WRAP % NUM == n % NUM && (n % WRAP + 1) % WRAP == (n + 1) % WRAP
  {
  }

  lemma Behind(a: nat, b: nat)
    requires a <= b <= a + 2
    ensures a % WRAP == b % WRAP <==> a == b
  {
  }

  // ---- What the device makes of a chain ----

  /** `into` and `ack` say whether the device may write to the data and to the status. */
  datatype Command = Command(write: bool, sector: nat, data: Addr, len: nat, into: bool, status: Addr, ack: bool)

  /** The device follows the chain from its head. */
  function Decode(desc: seq<Desc>, ops: seq<BlkReq>, h: int): Option<Command> {
    if !(0 <= h < |desc|) || !desc[h].addr.OpAt?
       || !(0 <= desc[h].addr.i < |ops|) || !HasNext(desc[h].flags) then None else
      var m := desc[h].next;
      if !(0 <= m < |desc|) || !HasNext(desc[m].flags) then None else
        var l := desc[m].next;
        if !(0 <= l < |desc|) || HasNext(desc[l].flags) then None else
          var op := ops[desc[h].addr.i];
          Some(Command(op.kind == T_OUT, op.sector, desc[m].addr, desc[m].len, Writable(desc[m].flags),
                       desc[l].addr, Writable(desc[l].flags) && desc[l].len > 0))
  }

  /** The device reads exactly the request: until the driver frees the chain nobody else writes to it. */
  lemma DecodesRequest(s: State, h: int)
    requires Inv(s) && h in s.flights
    ensures var q := s.flights[h].req;
            Decode(s.desc, s.ops, h)
            == Some(Command(q.write, FirstSector(q.blockno), DataOf(q.b), BSIZE, !q.write, StatusAt(h), true))
  {
    assert FlightOk(s, h, s.flights[h]);
  }

  // ---- Steps ----

  /** Submit: a process puts a request in the available ring, if three descriptors are free. Take and Answer are the
      device's; Answer carries the command out. Complete: one pass of the interrupt handler's loop. Free: the process
      finds its request done. Fill: a process that has a buffer to itself changes it. */
  datatype Act = Submit(req: Req) | Take | Answer(h: int) | Complete | Free(h: int) | Fill(b: nat, data: Block)

  ghost predicate Ready(a: Act, s: State) {
    match a
    case Submit(q) =>
      && Room(s.free) && q.b !in s.holder && q.b in s.mem && HasBlock(s.disk, q.blockno)
      && (q.write ==> s.mem[q.b] == q.data)
    case Take => s.taken < |s.queue|
    case Answer(h) => h in s.flights && s.flights[h].stage == Held
    case Complete => s.usedIdx != s.devIdx
    case Free(h) => h in s.flights && s.flights[h].req.b !in s.busy
    case Fill(b, data) => b !in s.holder
  }

  ghost function After(a: Act, s: State): (t: State)
    requires Inv(s) && Ready(a, s)
  {
    match a
    case Submit(q) => AfterSubmit(s, q)
    case Take => AfterTake(s)
    case Answer(h) => AfterAnswer(s, h)
    case Complete => AfterComplete(s)
    case Free(h) => AfterFree(s, h)
    case Fill(b, data) => s.(mem := s.mem[b := data])
  }

  ghost function AfterSubmit(s: State, q: Req): (t: State)
    requires Inv(s) && Room(s.free)
  {
    RoomIsThree(s.free);
    var t := Lowest(s.free);
    assert |s.ops| == NUM ==> t.head < |s.ops|;
    s.(free := Marked(s.free, t), desc := Chained(s.desc, t, q), ops := Set(s.ops, t.head, Header(q)),
       info := Set(s.info, t.head, Info(q.b, PENDING)), busy := s.busy + {q.b},
       avail := s.avail[s.availIdx % NUM := t.head], availIdx := (s.availIdx + 1) % WRAP,
       flights := s.flights[t.head := Flight(t.mid, t.last, q, |s.queue|, Queued)],
       owner := Set(Set(Set(s.owner, t.head, t.head), t.mid, t.head), t.last, t.head),
       holder := s.holder[q.b := t.head],
       queue := s.queue + [t.head], log := s.log + [Event(Submitted, |s.queue|)])
  }

  function Set<T>(s: seq<T>, i: int, x: T): (r: seq<T>)
    ensures |r| == |s| && forall j :: 0 <= j < |s| ==> r[j] == if j == i then x else s[j]
  {
    if 0 <= i < |s| then s[i := x] else s
  }

  function Header(q: Req): BlkReq {
    BlkReq(if q.write then T_OUT else T_IN, q.blockno * SECTORS_PER_BLOCK)
  }

  /** The descriptors with the chain of a request. */
  function Chained(desc: seq<Desc>, t: Trio, q: Req): (r: seq<Desc>)
  {
    Set(Set(Set(desc, t.head, Desc(OpAt(t.head), SIZEOF_BLK_REQ, F_NEXT, t.mid)),
            t.mid, Desc(DataOf(q.b), BSIZE, if q.write then F_NEXT else F_WRITE + F_NEXT, t.last)),
        t.last, Desc(StatusAt(t.head), 1, F_WRITE, 0))
  }

  ghost function AfterTake(s: State): (t: State)
    requires Inv(s) && s.taken < |s.queue|
  {
    assert AvailAt(s, s.taken);
    var h := s.avail[s.taken % NUM];
    s.(taken := s.taken + 1, flights := s.flights[h := s.flights[h].(stage := Held)],
       log := s.log + [Event(Taken, s.flights[h].id)])
  }

  /** The buffers after a command: a read fills one of them, if the device may write to it. */
  function Loaded(c: Command, mem: map<nat, Block>, disk: Disk): map<nat, Block> {
    var data := Fetch(disk, c.sector, c.len / SECTOR);
    if !c.write && c.into && c.data.DataOf? && |data| == BSIZE then mem[c.data.b := data] else mem
  }

  /** The disk after a command: a write stores as many bytes as it says, from a buffer that the device may read. */
  function Stored(c: Command, mem: map<nat, Block>, disk: Disk): Disk {
    if c.write && !c.into && c.data.DataOf? && c.data.b in mem && c.len <= BSIZE
    then Store(disk, c.sector, mem[c.data.b][..c.len]) else disk
  }

  function Acknowledged(c: Command, info: seq<Info>): seq<Info> {
    if c.ack && c.status.StatusAt? && 0 <= c.status.i < |info|
    then info[c.status.i := info[c.status.i].(status := 0)] else info
  }

  /** The device does what the chain says: it transfers the block, writes the status and reports the chain. */
  ghost function AfterAnswer(s: State, h: int): (t: State)
    requires h in s.flights && |s.used| == NUM
  {
    var d := Decode(s.desc, s.ops, h);
    var did := if d == None then s else
      s.(mem := Loaded(d.value, s.mem, s.disk), disk := Stored(d.value, s.mem, s.disk),
         info := Acknowledged(d.value, s.info));
    did.(used := s.used[s.devIdx % NUM := h], devIdx := (s.devIdx + 1) % WRAP,
         flights := s.flights[h := s.flights[h].(stage := Returned(|s.returned|))],
         returned := s.returned + [h], log := s.log + [Event(Answered, s.flights[h].id)])
  }

  ghost function AfterComplete(s: State): (t: State)
    requires Inv(s) && s.usedIdx != s.devIdx
  {
    Wrapped(s);
    assert UsedAt(s, s.seen);
    var h := s.used[s.usedIdx % NUM];
    s.(busy := s.busy - {s.flights[h].req.b}, usedIdx := (s.usedIdx + 1) % WRAP, seen := s.seen + 1,
       flights := s.flights[h := s.flights[h].(stage := Seen)], log := s.log + [Event(Completed, s.flights[h].id)])
  }

  ghost function AfterFree(s: State, h: int): (t: State)
    requires h in s.flights
  {
    var f := s.flights[h];
    s.(free := Set(Set(Set(s.free, h, true), f.mid, true), f.last, true),
       desc := Set(Set(Set(s.desc, h, CLEAR), f.mid, CLEAR), f.last, CLEAR),
       info := if 0 <= h < |s.info| then Set(s.info, h, s.info[h].(b := -1)) else s.info,
       flights := s.flights - {h}, owner := Set(Set(Set(s.owner, h, -1), f.mid, -1), f.last, -1),
       holder := s.holder - {f.req.b}, log := s.log + [Event(Freed, f.id)])
  }

  // ---- Each step keeps the invariant ----

  lemma OfMore(log: seq<Event>, e: Event, id: nat)
    ensures Of(log + [e], id) == Of(log, id) + if e.id == id then [e.kind] else []
  {
    assert (log + [e])[..|log|] == log;
  }

  /** One event more, of the request `e.id`, and nobody else's story changes. */
  lemma TraceMore(s: State, t: State, e: Event)
    requires TraceOk(s) && t.log == s.log + [e]
    requires forall id: nat ::
               Story(t.queue, t.flights, id) == Story(s.queue, s.flights, id) + if e.id == id then [e.kind] else []
    ensures TraceOk(t)
  {
    hide Story;
    forall id: nat ensures Of(t.log, id) == Story(t.queue, t.flights, id) {
      OfMore(s.log, e, id);
      assert Of(s.log, id) == Story(s.queue, s.flights, id);
    }
  }

  /** The head of every chain stands in the queue, at its number. */
  ghost predicate Numbered(queue: seq<int>, flights: map<int, Flight>) {
    forall h :: h in flights ==> flights[h].id < |queue| && queue[flights[h].id] == h
  }

  lemma StoryOn(queue: seq<int>, flights: map<int, Flight>, h: int, g: Stage, k: Kind)
    requires Numbered(queue, flights) && h in flights && Past(g) == Past(flights[h].stage) + [k]
    ensures forall id: nat ::
              Story(queue, flights[h := flights[h].(stage := g)], id)
              == Story(queue, flights, id) + if flights[h].id == id then [k] else []
  {
  }

  lemma StoryNew(queue: seq<int>, flights: map<int, Flight>, h: int, f: Flight)
    requires Numbered(queue, flights) && h !in flights && f.id == |queue| && f.stage == Queued
    ensures forall id: nat ::
              Story(queue + [h], flights[h := f], id)
              == Story(queue, flights, id) + if f.id == id then [Submitted] else []
  {
  }

  lemma StoryDone(queue: seq<int>, flights: map<int, Flight>, h: int)
    requires Numbered(queue, flights) && h in flights && flights[h].stage == Seen
    ensures forall id: nat ::
              Story(queue, flights - {h}, id) == Story(queue, flights, id) + if flights[h].id == id then [Freed] else []
  {
  }

  lemma Slots(a: nat, i: nat, n: nat)
    requires a <= i < n <= a + 2
    ensures i % NUM != n % NUM
  {
  }

  /** A free descriptor is in no chain. */
  lemma FreeIsApart(s: State, i: nat, h: int)
    requires Partition(s) && i < NUM && s.free[i] && h in s.flights
    ensures i !in Chain(h, s.flights[h])
  {
    assert OwnerOk(s, i) && Owns(s.owner, h, s.flights[h]);
  }

  /** Neither are the descriptors of another chain. */
  lemma OthersApart(s: State, h: int, k: nat)
    requires Partition(s) && h in s.flights && k in s.flights && h != k
    ensures Chain(h, s.flights[h]) !! Chain(k, s.flights[k])
  {
    assert Owns(s.owner, h, s.flights[h]) && Owns(s.owner, k, s.flights[k]);
  }

  lemma HeadIsNew(s: State, i: nat)
    requires Partition(s) && i < NUM && s.free[i]
    ensures i !in s.flights
  {
    if i in s.flights {
      FreeIsApart(s, i, i);
    }
  }

  lemma SubmitFlights(s: State, q: Req)
    requires Inv(s) && Ready(Submit(q), s)
    ensures AllFlights(AfterSubmit(s, q))
  {
    var t, u := Lowest(s.free), AfterSubmit(s, q);
    hide Inv, FlightOk, First, Lowest;
    forall h | h in u.flights ensures FlightOk(u, h, u.flights[h]) {
      if h == t.head {
        SubmitNew(s, q);
      } else {
        SubmitOther(s, q, h);
      }
    }
  }

  lemma SubmitHolder(s: State, q: Req)
    requires Inv(s) && Ready(Submit(q), s)
    ensures OneEach(AfterSubmit(s, q))
  {
    var t := Lowest(s.free);
    RoomIsThree(s.free);
    HeadIsNew(s, t.head);
    hide AvailOk, UsedOk, TraceOk, Partition, AllFlights;
  }

  lemma SubmitNew(s: State, q: Req)
    requires Inv(s) && Ready(Submit(q), s)
    ensures var t, u := Lowest(s.free), AfterSubmit(s, q);
            t.head in u.flights && FlightOk(u, t.head, u.flights[t.head])
  {
    RoomIsThree(s.free);
    hide AvailOk, UsedOk, TraceOk, First, OneEach, AllFlights, Lowest, Marked, OwnerOk, Owns;
  }

  /** A new chain leaves the others alone. */
  lemma SubmitOther(s: State, q: Req, h: int)
    requires Inv(s) && Ready(Submit(q), s) && h in s.flights
    ensures FlightOk(AfterSubmit(s, q), h, s.flights[h])
  {
    var t := Lowest(s.free);
    RoomIsThree(s.free);
    assert FlightOk(s, h, s.flights[h]);
    FreeIsApart(s, t.head, h);
    FreeIsApart(s, t.mid, h);
    FreeIsApart(s, t.last, h);
    assert s.holder[s.flights[h].req.b] == h;
    hide AvailOk, UsedOk, TraceOk, First, Partition, OneEach, AllFlights, Lowest, Marked;
  }

  lemma SubmitPartition(s: State, q: Req)
    requires Inv(s) && Ready(Submit(q), s)
    ensures Partition(AfterSubmit(s, q))
  {
    var t, u := Lowest(s.free), AfterSubmit(s, q);
    RoomIsThree(s.free);
    HeadIsNew(s, t.head);
    hide AvailOk, UsedOk, TraceOk, First, AllFlights, OneEach, Lowest;
    forall i | 0 <= i < NUM ensures OwnerOk(u, i) {
      SubmitOwner(s, q, i);
    }
    forall h | h in u.flights ensures Owns(u.owner, h, u.flights[h]) {
      if h != t.head {
        SubmitOwned(s, q, h);
      }
    }
  }

  lemma SubmitOwner(s: State, q: Req, i: int)
    requires Inv(s) && Ready(Submit(q), s) && 0 <= i < NUM
    ensures OwnerOk(AfterSubmit(s, q), i)
  {
    var t := Lowest(s.free);
    RoomIsThree(s.free);
    HeadIsNew(s, t.head);
    assert OwnerOk(s, i);
    hide AvailOk, UsedOk, TraceOk, First, AllFlights, OneEach, Lowest, Partition;
  }

  lemma SubmitOwned(s: State, q: Req, h: int)
    requires Inv(s) && Ready(Submit(q), s) && h in s.flights
    ensures Owns(AfterSubmit(s, q).owner, h, s.flights[h])
  {
    var t := Lowest(s.free);
    RoomIsThree(s.free);
    assert Owns(s.owner, h, s.flights[h]);
    FreeIsApart(s, t.head, h);
    FreeIsApart(s, t.mid, h);
    FreeIsApart(s, t.last, h);
    hide AvailOk, UsedOk, TraceOk, First, AllFlights, OneEach, Partition;
  }

  lemma SubmitRings(s: State, q: Req)
    requires Inv(s) && Ready(Submit(q), s)
    ensures var u := AfterSubmit(s, q); AvailOk(u) && UsedOk(u) && TraceOk(u)
  {
    SubmitAvail(s, q);
    SubmitUsed(s, q);
    SubmitTrace(s, q);
  }

  lemma SubmitAvail(s: State, q: Req)
    requires Inv(s) && Ready(Submit(q), s)
    ensures AvailOk(AfterSubmit(s, q))
  {
    var t, u, n := Lowest(s.free), AfterSubmit(s, q), |s.queue|;
    RoomIsThree(s.free);
    AvailFits(s);
    Wrapped(s);
    HeadIsNew(s, t.head);
    hide First, AllFlights, Partition, OneEach, UsedOk, TraceOk, Lowest;
    forall i | u.taken <= i < |u.queue| ensures AvailAt(u, i) {
      if i < n {
        assert AvailAt(s, i);
        Slots(s.taken, i, n);
      }
    }
  }

  lemma SubmitUsed(s: State, q: Req)
    requires Inv(s) && Ready(Submit(q), s)
    ensures UsedOk(AfterSubmit(s, q))
  {
    var t, u := Lowest(s.free), AfterSubmit(s, q);
    RoomIsThree(s.free);
    HeadIsNew(s, t.head);
    hide First, AllFlights, Partition, OneEach, AvailOk, TraceOk, Lowest;
    forall i | u.seen <= i < |u.returned| ensures UsedAt(u, i) {
      assert UsedAt(s, i);
    }
  }

  lemma SubmitTrace(s: State, q: Req)
    requires Inv(s) && Ready(Submit(q), s)
    ensures TraceOk(AfterSubmit(s, q))
  {
    var t, u, n := Lowest(s.free), AfterSubmit(s, q), |s.queue|;
    RoomIsThree(s.free);
    HeadIsNew(s, t.head);
    hide First, Of, Partition, OneEach, Story, AvailOk, UsedOk, Lowest;
    StoryNew(s.queue, s.flights, t.head, u.flights[t.head]);
    TraceMore(s, u, Event(Submitted, n));
  }

  /** A chain goes on to another stage: descriptors and buffers stay where they are. */
  lemma Restaged(s: State, t: State, h: int, g: Stage)
    requires Partition(s) && OneEach(s) && h in s.flights && t.flights == s.flights[h := s.flights[h].(stage := g)]
    requires t.free == s.free && t.desc == s.desc && |t.ops| == |s.ops| && |t.info| == |s.info|
    requires t.owner == s.owner && t.holder == s.holder
    ensures Partition(t) && OneEach(t)
  {
    forall i | 0 <= i < NUM ensures OwnerOk(t, i) {
      assert OwnerOk(s, i);
    }
    forall k | k in t.flights ensures Owns(t.owner, k, t.flights[k]) {
      assert Owns(s.owner, k, s.flights[k]);
    }
  }

  /** The available ring does not notice what becomes of a chain once the device has it. */
  lemma AvailOn(s: State, t: State, h: int, g: Stage)
    requires AvailOk(s) && h in s.flights && t.flights == s.flights[h := s.flights[h].(stage := g)]
    requires g != Queued && s.flights[h].stage != Queued
    requires t.avail == s.avail && t.availIdx == s.availIdx && t.queue == s.queue && t.taken == s.taken
    ensures AvailOk(t)
  {
    forall i | t.taken <= i < |t.queue| ensures AvailAt(t, i) {
      assert AvailAt(s, i);
    }
  }

  lemma TraceOn(s: State, t: State, h: int, g: Stage, k: Kind)
    requires TraceOk(s) && Numbered(s.queue, s.flights) && h in s.flights && Past(g) == Past(s.flights[h].stage) + [k]
    requires t.flights == s.flights[h := s.flights[h].(stage := g)] && t.queue == s.queue
    requires t.log == s.log + [Event(k, s.flights[h].id)]
    ensures TraceOk(t)
  {
    hide Story, TraceOk;
    StoryOn(s.queue, s.flights, h, g, k);
    TraceMore(s, t, Event(k, s.flights[h].id));
  }

  lemma TakeFlights(s: State, h: int)
    requires AllFlights(s) && h in s.flights && s.flights[h].stage == Queued
    ensures AllFlights(s.(flights := s.flights[h := s.flights[h].(stage := Held)]))
  {
    var t := s.(flights := s.flights[h := s.flights[h].(stage := Held)]);
    forall k | k in t.flights ensures FlightOk(t, k, t.flights[k]) {
      assert FlightOk(s, k, s.flights[k]);
    }
  }

  lemma SameFlights(s: State, t: State)
    requires AllFlights(s) && t.flights == s.flights && t.desc == s.desc && t.ops == s.ops && t.info == s.info
    requires t.busy == s.busy && t.mem == s.mem && t.disk == s.disk
    ensures AllFlights(t)
  {
    forall k | k in t.flights ensures FlightOk(t, k, t.flights[k]) {
      assert FlightOk(s, k, s.flights[k]);
    }
  }

  lemma TakeKeeps(s: State)
    requires Inv(s) && Ready(Take, s)
    ensures Inv(AfterTake(s))
  {
    var t, h, n := AfterTake(s), s.queue[s.taken], s.taken;
    assert AvailAt(s, n);
    Restaged(s, t, h, Held);
    TakeFlights(s, h);
    SameFlights(s.(flights := t.flights), t);
    hide Of, Partition, AllFlights, OneEach, Story;
    forall i | t.taken <= i < |t.queue| ensures AvailAt(t, i) {
      assert AvailAt(s, i);
    }
    forall i | t.seen <= i < |t.returned| ensures UsedAt(t, i) {
      assert UsedAt(s, i);
    }
    TraceOn(s, t, h, Held, Taken);
  }

  /** Answering a request carries out that request. */
  lemma AnswerDoes(s: State, h: int)
    requires Inv(s) && Ready(Answer(h), s)
    ensures var q, t := s.flights[h].req, AfterAnswer(s, h);
            && q.b in s.mem && HasBlock(s.disk, q.blockno)
            && (q.write ==> t.mem == s.mem && t.disk == WithBlock(s.disk, q.blockno, q.data))
            && (!q.write ==> t.disk == s.disk && t.mem == s.mem[q.b := BlockAt(s.disk, q.blockno)])
            && t.info == Set(s.info, h, Info(q.b, 0))
  {
    hide AvailOk, TraceOk, Partition, OneEach;
    DecodesRequest(s, h);
    assert FlightOk(s, h, s.flights[h]);
    var q := s.flights[h].req;
    if q.write {
      StoreBlock(s.disk, q.blockno, q.data);
      assert s.mem[q.b][..BSIZE] == q.data;
    } else {
      FetchBlock(s.disk, q.blockno);
    }
  }

  lemma AnswerFlights(s: State, h: int)
    requires Inv(s) && Ready(Answer(h), s)
    ensures AllFlights(AfterAnswer(s, h)) && Partition(AfterAnswer(s, h)) && OneEach(AfterAnswer(s, h))
  {
    var t := AfterAnswer(s, h);
    AnswerDoes(s, h);
    Restaged(s, t, h, Returned(|s.returned|));
    hide AvailOk, UsedOk, TraceOk, Decode, Partition;
    forall k | k in t.flights ensures FlightOk(t, k, t.flights[k]) {
      assert FlightOk(s, k, s.flights[k]);
      assert k != h ==> s.flights[k].req.b != s.flights[h].req.b;
    }
  }

  lemma UsedMore(s: State, t: State, h: int)
    requires UsedOk(s) && h in s.flights && !s.flights[h].stage.Returned? && |s.returned| - s.seen <= 2
    requires s.devIdx % NUM == |s.returned| % NUM && t.devIdx == (|s.returned| + 1) % WRAP
    requires t.used == s.used[s.devIdx % NUM := h] && t.returned == s.returned + [h]
    requires t.flights == s.flights[h := s.flights[h].(stage := Returned(|s.returned|))]
    requires t.seen == s.seen && t.usedIdx == s.usedIdx
    ensures UsedOk(t)
  {
    var n := |s.returned|;
    forall i | t.seen <= i < |t.returned| ensures UsedAt(t, i) {
      if i < n {
        assert UsedAt(s, i);
        Slots(s.seen, i, n);
      }
    }
  }

  lemma AnswerKeeps(s: State, h: int)
    requires Inv(s) && Ready(Answer(h), s)
    ensures Inv(AfterAnswer(s, h))
  {
    var t, n := AfterAnswer(s, h), |s.returned|;
    AnswerFlights(s, h);
    UsedFits(s);
    Wrapped(s);
    assert |s.used| == NUM;
    assert Numbered(s.queue, s.flights);
    hide Of, AvailOk, UsedOk, TraceOk, Partition, AllFlights, OneEach, Decode, Story;
    AvailOn(s, t, h, Returned(n));
    UsedMore(s, t, h);
    TraceOn(s, t, h, Returned(n), Answered);
  }

  lemma CompleteFlights(s: State, h: int)
    requires AllFlights(s) && OneEach(s) && h in s.flights && s.flights[h].stage.Returned?
    ensures AllFlights(s.(busy := s.busy - {s.flights[h].req.b},
            flights := s.flights[h := s.flights[h].(stage := Seen)]))
  {
    var t := s.(busy := s.busy - {s.flights[h].req.b}, flights := s.flights[h := s.flights[h].(stage := Seen)]);
    forall k | k in t.flights ensures FlightOk(t, k, t.flights[k]) {
      assert FlightOk(s, k, s.flights[k]);
      assert k != h ==> s.flights[k].req.b != s.flights[h].req.b;
    }
  }

  lemma UsedSeen(s: State, t: State, h: int)
    requires UsedOk(s) && s.seen < |s.returned| && h == s.returned[s.seen]
    requires h in s.flights && t.flights == s.flights[h := s.flights[h].(stage := Seen)]
    requires t.seen == s.seen + 1 && t.usedIdx == t.seen % WRAP
    requires t.used == s.used && t.devIdx == s.devIdx && t.returned == s.returned
    ensures UsedOk(t)
  {
    assert UsedAt(s, s.seen);
    forall i | t.seen <= i < |t.returned| ensures UsedAt(t, i) {
      assert UsedAt(s, i);
    }
  }

  lemma CompleteKeeps(s: State)
    requires Inv(s) && Ready(Complete, s)
    ensures Inv(AfterComplete(s))
  {
    Wrapped(s);
    var t, h := AfterComplete(s), s.returned[s.seen];
    assert UsedAt(s, s.seen);
    assert Numbered(s.queue, s.flights);
    CompleteFlights(s, h);
    SameFlights(s.(busy := t.busy, flights := t.flights), t);
    Restaged(s, t, h, Seen);
    hide Of, AvailOk, UsedOk, TraceOk, Partition, AllFlights, OneEach, Story;
    AvailOn(s, t, h, Seen);
    UsedSeen(s, t, h);
    TraceOn(s, t, h, Seen, Completed);
  }

  lemma FreeFlights(s: State, h: int)
    requires Inv(s) && h in s.flights
    ensures AllFlights(AfterFree(s, h))
  {
    var t := AfterFree(s, h);
    hide AvailOk, UsedOk, TraceOk, Partition, FlightOk;
    forall k | k in t.flights ensures FlightOk(t, k, t.flights[k]) {
      FreeOther(s, h, k);
    }
  }

  lemma FreeHolder(s: State, h: int)
    requires Inv(s) && h in s.flights
    ensures OneEach(AfterFree(s, h))
  {
    hide AvailOk, UsedOk, TraceOk, Partition, AllFlights;
  }

  lemma FreeOther(s: State, h: int, k: int)
    requires Inv(s) && h in s.flights && k in s.flights && k != h
    ensures FlightOk(AfterFree(s, h), k, s.flights[k])
  {
    assert FlightOk(s, k, s.flights[k]);
    OthersApart(s, h, k);
    assert k in Chain(k, s.flights[k]) && s.flights[k].mid in Chain(k, s.flights[k]);
    assert s.flights[k].last in Chain(k, s.flights[k]);
    hide AvailOk, UsedOk, TraceOk, Partition, OneEach, AllFlights;
  }

  lemma FreePartition(s: State, h: int)
    requires Inv(s) && h in s.flights
    ensures Partition(AfterFree(s, h))
  {
    hide AvailOk, UsedOk, TraceOk, OneEach, AllFlights;
    var t, f := AfterFree(s, h), s.flights[h];
    assert Owns(s.owner, h, f);
    forall i | 0 <= i < NUM ensures OwnerOk(t, i) {
      assert OwnerOk(s, i);
    }
    forall k | k in t.flights ensures Owns(t.owner, k, t.flights[k]) {
      assert Owns(s.owner, k, s.flights[k]);
    }
  }

  lemma RingsLess(s: State, t: State, h: int)
    requires AvailOk(s) && UsedOk(s) && h in s.flights && s.flights[h].stage == Seen && t.flights == s.flights - {h}
    requires t.avail == s.avail && t.availIdx == s.availIdx && t.queue == s.queue && t.taken == s.taken
    requires t.used == s.used && t.usedIdx == s.usedIdx && t.devIdx == s.devIdx && t.returned == s.returned
    requires t.seen == s.seen
    ensures AvailOk(t) && UsedOk(t)
  {
    forall i | t.taken <= i < |t.queue| ensures AvailAt(t, i) {
      assert AvailAt(s, i);
    }
    forall i | t.seen <= i < |t.returned| ensures UsedAt(t, i) {
      assert UsedAt(s, i);
    }
  }

  lemma FreeKeeps(s: State, h: int)
    requires Inv(s) && Ready(Free(h), s)
    ensures Inv(AfterFree(s, h))
  {
    var t := AfterFree(s, h);
    assert FlightOk(s, h, s.flights[h]);
    FreeFlights(s, h);
    FreeHolder(s, h);
    FreePartition(s, h);
    assert Numbered(s.queue, s.flights);
    hide Of, Partition, AllFlights, OneEach, Story, AvailOk, UsedOk, TraceOk;
    RingsLess(s, t, h);
    StoryDone(s.queue, s.flights, h);
    TraceMore(s, t, Event(Freed, s.flights[h].id));
  }

  lemma FillKeeps(s: State, b: nat, data: Block)
    requires Inv(s) && Ready(Fill(b, data), s)
    ensures Inv(s.(mem := s.mem[b := data]))
  {
    var t := s.(mem := s.mem[b := data]);
    forall k | k in t.flights ensures FlightOk(t, k, t.flights[k]) {
      assert FlightOk(s, k, s.flights[k]);
      assert s.flights[k].req.b != b;
    }
    hide Of, AllFlights, OneEach, Story;
    forall i | 0 <= i < NUM ensures OwnerOk(t, i) {
      assert OwnerOk(s, i);
    }
    forall i | t.taken <= i < |t.queue| ensures AvailAt(t, i) {
      assert AvailAt(s, i);
    }
    forall i | t.seen <= i < |t.returned| ensures UsedAt(t, i) {
      assert UsedAt(s, i);
    }
    forall id: nat ensures Of(t.log, id) == Story(t.queue, t.flights, id) {
      assert Of(s.log, id) == Story(s.queue, s.flights, id);
    }
  }

  lemma StepKeeps(a: Act, s: State)
    requires Inv(s) && Ready(a, s)
    ensures Inv(After(a, s))
  {
    hide AllFlights, Partition, AvailOk, UsedOk, TraceOk, OneEach;
    match a
    case Submit(q) =>
      SubmitFlights(s, q);
      SubmitHolder(s, q);
      SubmitPartition(s, q);
      SubmitRings(s, q);
    case Take => TakeKeeps(s);
    case Answer(h) => AnswerKeeps(s, h);
    case Complete => CompleteKeeps(s);
    case Free(h) => FreeKeeps(s, h);
    case Fill(b, data) => FillKeeps(s, b, data);
  }

  // ---- Whole runs ----

  /** virtio_disk_init: every descriptor is free and cleared, and the rings are empty. */
  ghost predicate Initial(s: State) {
    && |s.free| == |s.desc| == |s.ops| == |s.info| == |s.owner| == |s.avail| == |s.used| == NUM
    && (forall i :: 0 <= i < NUM ==> s.free[i] && s.desc[i] == CLEAR && s.owner[i] == -1)
    && s.availIdx == s.usedIdx == s.devIdx == s.taken == s.seen == 0
    && s.flights == map[] && s.holder == map[] && s.queue == s.returned == [] && s.log == []
  }

  lemma InitialInv(s: State)
    requires Initial(s)
    ensures Inv(s)
  {
  }

  /** These steps can be taken in this order. */
  ghost predicate Runs(acts: seq<Act>, s: State)
    requires Inv(s)
    decreases |acts|
  {
    acts == [] || (Ready(acts[0], s) && (StepKeeps(acts[0], s); Runs(acts[1..], After(acts[0], s))))
  }

  ghost function RunTo(acts: seq<Act>, s: State): (t: State)
    requires Inv(s) && Runs(acts, s)
    ensures Inv(t)
    decreases |acts|
  {
    if acts == [] then s else
      StepKeeps(acts[0], s);
      RunTo(acts[1..], After(acts[0], s))
  }

  /** The next step of a request in flight. */
  ghost function Next(s: State, h: int): (a: Act)
    requires h in s.flights
  {
    match s.flights[h].stage
    case Queued => Take
    case Held => Answer(h)
    case Returned(_) => Complete
    case Seen => Free(h)
  }

  /** Every request in flight can go on: nobody has to wait but for the requests before it in a ring. */
  lemma NotStuck(acts: seq<Act>, s: State, h: int)
    requires Inv(s) && Runs(acts, s) && h in RunTo(acts, s).flights
    ensures var t := RunTo(acts, s); Ready(Next(t, h), t)
  {
    hide Runs, RunTo, TraceOk, OneEach, Partition;
    var t := RunTo(acts, s);
    assert FlightOk(t, h, t.flights[h]);
    Wrapped(t);
    assert t.flights[h].stage.Returned? ==> t.seen < |t.returned|;
  }

  /** However driver, device and processes interleave, and however often the 16-bit indices wrap: each request is
      submitted, taken, answered, completed and freed in this order and at most once each, and its process
      frees it only after all of this. */
  lemma ExactlyOnce(acts: seq<Act>, s: State, id: nat)
    requires Inv(s) && Runs(acts, s)
    ensures var t := RunTo(acts, s);
            && Of(t.log, id) <= [Submitted, Taken, Answered, Completed, Freed]
            && (id < |t.queue| <==> Submitted in Of(t.log, id))
            && (Freed in Of(t.log, id) ==> Of(t.log, id) == [Submitted, Taken, Answered, Completed, Freed])
  {
    hide AllFlights, Partition, AvailOk, UsedOk, OneEach, Runs, RunTo, Of;
    var t := RunTo(acts, s);
    assert Of(t.log, id) == Story(t.queue, t.flights, id);
  }

  /** Buffers and disk change only when the device answers a request, and then as that request says, and
      when a process fills a buffer that is in no request. */
  lemma OnlyAnswersTransfer(a: Act, s: State)
    requires Inv(s) && Ready(a, s)
    ensures var t := After(a, s);
            match a
            case Answer(h) =>
              var q := s.flights[h].req;
              && (q.write ==> t.mem == s.mem && t.disk == WithBlock(s.disk, q.blockno, q.data))
              && (!q.write ==> HasBlock(s.disk, q.blockno) && t.disk == s.disk
                               && t.mem == s.mem[q.b := BlockAt(s.disk, q.blockno)])
            case Fill(b, data) => b !in s.holder && t.disk == s.disk && t.mem == s.mem[b := data]
            case _ => t.mem == s.mem && t.disk == s.disk
  {
    hide AllFlights, Partition, AvailOk, UsedOk, TraceOk, OneEach;
    if a.Answer? {
      AnswerDoes(s, a.h);
    }
  }
}
