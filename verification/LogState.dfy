/** The states of the log of kernel/log.c and the steps of the processes that use it. */
module LogState {
  import opened Bio
  import opened Common
  import opened LogDisk
  import opened LogPhases
  import opened Sums

  // ---- Log space ----

  /** Each operation in progress may still add `credit` blocks, and the log has room for all of them. */
  ghost predicate Reserved(credit: map<int, int>, n: int, outstanding: int) {
    && |credit| == outstanding
    && (forall op :: op in credit ==> 0 <= credit[op] <= MAXOPBLOCKS)
    && n + Sum(credit) <= LOGBLOCKS
  }

  lemma {:induction false} CreditBounds(credit: map<int, int>)
    requires forall op :: op in credit ==> 0 <= credit[op] <= MAXOPBLOCKS
    ensures 0 <= Sum(credit) <= MAXOPBLOCKS * |credit|
    decreases |credit|
  {
    if exists op :: op in credit {
      var op :| op in credit;
      SumDrop(credit, op);
      CreditBounds(credit - {op});
    }
  }

  /** begin_op admits an operation only if its full share fits. */
  lemma Admit(credit: map<int, int>, n: int, outstanding: int, op: int)
    requires Reserved(credit, n, outstanding) && op !in credit
    requires n + (outstanding + 1) * MAXOPBLOCKS <= LOGBLOCKS
    ensures Reserved(credit[op := MAXOPBLOCKS], n, outstanding + 1)
  {
    CreditBounds(credit);
    SumAdd(credit, op, MAXOPBLOCKS);
  }

  /** An operation that has added fewer than MAXOPBLOCKS blocks finds room. */
  lemma Spend(credit: map<int, int>, n: int, outstanding: int, op: int)
    requires Reserved(credit, n, outstanding) && op in credit && credit[op] > 0
    ensures n < LOGBLOCKS && outstanding > 0
    ensures Reserved(credit[op := credit[op] - 1], n + 1, outstanding)
  {
    SumDrop(credit, op);
    CreditBounds(credit - {op});
    SumUpdate(credit, op, credit[op] - 1);
  }

  /** The log is full only once every operation has used up its share. */
  lemma Room(credit: map<int, int>, n: int, outstanding: int, op: int)
    requires Reserved(credit, n, outstanding) && op in credit
    ensures outstanding > 0 && n + credit[op] <= LOGBLOCKS
  {
    SumDrop(credit, op);
    CreditBounds(credit - {op});
  }

  lemma Appended(block: seq<int>, n: nat, k: nat, start: nat, size: nat)
    requires n < LOGBLOCKS == |block| && k !in block[..n] && IsHome(start, k, size)
    requires Distinct(block[..n]) && AllHome(block[..n], start, size)
    ensures var b := block[n := k];
            && b[..n + 1] == block[..n] + [k] && Distinct(b[..n + 1]) && AllHome(b[..n + 1], start, size)
            && From(b[..n + 1], 0) == From(block[..n], 0) + {k} && k !in From(block[..n], 0)
  {
    var b := block[n := k];
    assert b[..n + 1] == block[..n] + [k];
    assert b[..n + 1][0..] == b[..n + 1] && block[..n][0..] == block[..n];
  }

  lemma Retire(credit: map<int, int>, n: int, outstanding: int, op: int)
    requires Reserved(credit, n, outstanding) && op in credit
    ensures Reserved(credit - {op}, n, outstanding - 1)
    ensures outstanding >= 1 && (outstanding == 1 <==> credit.Keys == {op})
  {
    SumDrop(credit, op);
    assert (credit - {op}).Keys == credit.Keys - {op};
    if outstanding == 1 {
      assert |credit.Keys - {op}| == 0;
      assert credit.Keys - {op} == {};
      assert credit.Keys == {op};
    }
  }

  // ---- The state of the log ----

  /** Where the process that commits is. */
  datatype Phase = Open | Logging(t: nat) | Installing(t: nat)

  /** The log in memory and, for the proof: the operations in progress and the blocks each may still add; the blocks
      changed and not logged yet, and by which operation; where the commit under way began; the committed states,
      oldest first, and which of them each disk since boot recovers to; the cache; the blocks locked. */
  datatype State = State(n: int, block: seq<int>, outstanding: int, committing: bool,
                         credit: map<int, int>, writing: map<nat, int>, phase: Phase, from: Start,
                         committed: seq<Disk>, stamps: seq<nat>, s: Store, held: set<nat>)

  /** Between commits: the log on the disk is clear, the logged blocks are pinned, and any other block that
      differs from the disk is being changed by an operation. */
  ghost predicate OpenOk(s: Store, blocks: seq<int>, start: nat, writing: map<nat, int>) {
    && WellFormed(s.disk, start) && Listing(s.disk[start]) == [] && s.pins == From(blocks, 0)
    && |s.view| == |s.disk| && forall k :: 0 <= k < |s.disk| && k !in blocks && k !in writing ==> s.disk[k] == s.view[k]
  }

  ghost predicate PhaseOk(phase: Phase, f: Start, blocks: seq<int>, start: nat, s: Store, writing: map<nat, int>) {
    match phase
    case Open => OpenOk(s, blocks, start, writing)
    case Logging(t) => LoggingAt(f, blocks, start, t, s)
    case Installing(t) => InstallingAt(f, blocks, start, t, s)
  }

  /** What recovery would find now: the last committed state. */
  ghost predicate Durable(phase: Phase, f: Start, disk: Disk, start: nat, home: Disk) {
    match phase
    case Open => SameHome(home, disk, start)
    case Logging(_) => SameHome(home, f.d, start)
    case Installing(_) => home == f.v
  }

  /** There is log space for every operation in progress, and none of them during a commit. */
  ghost predicate SpaceOk(l: State) {
    && Reserved(l.credit, l.n, l.outstanding) && (l.committing ==> l.outstanding == 0)
    && (l.phase != Open ==> l.committing)
  }

  /** A block that an operation has changed and not logged is locked. */
  ghost predicate WritersOk(l: State) {
    forall k :: k in l.writing ==> k in l.held && l.writing[k] in l.credit
  }

  ghost predicate ListOk(l: State, start: nat) {
    && 0 <= l.n <= LOGBLOCKS == |l.block| && Sized(l.s.disk, start) && Sized(l.s.view, start)
    && |l.s.view| == |l.s.disk|
    && AllHome(l.block[..l.n], start, |l.s.disk|) && Distinct(l.block[..l.n])
  }

  /** Every disk since boot, and the one now, recovers to a committed state. */
  ghost predicate Survives(l: State, start: nat, boot: nat) {
    && l.committed != [] && Safe(l.s.disks, boot, l.stamps, l.committed, start)
    && Durable(l.phase, l.from, l.s.disk, start, l.committed[|l.committed| - 1])
  }

  /** The invariant between any two steps of any number of processes. */
  ghost predicate Inv(l: State, start: nat, boot: nat) {
    && ListOk(l, start) && PhaseOk(l.phase, l.from, l.block[..l.n], start, l.s, l.writing)
    && SpaceOk(l) && WritersOk(l) && Survives(l, start, boot)
  }

  /** Every disk since boot recovers to one of the committed states, in their order. */
  ghost predicate Safe(disks: seq<Disk>, boot: nat, stamps: seq<nat>, committed: seq<Disk>, start: nat) {
    && boot + |stamps| == |disks| && committed != []
    && (forall i :: 0 <= i < |stamps| ==>
          stamps[i] < |committed| && RecoversTo(disks[boot + i], committed[stamps[i]], start))
    && (forall i, j :: 0 <= i <= j < |stamps| ==> stamps[i] <= stamps[j])
  }

  lemma SafeMore(disks: seq<Disk>, boot: nat, stamps: seq<nat>, committed: seq<Disk>, start: nat, d: Disk)
    requires Safe(disks, boot, stamps, committed, start) && RecoversTo(d, committed[|committed| - 1], start)
    ensures Safe(disks + [d], boot, stamps + [|committed| - 1], committed, start)
  {
  }

  lemma SafeCommit(disks: seq<Disk>, boot: nat, stamps: seq<nat>, committed: seq<Disk>, start: nat, home: Disk)
    requires Safe(disks, boot, stamps, committed, start)
    ensures Safe(disks, boot, stamps, committed + [home], start)
  {
  }

  // ---- The steps of all processes ----

  /** One step of one process. Those of the process that commits come last. */
  datatype Act =
    | Begin(op: int)
    | Read(k: nat)
    | Change(k: nat, data: Block, op: int)
    | Record(k: nat, op: int)
    | Release(k: nat)
    | Leave(op: int)
    | StartCommit
    | ToLog
    | PutHead
    | ToHome
    | ClearHead
    | EndCommit

  /** When the process need not wait, for another one's lock or for the end of a commit. An operation
      adds at most MAXOPBLOCKS blocks to the log, and logs what it changed before it releases it. */
  ghost predicate Ready(a: Act, l: State, start: nat)
    requires ListOk(l, start)
  {
    match a
    case Begin(op) => op !in l.credit && !l.committing && l.n + (l.outstanding + 1) * MAXOPBLOCKS <= LOGBLOCKS
    case Read(k) => k < |l.s.disk| && k !in l.held
    case Change(k, data, op) => op in l.credit && k < |l.s.disk| && k in l.held && |data| == BLOCK_WORDS
    case Record(k, op) =>
      && k in l.held && IsHome(start, k, |l.s.disk|) && op in l.credit
      && (l.credit[op] > 0 || k in l.block[..l.n]) && l.n < LOGBLOCKS
    case Release(k) => k in l.held && k < |l.s.disk| && k !in l.writing
    case Leave(op) => op in l.credit && forall k :: k in l.writing ==> l.writing[k] != op
    case StartCommit => l.committing && l.phase == Open && l.n > 0
    case ToLog =>
      l.phase.Logging? && l.phase.t < l.n && start + l.phase.t + 1 !in l.held && l.block[l.phase.t] !in l.held
    case PutHead => l.phase == Logging(l.n) && start !in l.held
    case ToHome =>
      l.phase.Installing? && l.phase.t < l.n && start + l.phase.t + 1 !in l.held && l.block[l.phase.t] !in l.held
    case ClearHead => l.phase == Installing(l.n) && start !in l.held
    case EndCommit => l.committing && l.phase == Open && l.n == 0
  }

  ghost function After(a: Act, l: State, start: nat): (m: State)
    requires ListOk(l, start) && Ready(a, l, start)
  {
    match a
    case Begin(op) => l.(outstanding := l.outstanding + 1, credit := l.credit[op := MAXOPBLOCKS])
    case Read(k) => l.(held := l.held + {k})
    case Change(k, data, op) => l.(writing := l.writing[k := op], s := l.s.(view := l.s.view[k := data]))
    case Record(k, op) => if k in l.block[..l.n] then l.(writing := l.writing - {k}) else Longer(l, k, op)
    case Release(k) => l.(held := l.held - {k})
    case Leave(op) => l.(outstanding := l.outstanding - 1, credit := l.credit - {op}, committing := l.outstanding == 1)
    case StartCommit => l.(phase := Logging(0), from := Start(l.s.view, l.s.disk, l.s.disks))
    case ToLog => Moved(l, l.block[l.phase.t], start + l.phase.t + 1).(phase := Logging(l.phase.t + 1))
    case PutHead =>
      Written(l, start, Headed(l.s.view[start], l.block[..l.n])).(
      phase := Installing(0), committed := l.committed + [l.from.v], stamps := l.stamps + [|l.committed|])
    case ToHome =>
      var m := Moved(l, start + l.phase.t + 1, l.block[l.phase.t]);
      m.(phase := Installing(l.phase.t + 1), s := Unpinned(m.s, l.block[l.phase.t]))
    case ClearHead => Written(l, start, Headed(l.s.view[start], [])).(phase := Open, n := 0)
    case EndCommit => l.(committing := false)
  }

  /** One more block is listed. */
  ghost function Longer(l: State, k: nat, op: int): (m: State)
    requires 0 <= l.n < |l.block| && op in l.credit
  {
    l.(n := l.n + 1, block := l.block[l.n := k], credit := l.credit[op := l.credit[op] - 1],
       writing := l.writing - {k}, s := l.s.(pins := l.s.pins + {k}))
  }

  /** A block is written through the cache to the disk, which then recovers to the last committed state. */
  ghost function Written(l: State, k: nat, data: Block): (m: State)
    requires k < |l.s.disk| == |l.s.view|
  {
    l.(stamps := if l.committed == [] then [] else l.stamps + [|l.committed| - 1], s := Through(l.s, k, data))
  }

  ghost function Moved(l: State, src: nat, dst: nat): (m: State)
    requires src < |l.s.view| && dst < |l.s.disk| == |l.s.view|
  {
    Written(l, dst, l.s.view[src])
  }

  // ---- Each step keeps the invariant ----

  /** While an operation is in progress there is no commit. */
  lemma InProgress(l: State, start: nat, boot: nat, op: int)
    requires Inv(l, start, boot) && op in l.credit
    ensures l.phase == Open && !l.committing && l.outstanding > 0
  {
    Room(l.credit, l.n, l.outstanding, op);
  }

  /** A buffer that no operation is changing is pinned, or agrees with the disk. */
  lemma CleanOrPinned(l: State, start: nat, boot: nat, k: nat)
    requires Inv(l, start, boot) && k < |l.s.disk| && k !in l.writing
    ensures k in l.s.pins || l.s.view[k] == l.s.disk[k]
  {
    var blocks := l.block[..l.n];
    match l.phase
    case Open => assert blocks[0..] == blocks;
    case Logging(t) => LoggingClean(l.from, blocks, start, t, l.s, k);
    case Installing(t) => InstallingClean(l.from, blocks, start, t, l.s, k);
  }

  lemma RecordKeeps(l: State, start: nat, boot: nat, k: nat, op: int)
    requires Inv(l, start, boot) && Ready(Record(k, op), l, start)
    ensures Inv(After(Record(k, op), l, start), start, boot)
    ensures k !in l.block[..l.n] ==> k !in l.s.pins && l.block[l.n := k][..l.n + 1] == l.block[..l.n] + [k]
  {
    InProgress(l, start, boot, op);
    if k !in l.block[..l.n] {
      Spend(l.credit, l.n, l.outstanding, op);
      Appended(l.block, l.n, k, start, |l.s.disk|);
      AppendOpen(l.s, l.block[..l.n], start, l.writing, k);
    }
  }

  lemma AppendOpen(s: Store, blocks: seq<int>, start: nat, writing: map<nat, int>, k: nat)
    requires OpenOk(s, blocks, start, writing)
    ensures OpenOk(s.(pins := From(blocks + [k], 0)), blocks + [k], start, writing - {k})
  {
  }

  /** The last operation leaves nothing that is changed and not logged. */
  lemma LeaveKeeps(l: State, start: nat, boot: nat, op: int)
    requires Inv(l, start, boot) && Ready(Leave(op), l, start)
    ensures l.outstanding == 1 <==> l.credit.Keys == {op}
    ensures l.outstanding == 1 ==> l.credit - {op} == map[] && l.writing == map[]
    ensures Inv(After(Leave(op), l, start), start, boot)
  {
    InProgress(l, start, boot, op);
    Retire(l.credit, l.n, l.outstanding, op);
    forall k | k in l.writing ensures l.writing[k] in l.credit - {op} {
    }
    if l.outstanding == 1 {
      assert l.credit - {op} == map[];
      NoWriters(l.writing, l.credit - {op});
    }
  }

  lemma NoWriters(writing: map<nat, int>, credit: map<int, int>)
    requires credit == map[] && forall k :: k in writing ==> writing[k] in credit
    ensures writing == map[]
  {
  }

  lemma StartKeeps(l: State, start: nat, boot: nat)
    requires Inv(l, start, boot) && Ready(StartCommit, l, start)
    ensures Inv(After(StartCommit, l, start), start, boot)
  {
    NoWriters(l.writing, l.credit);
    var blocks := l.block[..l.n];
    assert l.s.disks + [] == l.s.disks;
  }

  /** A write of a commit that stays in its phase. */
  lemma WriteKeeps(l: State, m: State, start: nat, boot: nat)
    requires Inv(l, start, boot) && l.phase != Open && m.phase != Open && (l.phase.Logging? <==> m.phase.Logging?)
    requires m == l.(phase := m.phase, stamps := l.stamps + [|l.committed| - 1], s := m.s)
    requires m.s.disks == l.s.disks + [m.s.disk] && |m.s.disk| == |l.s.disk| == |m.s.view|
    requires Sized(m.s.disk, start) && Sized(m.s.view, start)
    requires PhaseOk(m.phase, l.from, l.block[..l.n], start, m.s, l.writing)
    requires RecoversTo(m.s.disk, l.committed[|l.committed| - 1], start)
    ensures Inv(m, start, boot)
  {
    SafeMore(l.s.disks, boot, l.stamps, l.committed, start, m.s.disk);
  }

  lemma ToLogKeeps(l: State, start: nat, boot: nat)
    requires Inv(l, start, boot) && Ready(ToLog, l, start)
    ensures Inv(After(ToLog, l, start), start, boot)
  {
    hide RecoversTo, InstallingAt, LoggingAt, Recovered, Reserved, OpenOk, Distinct;
    var t, m, blocks := l.phase.t, After(ToLog, l, start), l.block[..l.n];
    var to := start + t + 1;
    assert blocks[t] == l.block[t];
    LogStepOk(l.from, blocks, start, t, l.s, to);
    LoggingRecovers(l.from, blocks, start, t + 1, m.s);
    RecoversAlike(m.s.disk, l.from.d, l.committed[|l.committed| - 1], start);
    LoggingSized(l.from, blocks, start, t + 1, m.s);
    WriteKeeps(l, m, start, boot);
  }

  lemma PutHeadKeeps(l: State, start: nat, boot: nat)
    requires Inv(l, start, boot) && Ready(PutHead, l, start)
    ensures Inv(After(PutHead, l, start), start, boot)
  {
    var m := After(PutHead, l, start);
    HeadStepOk(l.from, l.block[..l.n], start, l.s);
    InstallingRecovers(l.from, l.block[..l.n], start, 0, m.s);
    SafeCommit(l.s.disks, boot, l.stamps, l.committed, start, l.from.v);
    SafeMore(l.s.disks, boot, l.stamps, m.committed, start, m.s.disk);
  }

  lemma ToHomeKeeps(l: State, start: nat, boot: nat)
    requires Inv(l, start, boot) && Ready(ToHome, l, start)
    ensures Inv(After(ToHome, l, start), start, boot)
  {
    hide RecoversTo, InstallingAt, LoggingAt, Recovered, Installed, Reserved, OpenOk, Distinct;
    var t, m, blocks := l.phase.t, After(ToHome, l, start), l.block[..l.n];
    var src := start + t + 1;
    assert blocks[t] == l.block[t];
    InstallStepOk(l.from, blocks, start, t, l.s, src);
    InstallingRecovers(l.from, blocks, start, t + 1, m.s);
    InstallingSized(l.from, blocks, start, t + 1, m.s);
    WriteKeeps(l, m, start, boot);
  }

  lemma ClearHeadKeeps(l: State, start: nat, boot: nat)
    requires Inv(l, start, boot) && Ready(ClearHead, l, start)
    ensures var m := After(ClearHead, l, start);
            && Inv(m, start, boot) && m.s.view == m.s.disk && SameHome(l.from.v, m.s.disk, start)
            && DidCommit(l.from.v, l.from.d, l.from.disks, l.block[..l.n], start, m.s.disk, m.s.disks)
  {
    hide RecoversTo, InstallingAt, LoggingAt, Safe, DidCommit;
    var m := After(ClearHead, l, start);
    ClearStepOk(l.from, l.block[..l.n], start, l.s);
    ClearRecovers(m.s.disk, l.from.v, start);
    SafeMore(l.s.disks, boot, l.stamps, l.committed, start, m.s.disk);
    CreditBounds(l.credit);
    assert m.block[..0] == [];
  }

  /** The invariant holds in every state of every interleaving. */
  lemma StepKeeps(a: Act, l: State, start: nat, boot: nat)
    requires Inv(l, start, boot) && Ready(a, l, start)
    ensures Inv(After(a, l, start), start, boot)
  {
    hide RecoversTo, InstallingAt, LoggingAt, Distinct, AllHome, Safe;
    match a
    case Begin(op) => Admit(l.credit, l.n, l.outstanding, op);
    case Read(k) =>
    case Change(k, data, op) => InProgress(l, start, boot, op);
    case Record(k, op) => RecordKeeps(l, start, boot, k, op);
    case Release(k) =>
    case Leave(op) => LeaveKeeps(l, start, boot, op);
    case StartCommit => StartKeeps(l, start, boot);
    case ToLog => ToLogKeeps(l, start, boot);
    case PutHead => PutHeadKeeps(l, start, boot);
    case ToHome => ToHomeKeeps(l, start, boot);
    case ClearHead => ClearHeadKeeps(l, start, boot);
    case EndCommit =>
  }

  lemma StepAdds(a: Act, l: State, start: nat, boot: nat)
    requires Inv(l, start, boot) && Ready(a, l, start)
    ensures var m := After(a, l, start); l.committed <= m.committed && l.s.disks <= m.s.disks && l.stamps <= m.stamps
  {
  }

  lemma InRange(l: State, start: nat, boot: nat)
    requires Inv(l, start, boot)
    ensures 0 <= l.n <= LOGBLOCKS == |l.block| && ListOk(l, start)
    ensures l.committing ==> l.outstanding == 0
  {
  }

  /** An empty group leaves nothing to write. */
  lemma NothingToCommit(l: State, start: nat, boot: nat)
    requires Inv(l, start, boot) && l.committing && l.phase == Open && l.n == 0
    ensures l.s.view == l.s.disk
    ensures DidCommit(l.s.view, l.s.disk, l.s.disks, l.block[..l.n], start, l.s.disk, l.s.disks)
  {
    CreditBounds(l.credit);
    NoWriters(l.writing, l.credit);
    assert CommitTo(l.s.view, l.s.disk, l.s.disks, l.block[..l.n], start, Tx([], []), l.s.disk, l.s.disks);
  }

  // ---- Whole runs ----

  /** The processes can take these steps in this order. */
  ghost predicate Runs(acts: seq<Act>, l: State, start: nat) {
    acts == [] || (ListOk(l, start) && Ready(acts[0], l, start) && Runs(acts[1..], After(acts[0], l, start), start))
  }

  ghost function RunTo(acts: seq<Act>, l: State, start: nat): (m: State)
    requires Runs(acts, l, start)
  {
    if acts == [] then l else RunTo(acts[1..], After(acts[0], l, start), start)
  }

  /** However the steps interleave: a crash now, or at any earlier write, leaves a disk that recovers to a committed
      state, now to the last one; and no committed state is ever lost. */
  lemma {:induction false} RunSafe(acts: seq<Act>, l: State, start: nat, boot: nat)
    requires Inv(l, start, boot) && Runs(acts, l, start)
    ensures var m := RunTo(acts, l, start);
            Inv(m, start, boot) && l.committed <= m.committed && l.s.disks <= m.s.disks && l.stamps <= m.stamps
  {
    if acts != [] {
      StepKeeps(acts[0], l, start, boot);
      StepAdds(acts[0], l, start, boot);
      RunSafe(acts[1..], After(acts[0], l, start), start, boot);
    }
  }

  /** A crash now loses exactly what is not committed. */
  lemma CrashNow(l: State, start: nat, boot: nat)
    requires Inv(l, start, boot)
    ensures l.committed != [] && RecoversTo(l.s.disk, l.committed[|l.committed| - 1], start)
  {
    var home, blocks := l.committed[|l.committed| - 1], l.block[..l.n];
    match l.phase
    case Open => ClearRecovers(l.s.disk, home, start);
    case Logging(t) => LoggingRecovers(l.from, blocks, start, t, l.s);
    case Installing(t) => InstallingRecovers(l.from, blocks, start, t, l.s);
  }

  /** Nothing but a change by an operation changes what readers see of the home blocks: not the steps of a commit. */
  lemma OnlyChanges(a: Act, l: State, start: nat, boot: nat)
    requires Inv(l, start, boot) && Ready(a, l, start)
    ensures var m := After(a, l, start);
            if a.Change? then m.s.view == l.s.view[a.k := a.data] else SameHome(l.s.view, m.s.view, start)
  {
    StepKeeps(a, l, start, boot);
    if l.phase != Open {
      HomeFixed(l.from, l.block[..l.n], start, l.phase.t, l.s);
      var m := After(a, l, start);
      if m.phase != Open {
        HomeFixed(m.from, m.block[..m.n], start, m.phase.t, m.s);
      } else {
        ClearHeadKeeps(l, start, boot);
      }
    }
  }

  // ---- Whole lives, with crashes ----

  /** Steps of all processes, then a crash, and recoveries that crash in turn after the given numbers of writes. */
  datatype Epoch = Epoch(acts: seq<Act>, crashes: seq<nat>)

  ghost predicate Crashes(d: Disk, ks: seq<nat>, start: nat)
    decreases |ks|
  {
    ks == [] || (&& WellFormed(d, start) && ks[0] <= |Listing(d[start])| + 1
                 && Crashes(RecoveryDisk(d, start, ks[0]), ks[1..], start))
  }

  /** The disk that the last of these recoveries leaves. */
  ghost function Left(d: Disk, ks: seq<nat>, start: nat): (e: Disk)
    requires Crashes(d, ks, start)
    decreases |ks|
  {
    if ks == [] then d else Left(RecoveryDisk(d, start, ks[0]), ks[1..], start)
  }

  lemma {:induction false} LeftRecovers(d: Disk, ks: seq<nat>, start: nat, home: Disk)
    requires Crashes(d, ks, start) && RecoversTo(d, home, start)
    ensures RecoversTo(Left(d, ks, start), home, start)
    decreases |ks|
  {
    if ks != [] {
      if ks[0] <= |Listing(d[start])| {
        RecoveryRestarts(d, start, ks[0]);
      } else {
        RecoveredIsClear(d, start);
      }
      LeftRecovers(RecoveryDisk(d, start, ks[0]), ks[1..], start, home);
    }
  }

  /** The log once recovery from `e` has run to the end. */
  ghost function Booted(e: Disk, start: nat): (l: State)
    requires WellFormed(e, start)
  {
    var d := Recovered(e, start);
    State(0, seq(LOGBLOCKS, _ => 0), 0, false, map[], map[], Open, Start([], [], []), [d], [], Store(d, d, [], {}), {})
  }

  lemma BootedOk(e: Disk, start: nat)
    requires WellFormed(e, start)
    ensures Inv(Booted(e, start), start, 0)
  {
    var l := Booted(e, start);
    RecoveredIsClear(e, start);
    CreditBounds(l.credit);
    assert l.block[..0] == [];
  }

  ghost predicate Lives(es: seq<Epoch>, l: State, start: nat)
    decreases |es|
  {
    es == [] || (&& Runs(es[0].acts, l, start)
                 && var d := RunTo(es[0].acts, l, start).s.disk;
                    && Crashes(d, es[0].crashes, start)
                    && var e := Left(d, es[0].crashes, start);
                       WellFormed(e, start) && Lives(es[1..], Booted(e, start), start))
  }

  /** After each crash the home blocks are those of the last commit before it. */
  ghost predicate Kept(es: seq<Epoch>, l: State, start: nat)
    requires Lives(es, l, start)
    decreases |es|
  {
    es == [] || (var m := RunTo(es[0].acts, l, start);
                 var r := Booted(Left(m.s.disk, es[0].crashes, start), start);
                 && l.committed <= m.committed && m.committed != []
                 && SameHome(m.committed[|m.committed| - 1], r.s.view, start) && r.committed == [r.s.view]
                 && Kept(es[1..], r, start))
  }

  /** Crash atomicity beside any number of processes: whatever they do, wherever the crashes come, in operations, in
      commits or in recoveries, each life begins with the whole of the last commit and nothing else. */
  lemma {:induction false} CommitsSurvive(es: seq<Epoch>, l: State, start: nat, boot: nat)
    requires Inv(l, start, boot) && Lives(es, l, start)
    ensures Kept(es, l, start)
    decreases |es|
  {
    hide Inv, RecoversTo, Left, Crashes, RunTo, Runs, Recovered, SameHome, WellFormed;
    if es != [] {
      var m := RunTo(es[0].acts, l, start);
      RunSafe(es[0].acts, l, start, boot);
      CrashNow(m, start, boot);
      LeftRecovers(m.s.disk, es[0].crashes, start, m.committed[|m.committed| - 1]);
      var e := Left(m.s.disk, es[0].crashes, start);
      RecoversHome(e, m.committed[|m.committed| - 1], start);
      BootedOk(e, start);
      CommitsSurvive(es[1..], Booted(e, start), start, 0);
    }
  }

  lemma RecoversHome(e: Disk, home: Disk, start: nat)
    requires RecoversTo(e, home, start)
    ensures WellFormed(e, start) && SameHome(home, Recovered(e, start), start)
  {
  }
}
