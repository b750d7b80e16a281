/** What the log of kernel/log.c promises to the operations that use it: room for the blocks of each one, and a disk
    that, after any crash, is as it was between operations. */
module LogShare {
  import Bio
  import opened Common
  import opened LogDisk
  import opened LogPhases
  import opened LogState

  // ---- An operation within its share never meets a full log ----

  /** The blocks that an operation passes to log_write in these steps. */
  ghost function Logged(acts: seq<Act>, op: int): (ks: set<int>) {
    if acts == [] then {}
    else (if acts[0].Record? && acts[0].op == op then {acts[0].k as int} else {}) + Logged(acts[1..], op)
  }

  ghost function Listed(l: State): (ks: set<int>)
    requires 0 <= l.n <= |l.block|
  {
    set i | 0 <= i < l.n :: l.block[i]
  }

  /** While an operation is in progress nothing leaves the list, and it pays for the blocks that it adds itself. */
  lemma StepShare(a: Act, l: State, start: nat, boot: nat, op: int)
    requires Inv(l, start, boot) && Ready(a, l, start) && op in l.credit && a != Leave(op)
    ensures var m := After(a, l, start);
            && ListOk(m, start) && op in m.credit && Listed(l) <= Listed(m)
            && if a.Record? && a.op == op && a.k !in Listed(l) then
                 m.credit[op] == l.credit[op] - 1 && Listed(m) == Listed(l) + {a.k as int}
               else m.credit[op] == l.credit[op]
  {
    hide RecoversTo, PhaseOk, AllHome, Distinct, Reserved, Survives;
    InProgress(l, start, boot, op);
    StepKeeps(a, l, start, boot);
    if a.Record? {
      assert a.k in l.block[..l.n] <==> a.k in Listed(l);
      if a.k !in Listed(l) {
        ListedMore(l, a.k, a.op);
      }
    }
  }

  lemma ListedMore(l: State, k: nat, op: int)
    requires 0 <= l.n < |l.block| && op in l.credit
    ensures Listed(Longer(l, k, op)) == Listed(l) + {k as int}
  {
    var m := Longer(l, k, op);
    forall x | x in Listed(l) + {k as int} ensures x in Listed(m) {
      if x == k {
        assert m.block[l.n] == x;
      } else {
        var i :| 0 <= i < l.n && l.block[i] == x;
        assert m.block[i] == x;
      }
    }
  }

  /** What an operation still may add falls only by the blocks that it logged and that were not listed before. */
  lemma {:induction false} ShareLeft(acts: seq<Act>, l: State, start: nat, boot: nat, op: int)
    requires Inv(l, start, boot) && Runs(acts, l, start) && op in l.credit && Leave(op) !in acts
    ensures var m := RunTo(acts, l, start);
            op in m.credit && m.credit[op] >= l.credit[op] - |Logged(acts, op) - Listed(l)|
  {
    hide Inv, After, Ready;
    if acts != [] {
      var a, rest := acts[0], acts[1..];
      assert a in acts;
      StepShare(a, l, start, boot, op);
      StepKeeps(a, l, start, boot);
      var m := After(a, l, start);
      ShareLeft(rest, m, start, boot, op);
      var before, now := Logged(acts, op) - Listed(l), Logged(rest, op) - Listed(m);
      if a.Record? && a.op == op && a.k !in Listed(l) {
        assert before == now + {a.k as int} && a.k as int !in now;
      } else {
        SubsetSize(now, before);
      }
    }
  }

  /** However the operations interleave: one that has logged fewer than MAXOPBLOCKS different blocks can log any block,
      and log_write does not panic. */
  lemma Fits(acts: seq<Act>, l: State, start: nat, boot: nat, op: int)
    requires Inv(l, start, boot) && Ready(Begin(op), l, start) && Leave(op) !in acts
    requires Runs(acts, After(Begin(op), l, start), start) && |Logged(acts, op)| < MAXOPBLOCKS
    ensures var m := RunTo(acts, After(Begin(op), l, start), start);
            && Inv(m, start, boot) && op in m.credit && m.credit[op] > 0 && m.n < LOGBLOCKS
            && forall k :: k in m.held && IsHome(start, k, |m.s.disk|) ==> Ready(Record(k, op), m, start)
  {
    var b := After(Begin(op), l, start);
    StepKeeps(Begin(op), l, start, boot);
    ShareLeft(acts, b, start, boot, op);
    RunSafe(acts, b, start, boot);
    SubsetSize(Logged(acts, op) - Listed(b), Logged(acts, op));
    var m := RunTo(acts, b, start);
    Room(m.credit, m.n, m.outstanding, op);
  }

  // ---- A full log can be reached, by operations that all keep within their shares ----

  /** The block number of the i-th block behind the log. */
  function Home(i: nat, start: nat): (k: nat) { start + LOGBLOCKS + 1 + i }

  /** Three operations read and log ten blocks each. */
  ghost function Filling(i: nat, start: nat): (acts: seq<Act>)
    requires i <= LOGBLOCKS
    decreases LOGBLOCKS - i
  {
    if i == LOGBLOCKS then []
    else [Read(Home(i, start)), Record(Home(i, start), i / MAXOPBLOCKS)] + Filling(i + 1, start)
  }

  /** What an operation may still add once `i` blocks are logged. */
  function Remaining(op: int, i: int): (c: int) {
    if i <= op * MAXOPBLOCKS then MAXOPBLOCKS else if i >= (op + 1) * MAXOPBLOCKS then 0 else (op + 1) * MAXOPBLOCKS - i
  }

  ghost predicate Filled(l: State, i: nat, start: nat) {
    && l.n == i <= LOGBLOCKS == |l.block| && start + 2 * LOGBLOCKS < |l.s.disk|
    && l.credit.Keys == {0, 1, 2} && (forall op :: op in l.credit ==> l.credit[op] == Remaining(op, i))
    && (forall j: nat :: j < i ==> l.block[j] == Home(j, start) && Home(j, start) in l.held)
    && (forall k :: k in l.held ==> k < Home(i, start))
  }

  lemma FillStep(l: State, i: nat, start: nat, boot: nat)
    requires Inv(l, start, boot) && Filled(l, i, start) && i < LOGBLOCKS
    ensures var k, op := Home(i, start), i / MAXOPBLOCKS;
            && ListOk(l, start) && Ready(Read(k), l, start)
            && var m := After(Read(k), l, start);
               && ListOk(m, start) && Ready(Record(k, op), m, start)
               && var e := After(Record(k, op), m, start);
                  Inv(e, start, boot) && Filled(e, i + 1, start)
  {
    hide RecoversTo, PhaseOk, AllHome, Distinct, Reserved, Survives;
    var k, op := Home(i, start), i / MAXOPBLOCKS;
    StepKeeps(Read(k), l, start, boot);
    var m := After(Read(k), l, start);
    assert k !in m.block[..m.n];
    StepKeeps(Record(k, op), m, start, boot);
  }

  lemma {:induction false} FillRuns(l: State, i: nat, start: nat, boot: nat)
    requires Inv(l, start, boot) && Filled(l, i, start) && i <= LOGBLOCKS
    ensures Runs(Filling(i, start), l, start)
    ensures var m := RunTo(Filling(i, start), l, start); Inv(m, start, boot) && Filled(m, LOGBLOCKS, start)
    decreases LOGBLOCKS - i
  {
    hide Inv, After, Ready, ListOk, Filled;
    if i < LOGBLOCKS {
      FillStep(l, i, start, boot);
      var acts, k, op := Filling(i, start), Home(i, start), i / MAXOPBLOCKS;
      var m := After(Read(k), l, start);
      var e := After(Record(k, op), m, start);
      FillRuns(e, i + 1, start, boot);
      assert acts[1..] == [Record(k, op)] + Filling(i + 1, start);
      assert acts[1..][1..] == Filling(i + 1, start);
    }
  }

  ghost function Admitted(l: State, op: int): (m: State) {
    l.(outstanding := l.outstanding + 1, credit := l.credit[op := MAXOPBLOCKS])
  }

  /** Three operations may begin one after the other. */
  lemma AdmitThree(e: Bio.Disk, start: nat)
    requires WellFormed(e, start) && start + 2 * LOGBLOCKS < |e|
    ensures var l := Booted(e, start);
            var a, b, c := Admitted(l, 0), Admitted(Admitted(l, 0), 1), Admitted(Admitted(Admitted(l, 0), 1), 2);
            && ListOk(l, start) && Ready(Begin(0), l, start) && After(Begin(0), l, start) == a
            && ListOk(a, start) && Ready(Begin(1), a, start) && After(Begin(1), a, start) == b
            && ListOk(b, start) && Ready(Begin(2), b, start) && After(Begin(2), b, start) == c
            && Inv(c, start, 0) && Filled(c, 0, start)
  {
    hide RecoversTo, PhaseOk, AllHome, Distinct, Reserved, Survives, WellFormed, Recovered;
    BootedOk(e, start);
    var l := Booted(e, start);
    StepKeeps(Begin(0), l, start, 0);
    StepKeeps(Begin(1), Admitted(l, 0), start, 0);
    StepKeeps(Begin(2), Admitted(Admitted(l, 0), 1), start, 0);
  }

  lemma RunsMore(a: Act, acts: seq<Act>, l: State, start: nat)
    requires ListOk(l, start) && Ready(a, l, start) && Runs(acts, After(a, l, start), start)
    ensures Runs([a] + acts, l, start) && RunTo([a] + acts, l, start) == RunTo(acts, After(a, l, start), start)
  {
    assert ([a] + acts)[1..] == acts;
  }

  lemma FilledLast(m: State, start: nat)
    requires Filled(m, LOGBLOCKS, start)
    ensures var k := Home(LOGBLOCKS - 1, start);
            && m.n == LOGBLOCKS <= |m.block| && 2 in m.credit && m.credit[2] == 0
            && k in m.held && IsHome(start, k, |m.s.disk|) && k in m.block[..m.n]
  {
    assert m.block[..m.n][LOGBLOCKS - 1] == Home(LOGBLOCKS - 1, start);
  }

  /** From any boot of a disk with LOGBLOCKS blocks behind the log: three operations, each with no more than its share,
      fill the log. Then the third may log its last block again by the rules, and log_write panics. */
  lemma FullLog(e: Bio.Disk, start: nat)
    requires WellFormed(e, start) && start + 2 * LOGBLOCKS < |e|
    ensures var acts := [Begin(0), Begin(1), Begin(2)] + Filling(0, start);
            && Runs(acts, Booted(e, start), start)
            && var m, k := RunTo(acts, Booted(e, start), start), Home(LOGBLOCKS - 1, start);
               && Inv(m, start, 0) && m.n == LOGBLOCKS <= |m.block| && 2 in m.credit && m.credit[2] == 0
               && k in m.held && IsHome(start, k, |m.s.disk|) && k in m.block[..m.n]
  {
    hide Inv, After, Ready, ListOk, Filled, Booted, Filling, WellFormed, Admitted;
    var l, acts := Booted(e, start), [Begin(0), Begin(1), Begin(2)] + Filling(0, start);
    AdmitThree(e, start);
    var c := Admitted(Admitted(Admitted(l, 0), 1), 2);
    FillRuns(c, 0, start, 0);
    FilledLast(RunTo(Filling(0, start), c, start), start);
    RunsMore(Begin(2), Filling(0, start), Admitted(Admitted(l, 0), 1), start);
    RunsMore(Begin(1), [Begin(2)] + Filling(0, start), Admitted(l, 0), start);
    RunsMore(Begin(0), [Begin(1)] + ([Begin(2)] + Filling(0, start)), l, start);
    assert acts == [Begin(0)] + ([Begin(1)] + ([Begin(2)] + Filling(0, start)));
  }

  // ---- What holds between operations holds after every crash ----

  /** The property depends on the home blocks only. */
  ghost predicate OfHome(p: Bio.Disk -> bool, start: nat) {
    forall d: Bio.Disk, e: Bio.Disk :: SameHome(d, e, start) && p(d) ==> p(e)
  }

  /** The property holds of what readers see whenever no operation is in progress, and no commit. */
  ghost predicate Settled(acts: seq<Act>, l: State, start: nat, p: Bio.Disk -> bool)
    requires Runs(acts, l, start)
  {
    && (l.outstanding == 0 && l.phase == Open ==> p(l.s.view))
    && (acts == [] || Settled(acts[1..], After(acts[0], l, start), start, p))
  }

  ghost predicate AllHold(l: State, p: Bio.Disk -> bool) {
    (forall i :: 0 <= i < |l.committed| ==> p(l.committed[i])) && (l.phase.Logging? ==> p(l.from.v))
  }

  lemma StepHolds(a: Act, l: State, start: nat, boot: nat, p: Bio.Disk -> bool)
    requires Inv(l, start, boot) && Ready(a, l, start) && AllHold(l, p)
    requires l.outstanding == 0 && l.phase == Open ==> p(l.s.view)
    ensures AllHold(After(a, l, start), p)
  {
    hide RecoversTo, PhaseOk, AllHome, Distinct, Reserved, Survives;
  }

  /** Then it holds of every committed state of the run. */
  lemma {:induction false} RunHolds(acts: seq<Act>, l: State, start: nat, boot: nat, p: Bio.Disk -> bool)
    requires Inv(l, start, boot) && Runs(acts, l, start) && Settled(acts, l, start, p) && AllHold(l, p)
    ensures AllHold(RunTo(acts, l, start), p)
  {
    hide Inv, After, Ready, AllHold, ListOk;
    if acts != [] {
      StepHolds(acts[0], l, start, boot, p);
      StepKeeps(acts[0], l, start, boot);
      RunHolds(acts[1..], After(acts[0], l, start), start, boot, p);
    }
  }

  ghost predicate SettledLives(es: seq<Epoch>, l: State, start: nat, p: Bio.Disk -> bool)
    requires Lives(es, l, start)
    decreases |es|
  {
    es == [] || (&& Settled(es[0].acts, l, start, p)
                 && var d := RunTo(es[0].acts, l, start).s.disk;
                    SettledLives(es[1..], Booted(Left(d, es[0].crashes, start), start), start, p))
  }

  /** Each life begins with a disk that has the property. */
  ghost predicate Begins(es: seq<Epoch>, l: State, start: nat, p: Bio.Disk -> bool)
    requires Lives(es, l, start)
    decreases |es|
  {
    p(l.s.view) && (es == [] || (var d := RunTo(es[0].acts, l, start).s.disk;
                                 Begins(es[1..], Booted(Left(d, es[0].crashes, start), start), start, p)))
  }

  /** A property of the file system that its operations keep, each taken as a whole, holds after every crash: in the
      middle of operations, of a commit or of a recovery. */
  lemma {:induction false} StaysConsistent(es: seq<Epoch>, l: State, start: nat, p: Bio.Disk -> bool)
    requires Inv(l, start, 0) && Lives(es, l, start) && SettledLives(es, l, start, p) && OfHome(p, start)
    requires AllHold(l, p) && p(l.s.view)
    ensures Begins(es, l, start, p)
    decreases |es|
  {
    hide Inv, RecoversTo, Left, Crashes, RunTo, Runs, Recovered, SameHome, WellFormed, Settled;
    if es != [] {
      var m := RunTo(es[0].acts, l, start);
      RunHolds(es[0].acts, l, start, 0, p);
      RunSafe(es[0].acts, l, start, 0);
      CrashNow(m, start, 0);
      var home, e := m.committed[|m.committed| - 1], Left(m.s.disk, es[0].crashes, start);
      LeftRecovers(m.s.disk, es[0].crashes, start, home);
      RecoversHome(e, home, start);
      BootedOk(e, start);
      StaysConsistent(es[1..], Booted(e, start), start, p);
    }
  }
}
