/** What the block writes of kernel/log.c leave on the disk, and what recovery makes of it. */
module LogDisk {
  import opened Bio
  import opened Common

  const LOGBLOCKS := 30

  /** Block `n` is one of the header and the log blocks. */
  predicate InLog(start: nat, n: int) {
    start <= n <= start + LOGBLOCKS
  }

  predicate IsHome(start: nat, n: int, blocks: nat) {
    0 <= n < blocks && !InLog(start, n)
  }

  ghost predicate Sized(d: Disk, start: nat) {
    start + LOGBLOCKS < |d| && forall n :: 0 <= n < |d| ==> |d[n]| == BLOCK_WORDS
  }

  ghost predicate AllHome(blocks: seq<int>, start: nat, size: nat) {
    |blocks| <= LOGBLOCKS && forall i :: 0 <= i < |blocks| ==> IsHome(start, blocks[i], size)
  }

  /** The block numbers a header lists. */
  function Listing(head: Block): seq<int>
    requires |head| == BLOCK_WORDS
  {
    if 0 <= head[0] <= LOGBLOCKS then head[1..1 + head[0]] else []
  }

  /** A header lists at most LOGBLOCKS blocks, all outside the log. */
  ghost predicate WellFormed(d: Disk, start: nat) {
    && Sized(d, start)
    && 0 <= d[start][0] <= LOGBLOCKS
    && AllHome(Listing(d[start]), start, |d|)
  }

  /** The header block after write_head: words past the list keep what they held. */
  function Headed(head: Block, blocks: seq<int>): (r: Block)
    requires |head| == BLOCK_WORDS && |blocks| <= LOGBLOCKS
    ensures |r| == BLOCK_WORDS && Listing(r) == blocks
  {
    [|blocks|] + blocks + head[1 + |blocks|..]
  }

  function WithHead(d: Disk, start: nat, blocks: seq<int>): (r: Disk)
    requires start < |d| && |d[start]| == BLOCK_WORDS && |blocks| <= LOGBLOCKS
    ensures |r| == |d|
  {
    d[start := Headed(d[start], blocks)]
  }

  /** The disk once the first `i` log blocks are copied home. */
  function Installed(d: Disk, start: nat, blocks: seq<int>, i: nat): (r: Disk)
    requires start + LOGBLOCKS < |d| && AllHome(blocks, start, |d|) && i <= |blocks|
    ensures |r| == |d|
    ensures forall n :: 0 <= n < |d| && n !in blocks[..i] ==> r[n] == d[n]
  {
    if i == 0 then d else
      var r := Installed(d, start, blocks, i - 1);
      assert blocks[..i] == blocks[..i - 1] + [blocks[i - 1]];
      r[blocks[i - 1] := r[start + i]]
  }

  /** The disk once the first `i` blocks of a transaction are in the log. */
  function Logged(d: Disk, start: nat, data: seq<Block>, i: nat): (r: Disk)
    requires start + LOGBLOCKS < |d| && i <= |data| <= LOGBLOCKS
    ensures |r| == |d|
    ensures forall n :: 0 <= n < |d| ==> r[n] == if start < n <= start + i then data[n - start - 1] else d[n]
  {
    if i == 0 then d else Logged(d, start, data, i - 1)[start + i := data[i - 1]]
  }

  /** The disk after recovery has run to the end. */
  function Recovered(d: Disk, start: nat): (r: Disk)
    requires WellFormed(d, start)
    ensures |r| == |d|
  {
    var blocks := Listing(d[start]);
    WithHead(Installed(d, start, blocks, |blocks|), start, [])
  }

  /** The same contents outside the log. */
  ghost predicate SameHome(d: Disk, e: Disk, start: nat) {
    |e| == |d| && forall n :: IsHome(start, n, |d|) ==> e[n] == d[n]
  }

  // ---- Recovery is idempotent, even from a crash inside it ----

  lemma InstalledSized(d: Disk, start: nat, blocks: seq<int>, i: nat)
    requires Sized(d, start) && AllHome(blocks, start, |d|) && i <= |blocks|
    ensures Sized(Installed(d, start, blocks, i), start)
  {
    if i > 0 {
      InstalledSized(d, start, blocks, i - 1);
    }
  }

  /** Disks that differ only in blocks about to be overwritten are installed alike. */
  lemma {:induction false} InstalledAgree(d: Disk, e: Disk, start: nat, blocks: seq<int>, i: nat)
    requires start + LOGBLOCKS < |d| == |e| && AllHome(blocks, start, |d|) && i <= |blocks|
    requires forall n :: 0 <= n < |d| && n !in blocks ==> d[n] == e[n]
    ensures var d', e' := Installed(d, start, blocks, i), Installed(e, start, blocks, i);
            forall n :: 0 <= n < |d| && (n !in blocks || n in blocks[..i]) ==> d'[n] == e'[n]
  {
    if i > 0 {
      InstalledAgree(d, e, start, blocks, i - 1);
      assert blocks[..i] == blocks[..i - 1] + [blocks[i - 1]];
      assert start + i !in blocks;
    }
  }

  /** Recovery undoes nothing it has done: from any point inside it, it ends in the same disk. */
  lemma RecoveryRestarts(d: Disk, start: nat, i: nat)
    requires WellFormed(d, start) && i <= |Listing(d[start])|
    ensures var e := Installed(d, start, Listing(d[start]), i);
            WellFormed(e, start) && Recovered(e, start) == Recovered(d, start)
  {
    var blocks := Listing(d[start]);
    var e := Installed(d, start, blocks, i);
    InstalledSized(d, start, blocks, i);
    assert start !in blocks;
    assert e[start] == d[start];
    InstalledAgree(d, e, start, blocks, |blocks|);
    assert blocks[..|blocks|] == blocks;
    assert Installed(d, start, blocks, |blocks|) == Installed(e, start, blocks, |blocks|);
  }

  /** A recovered disk lists nothing, and recovering it again changes nothing. */
  lemma RecoveredIsClear(d: Disk, start: nat)
    requires WellFormed(d, start)
    ensures var r := Recovered(d, start);
            WellFormed(r, start) && Listing(r[start]) == [] && Recovered(r, start) == r
  {
    var blocks := Listing(d[start]);
    InstalledSized(d, start, blocks, |blocks|);
    var r := Recovered(d, start);
    assert Listing(r[start]) == [];
    assert Headed(r[start], []) == r[start];
    assert Recovered(r, start) == r;
  }

  // ---- Commit: every crash point gives the old state or the new one ----

  /** A group transaction: the blocks it logs and what it puts in them. */
  datatype Tx = Tx(blocks: seq<int>, data: seq<Block>)

  ghost predicate ValidTx(tx: Tx, start: nat, size: nat) {
    && 0 < |tx.blocks| == |tx.data|
    && AllHome(tx.blocks, start, size) && Distinct(tx.blocks)
    && forall i :: 0 <= i < |tx.data| ==> |tx.data[i]| == BLOCK_WORDS
  }

  /** A disk to which the first `i` blocks of the transaction are written, all at once. */
  function Applied(d: Disk, tx: Tx, i: nat): (r: Disk)
    requires i <= |tx.blocks| == |tx.data|
    requires forall j :: 0 <= j < |tx.blocks| ==> 0 <= tx.blocks[j] < |d|
    ensures |r| == |d|
  {
    if i == 0 then d else Applied(d, tx, i - 1)[tx.blocks[i - 1] := tx.data[i - 1]]
  }

  /** How many block writes a commit makes. */
  function CommitWrites(tx: Tx): nat {
    2 * |tx.blocks| + 2
  }

  /** The disk once the log and the header of a commit are written. */
  function Committed(d: Disk, start: nat, tx: Tx): (r: Disk)
    requires Sized(d, start) && ValidTx(tx, start, |d|)
    ensures Sized(r, start) && |r| == |d| && Listing(r[start]) == tx.blocks
    ensures forall n :: IsHome(start, n, |d|) ==> r[n] == d[n]
    ensures forall i :: 0 <= i < |tx.data| ==> r[start + 1 + i] == tx.data[i]
  {
    WithHead(Logged(d, start, tx.data, |tx.data|), start, tx.blocks)
  }

  /** The disk after `k` block writes of a commit: the log, the header, the home blocks, the cleared header. */
  function CommitDisk(d: Disk, start: nat, tx: Tx, k: nat): (r: Disk)
    requires Sized(d, start) && ValidTx(tx, start, |d|) && k <= CommitWrites(tx)
    ensures |r| == |d|
  {
    var n := |tx.blocks|;
    if k <= n then
      Logged(d, start, tx.data, k)
    else if k <= 2 * n + 1 then
      Installed(Committed(d, start, tx), start, tx.blocks, k - n - 1)
    else
      Recovered(Committed(d, start, tx), start)
  }

  lemma {:induction false} InstalledEach(d: Disk, start: nat, tx: Tx, i: nat)
    requires start + LOGBLOCKS < |d| && AllHome(tx.blocks, start, |d|) && Distinct(tx.blocks)
    requires |tx.blocks| == |tx.data| && i <= |tx.blocks|
    requires forall j :: 0 <= j < |tx.data| ==> d[start + 1 + j] == tx.data[j]
    ensures SameHome(Applied(d, tx, i), Installed(d, start, tx.blocks, i), start)
  {
    if i > 0 {
      InstalledEach(d, start, tx, i - 1);
      assert start + i !in tx.blocks[..i - 1];
      assert d[start + 1 + (i - 1)] == tx.data[i - 1];
    }
  }

  lemma {:induction false} AppliedSame(d: Disk, e: Disk, start: nat, tx: Tx, i: nat)
    requires SameHome(d, e, start) && i <= |tx.blocks| == |tx.data| && AllHome(tx.blocks, start, |d|)
    ensures SameHome(Applied(d, tx, i), Applied(e, tx, i), start)
  {
    if i > 0 {
      AppliedSame(d, e, start, tx, i - 1);
    }
  }

  /** Up to the header write nothing has happened. */
  lemma CrashBeforeHeader(d: Disk, start: nat, tx: Tx, k: nat)
    requires WellFormed(d, start) && Listing(d[start]) == [] && ValidTx(tx, start, |d|) && k <= |tx.blocks|
    ensures var e := CommitDisk(d, start, tx, k);
            WellFormed(e, start) && Listing(e[start]) == [] && SameHome(d, Recovered(e, start), start)
  {
    var e := CommitDisk(d, start, tx, k);
    assert e[start] == d[start];
  }

  lemma RecoveredCommit(d: Disk, start: nat, tx: Tx)
    requires WellFormed(d, start) && ValidTx(tx, start, |d|)
    ensures var c := Committed(d, start, tx);
            WellFormed(c, start) && SameHome(Applied(d, tx, |tx.blocks|), Recovered(c, start), start)
  {
    var n, c := |tx.blocks|, Committed(d, start, tx);
    AppliedSame(d, c, start, tx, n);
    InstalledEach(c, start, tx, n);
  }

  /** While blocks are installed, recovery ends where it would have from the start. */
  lemma CrashInstalling(d: Disk, start: nat, tx: Tx, i: nat)
    requires WellFormed(d, start) && ValidTx(tx, start, |d|) && i <= |tx.blocks|
    ensures var e := Installed(Committed(d, start, tx), start, tx.blocks, i);
            WellFormed(e, start) && SameHome(Applied(d, tx, |tx.blocks|), Recovered(e, start), start)
  {
    RecoveredCommit(d, start, tx);
    RecoveryRestarts(Committed(d, start, tx), start, i);
  }

  lemma CrashCleared(d: Disk, start: nat, tx: Tx)
    requires WellFormed(d, start) && ValidTx(tx, start, |d|)
    ensures WellFormed(Committed(d, start, tx), start)
    ensures var e := Recovered(Committed(d, start, tx), start);
            WellFormed(e, start) && SameHome(Applied(d, tx, |tx.blocks|), Recovered(e, start), start)
  {
    RecoveredCommit(d, start, tx);
    RecoveredIsClear(Committed(d, start, tx), start);
  }

  lemma InstallingDisk(d: Disk, start: nat, tx: Tx, k: nat)
    requires WellFormed(d, start) && ValidTx(tx, start, |d|) && |tx.blocks| < k <= 2 * |tx.blocks| + 1
    ensures CommitDisk(d, start, tx, k) == Installed(Committed(d, start, tx), start, tx.blocks, k - |tx.blocks| - 1)
  {
    hide Installed, Committed;
  }

  /** From the header write on the whole transaction has happened. */
  lemma CrashAfterHeader(d: Disk, start: nat, tx: Tx, k: nat)
    requires WellFormed(d, start) && ValidTx(tx, start, |d|) && |tx.blocks| < k <= CommitWrites(tx)
    ensures var e := CommitDisk(d, start, tx, k);
            && WellFormed(e, start)
            && SameHome(Applied(d, tx, |tx.blocks|), Recovered(e, start), start)
  {
    hide Installed, Applied, SameHome, Committed;
    var n, c := |tx.blocks|, Committed(d, start, tx);
    if k <= 2 * n + 1 {
      var i := k - n - 1;
      CrashInstalling(d, start, tx, i);
      InstallingDisk(d, start, tx, k);
    } else {
      CrashCleared(d, start, tx);
    }
  }

  /** A commit that runs to the end leaves a clear log and the new contents at home. */
  lemma CommitDone(d: Disk, start: nat, tx: Tx)
    requires WellFormed(d, start) && ValidTx(tx, start, |d|)
    ensures var e := CommitDisk(d, start, tx, CommitWrites(tx));
            && WellFormed(e, start) && Listing(e[start]) == []
            && SameHome(Applied(d, tx, |tx.blocks|), e, start)
  {
    CrashAfterHeader(d, start, tx, CommitWrites(tx));
    RecoveredIsClear(Committed(d, start, tx), start);
  }

  // ---- Whole runs, with crashes anywhere ----

  datatype Event =
    | Commit(tx: Tx)
    | CrashInCommit(tx: Tx, writes: nat)
    | Crash
    | Recover
    | CrashInRecovery(writes: nat)

  /** The machine is up once recovery has run to the end. */
  datatype Machine = Machine(disk: Disk, up: bool)

  ghost predicate Enabled(m: Machine, start: nat, e: Event) {
    && WellFormed(m.disk, start)
    && match e
       case Commit(tx) => m.up && ValidTx(tx, start, |m.disk|)
       case CrashInCommit(tx, k) => m.up && ValidTx(tx, start, |m.disk|) && k <= CommitWrites(tx)
       case Crash => true
       case Recover => !m.up
       case CrashInRecovery(k) => !m.up && k <= |Listing(m.disk[start])| + 1
  }

  function RecoveryDisk(d: Disk, start: nat, k: nat): (r: Disk)
    requires WellFormed(d, start) && k <= |Listing(d[start])| + 1
    ensures |r| == |d|
  {
    var blocks := Listing(d[start]);
    if k <= |blocks| then Installed(d, start, blocks, k) else Recovered(d, start)
  }

  ghost function Step(m: Machine, start: nat, e: Event): Machine
    requires Enabled(m, start, e)
  {
    match e
    case Commit(tx) => m.(disk := CommitDisk(m.disk, start, tx, CommitWrites(tx)))
    case CrashInCommit(tx, k) => Machine(CommitDisk(m.disk, start, tx, k), false)
    case Crash => m.(up := false)
    case Recover => Machine(RecoveryDisk(m.disk, start, |Listing(m.disk[start])| + 1), true)
    case CrashInRecovery(k) => m.(disk := RecoveryDisk(m.disk, start, k))
  }

  /** The transaction an event commits: one that crashes counts if its header was written. */
  function Commits(e: Event): seq<Tx> {
    match e
    case Commit(tx) => [tx]
    case CrashInCommit(tx, k) => if k > |tx.blocks| then [tx] else []
    case _ => []
  }

  ghost predicate IsRun(m: Machine, start: nat, run: seq<Event>, last: Machine)
    decreases |run|
  {
    if run == [] then last == m else
      Enabled(m, start, run[0]) && IsRun(Step(m, start, run[0]), start, run[1..], last)
  }

  function CommittedBy(run: seq<Event>): seq<Tx> {
    if run == [] then [] else Commits(run[0]) + CommittedBy(run[1..])
  }

  ghost predicate Fit(txs: seq<Tx>, start: nat, size: nat) {
    forall i :: 0 <= i < |txs| ==> ValidTx(txs[i], start, size)
  }

  /** Whole transactions, one after another. */
  ghost function AppliedAll(d: Disk, start: nat, txs: seq<Tx>): (r: Disk)
    requires Fit(txs, start, |d|)
    ensures |r| == |d|
    decreases |txs|
  {
    if txs == [] then d else
      assert ValidTx(txs[0], start, |d|);
      AppliedAll(Applied(d, txs[0], |txs[0].blocks|), start, txs[1..])
  }

  /** The disk, once recovered, is the given one outside the log; while up it is so already. */
  ghost predicate Stands(m: Machine, start: nat, home: Disk) {
    && WellFormed(m.disk, start)
    && SameHome(home, Recovered(m.disk, start), start)
    && (m.up ==> Listing(m.disk[start]) == [] && SameHome(home, m.disk, start))
  }

  lemma CommitStands(m: Machine, start: nat, tx: Tx, home: Disk)
    requires Enabled(m, start, Commit(tx)) && Stands(m, start, home)
    ensures Stands(Step(m, start, Commit(tx)), start, AppliedAll(home, start, [tx]))
  {
    CommitDone(m.disk, start, tx);
    AppliedSame(home, m.disk, start, tx, |tx.blocks|);
    AppliedOne(home, start, tx);
    var d := Step(m, start, Commit(tx)).disk;
    assert Recovered(d, start) == WithHead(d, start, []);
  }

  lemma CrashInCommitStands(m: Machine, start: nat, tx: Tx, k: nat, home: Disk)
    requires Enabled(m, start, CrashInCommit(tx, k)) && Stands(m, start, home)
    ensures Stands(Step(m, start, CrashInCommit(tx, k)), start,
                   AppliedAll(home, start, if k > |tx.blocks| then [tx] else []))
  {
    AppliedOne(home, start, tx);
    if k > |tx.blocks| {
      CrashAfterHeader(m.disk, start, tx, k);
      AppliedSame(home, m.disk, start, tx, |tx.blocks|);
    } else {
      CrashBeforeHeader(m.disk, start, tx, k);
    }
  }

  lemma StepStands(m: Machine, start: nat, e: Event, home: Disk)
    requires Enabled(m, start, e) && Stands(m, start, home)
    ensures Fit(Commits(e), start, |home|)
    ensures Stands(Step(m, start, e), start, AppliedAll(home, start, Commits(e)))
  {
    match e
    case Commit(tx) =>
      CommitStands(m, start, tx, home);
    case CrashInCommit(tx, k) =>
      CrashInCommitStands(m, start, tx, k, home);
    case Crash =>
    case Recover =>
      RecoveredIsClear(m.disk, start);
    case CrashInRecovery(k) =>
      if k <= |Listing(m.disk[start])| {
        RecoveryRestarts(m.disk, start, k);
      } else {
        RecoveredIsClear(m.disk, start);
      }
  }

  lemma AppliedOne(d: Disk, start: nat, tx: Tx)
    requires ValidTx(tx, start, |d|)
    ensures AppliedAll(d, start, [tx]) == Applied(d, tx, |tx.blocks|)
  {
    assert [tx][1..] == [];
  }

  lemma {:induction false} AppliedThen(d: Disk, start: nat, a: seq<Tx>, b: seq<Tx>)
    requires Fit(a, start, |d|) && Fit(b, start, |d|)
    ensures Fit(a + b, start, |d|)
    ensures AppliedAll(d, start, a + b) == AppliedAll(AppliedAll(d, start, a), start, b)
    decreases |a|
  {
    if a == [] {
      assert a + b == b;
    } else {
      assert ValidTx(a[0], start, |d|);
      AppliedThen(Applied(d, a[0], |a[0].blocks|), start, a[1..], b);
      assert (a + b)[1..] == a[1..] + b;
    }
  }

  /** Crash atomicity: whatever crashes a run takes, in commits and in recoveries, what recovery
      finds at home are the whole transactions whose header was written, and nothing else. */
  lemma {:induction false} CrashAtomicity(m: Machine, start: nat, run: seq<Event>, last: Machine, home: Disk)
    requires Stands(m, start, home) && IsRun(m, start, run, last)
    ensures Fit(CommittedBy(run), start, |home|)
    ensures Stands(last, start, AppliedAll(home, start, CommittedBy(run)))
    decreases |run|
  {
    if run != [] {
      StepStands(m, start, run[0], home);
      var next := AppliedAll(home, start, Commits(run[0]));
      CrashAtomicity(Step(m, start, run[0]), start, run[1..], last, next);
      AppliedThen(home, start, Commits(run[0]), CommittedBy(run[1..]));
    }
  }
}
