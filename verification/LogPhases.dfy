/** The phases of a commit of kernel/log.c, block write by block write. */
module LogPhases {
  import opened Bio
  import opened Common
  import opened LogDisk

  function RecoveryTrace(d: Disk, start: nat): (r: seq<Disk>)
    requires WellFormed(d, start)
  {
    var n := |Listing(d[start])| + 1;
    seq(n, k requires 0 <= k < n => RecoveryDisk(d, start, k + 1))
  }

  function LogTrace(d: Disk, start: nat, data: seq<Block>, i: nat): (r: seq<Disk>)
    requires start + LOGBLOCKS < |d| && i <= |data| <= LOGBLOCKS
  {
    seq(i, k requires 0 <= k < i => Logged(d, start, data, k + 1))
  }

  function InstallTrace(d: Disk, start: nat, blocks: seq<int>, i: nat): (r: seq<Disk>)
    requires start + LOGBLOCKS < |d| && AllHome(blocks, start, |d|) && i <= |blocks|
  {
    seq(i, k requires 0 <= k < i => Installed(d, start, blocks, k + 1))
  }

  lemma LogTraceMore(earlier: seq<Disk>, d: Disk, start: nat, data: seq<Block>, i: nat)
    requires start + LOGBLOCKS < |d| && i < |data| <= LOGBLOCKS
    ensures earlier + LogTrace(d, start, data, i + 1)
         == earlier + LogTrace(d, start, data, i) + [Logged(d, start, data, i + 1)]
  {
    assert LogTrace(d, start, data, i + 1) == LogTrace(d, start, data, i) + [Logged(d, start, data, i + 1)];
  }

  lemma InstallTraceNone(earlier: seq<Disk>, d: Disk, start: nat, blocks: seq<int>)
    requires start + LOGBLOCKS < |d| && AllHome(blocks, start, |d|)
    ensures earlier + InstallTrace(d, start, blocks, 0) == earlier && Installed(d, start, blocks, 0) == d
  {
  }

  lemma InstallTraceMore(earlier: seq<Disk>, d: Disk, start: nat, blocks: seq<int>, i: nat)
    requires start + LOGBLOCKS < |d| && AllHome(blocks, start, |d|) && i < |blocks|
    ensures earlier + InstallTrace(d, start, blocks, i + 1)
         == earlier + InstallTrace(d, start, blocks, i) + [Installed(d, start, blocks, i + 1)]
  {
    assert InstallTrace(d, start, blocks, i + 1)
        == InstallTrace(d, start, blocks, i) + [Installed(d, start, blocks, i + 1)];
  }

  /** The blocks listed from position `i` on. */
  ghost function From(blocks: seq<int>, i: nat): set<nat>
    requires i <= |blocks|
  {
    set n: nat | n in blocks[i..]
  }

  lemma FromNext(blocks: seq<int>, i: nat)
    requires i < |blocks| && blocks[i] >= 0
    ensures blocks[i] in From(blocks, i)
    ensures Distinct(blocks) ==> From(blocks, i) - {blocks[i]} == From(blocks, i + 1)
  {
    assert blocks[i..] == [blocks[i]] + blocks[i + 1..];
  }

  /** Equal but for the given blocks. */
  ghost predicate AgreeBut(v: Disk, d: Disk, blocks: seq<int>) {
    |v| == |d| && forall k :: 0 <= k < |d| && k !in blocks ==> d[k] == v[k]
  }

  /** The transaction that the cache holds for the given blocks. */
  function Pending(v: Disk, blocks: seq<int>): (tx: Tx)
    requires forall i :: 0 <= i < |blocks| ==> 0 <= blocks[i] < |v|
  {
    Tx(blocks, seq(|blocks|, i requires 0 <= i < |blocks| => v[blocks[i]]))
  }

  lemma PendingValid(v: Disk, d: Disk, blocks: seq<int>, start: nat)
    requires |v| == |d| && AllHome(blocks, start, |d|) && Distinct(blocks) && |blocks| > 0
    requires forall k :: 0 <= k < |v| ==> |v[k]| == BLOCK_WORDS
    ensures ValidTx(Pending(v, blocks), start, |d|)
  {
  }

  /** Applying the pending transaction to the disk gives what the cache shows. */
  lemma {:induction false} PendingUpTo(v: Disk, d: Disk, tx: Tx, i: nat)
    requires |v| == |d| && i <= |tx.blocks|
    requires forall j :: 0 <= j < |tx.blocks| ==> 0 <= tx.blocks[j] < |v|
    requires tx == Pending(v, tx.blocks)
    ensures var e := Applied(d, tx, i);
            forall k :: 0 <= k < |d| ==> e[k] == if k in tx.blocks[..i] then v[k] else d[k]
  {
    if i > 0 {
      PendingUpTo(v, d, tx, i - 1);
      assert tx.blocks[..i] == tx.blocks[..i - 1] + [tx.blocks[i - 1]];
    }
  }

  lemma PendingApplied(v: Disk, d: Disk, tx: Tx, start: nat)
    requires AgreeBut(v, d, tx.blocks)
    requires forall j :: 0 <= j < |tx.blocks| ==> 0 <= tx.blocks[j] < |v|
    requires tx == Pending(v, tx.blocks)
    ensures Applied(d, tx, |tx.blocks|) == v
  {
    PendingUpTo(v, d, tx, |tx.blocks|);
    assert tx.blocks[..|tx.blocks|] == tx.blocks;
  }

  /** Once the header is written, cache and disk still differ in the logged blocks only. */
  lemma HeaderWritten(v: Disk, d: Disk, tx: Tx, start: nat)
    requires Sized(d, start) && Sized(v, start) && ValidTx(tx, start, |d|) && AgreeBut(v, d, tx.blocks)
    ensures var n, head := |tx.blocks|, Headed(Logged(v, start, tx.data, |tx.blocks|)[start], tx.blocks);
            && Logged(d, start, tx.data, n)[start := head] == Committed(d, start, tx)
            && WellFormed(Committed(d, start, tx), start)
            && AgreeBut(Logged(v, start, tx.data, n)[start := head], Committed(d, start, tx), tx.blocks)
  {
    assert start !in tx.blocks;
    assert v[start] == d[start];
  }

  /** The disks that a commit writes: the log, the header, the home blocks and the cleared header, in this order. */
  function CommitTrace(d: Disk, start: nat, tx: Tx): (r: seq<Disk>)
    requires Sized(d, start) && ValidTx(tx, start, |d|)
  {
    var c, n := Committed(d, start, tx), |tx.blocks|;
    LogTrace(d, start, tx.data, n) + [c] + (InstallTrace(c, start, tx.blocks, n) + [Recovered(c, start)])
  }

  /** They are the disks of the runs with crashes. */
  lemma CommitTraceAt(d: Disk, start: nat, tx: Tx, k: nat)
    requires Sized(d, start) && ValidTx(tx, start, |d|) && k < CommitWrites(tx)
    ensures |CommitTrace(d, start, tx)| == CommitWrites(tx)
            && CommitTrace(d, start, tx)[k] == CommitDisk(d, start, tx, k + 1)
  {
    var c, n := Committed(d, start, tx), |tx.blocks|;
    var a, b, r := LogTrace(d, start, tx.data, n), InstallTrace(c, start, tx.blocks, n), Recovered(c, start);
    Pick(a, c, b, r, k);
    if k < n {
      assert a[k] == Logged(d, start, tx.data, k + 1);
    } else if n < k <= 2 * n {
      var i := k - n;
      assert b[i - 1] == Installed(c, start, tx.blocks, i);
    }
  }

  lemma Pick<T>(a: seq<T>, c: T, b: seq<T>, r: T, k: nat)
    requires k < |a| + |b| + 2
    ensures (a + [c] + (b + [r]))[k] ==
            if k < |a| then a[k] else if k == |a| then c else if k <= |a| + |b| then b[k - |a| - 1] else r
  {
  }

  lemma Regroup(p: seq<Disk>, a: seq<Disk>, b: seq<Disk>, c: seq<Disk>, e: seq<Disk>)
    ensures p + a + b + c + e == p + (a + b + (c + e))
  {
    assert a + b + (c + e) == a + b + c + e;
  }

  /** The block writes of a commit, each one recorded. */
  ghost predicate DidCommit(v: Disk, d: Disk, disks: seq<Disk>, blocks: seq<int>, start: nat,
                            d': Disk, disks': seq<Disk>) {
    exists tx :: CommitTo(v, d, disks, blocks, start, tx, d', disks')
  }

  /** From view `v` and disk `d`: the transaction is what the cache holds for the listed blocks.
      Without any, nothing is written. */
  ghost predicate CommitTo(v: Disk, d: Disk, disks: seq<Disk>, blocks: seq<int>, start: nat, tx: Tx,
                           d': Disk, disks': seq<Disk>) {
    if blocks == [] then
      d' == d && disks' == disks
    else
      && Sized(d, start) && ValidTx(tx, start, |d|)
      && |v| == |d| && tx.blocks == blocks && tx == Pending(v, tx.blocks)
      && d' == CommitDisk(d, start, tx, CommitWrites(tx))
      && disks' == disks + CommitTrace(d, start, tx)
  }

  lemma CommitOutcome(v: Disk, d: Disk, disks: seq<Disk>, tx: Tx, start: nat)
    requires WellFormed(d, start) && ValidTx(tx, start, |d|) && AgreeBut(v, d, tx.blocks) && tx == Pending(v, tx.blocks)
    ensures var c, n := Committed(d, start, tx), |tx.blocks|;
            && WellFormed(c, start)
            && var r := Recovered(c, start);
               && WellFormed(r, start) && Listing(r[start]) == [] && SameHome(v, r, start)
               && DidCommit(v, d, disks, tx.blocks, start, r,
                            disks + LogTrace(d, start, tx.data, n) + [c] + InstallTrace(c, start, tx.blocks, n) + [r])
  {
    CommitDone(d, start, tx);
    var c, n := Committed(d, start, tx), |tx.blocks|;
    Regroup(disks, LogTrace(d, start, tx.data, n), [c], InstallTrace(c, start, tx.blocks, n), [Recovered(c, start)]);
    PendingApplied(v, d, tx, start);
    assert CommitTo(v, d, disks, tx.blocks, start, tx, Recovered(c, start), disks + CommitTrace(d, start, tx));
  }

  lemma RecoveryTraceParts(d: Disk, start: nat)
    requires WellFormed(d, start)
    ensures var blocks := Listing(d[start]);
            RecoveryTrace(d, start) == InstallTrace(d, start, blocks, |blocks|) + [Recovered(d, start)]
  {
  }

  // ---- A commit under way ----

  /** The cache, the disk and the history of writes when a commit begins. */
  datatype Start = Start(v: Disk, d: Disk, disks: seq<Disk>)

  /** Only the blocks to commit differ between the two, and the log on the disk is clear. */
  ghost predicate StartOk(f: Start, blocks: seq<int>, start: nat) {
    && Sized(f.v, start) && WellFormed(f.d, start) && Listing(f.d[start]) == [] && AgreeBut(f.v, f.d, blocks)
    && blocks != [] && Distinct(blocks) && AllHome(blocks, start, |f.d|)
  }

  ghost function TxOf(f: Start, blocks: seq<int>, start: nat): (tx: Tx)
    requires StartOk(f, blocks, start)
    ensures ValidTx(tx, start, |f.d|) && tx == Pending(f.v, tx.blocks) && tx.blocks == blocks
  {
    PendingValid(f.v, f.d, blocks, start);
    Pending(f.v, blocks)
  }

  /** What the cache shows, what is on the disk and what was written on the way. */
  datatype Store = Store(view: Disk, disk: Disk, disks: seq<Disk>, pins: set<nat>)

  /** A block is written through the cache to the disk. */
  ghost function Through(s: Store, k: nat, data: Block): (r: Store)
    requires k < |s.view| == |s.disk|
  {
    var disk := s.disk[k := data];
    Store(s.view[k := data], disk, s.disks + [disk], s.pins)
  }

  ghost function Unpinned(s: Store, k: nat): (r: Store) {
    s.(pins := s.pins - {k})
  }

  /** `t` blocks are in the log. */
  ghost predicate LoggingAt(f: Start, blocks: seq<int>, start: nat, t: nat, s: Store) {
    && StartOk(f, blocks, start) && t <= |blocks|
    && var data := TxOf(f, blocks, start).data;
       && s.disk == Logged(f.d, start, data, t) && s.view == Logged(f.v, start, data, t)
       && s.disks == f.disks + LogTrace(f.d, start, data, t) && s.pins == From(blocks, 0)
  }

  /** The view once the header is written. */
  ghost function HeadedView(f: Start, blocks: seq<int>, start: nat): (w: Disk)
    requires StartOk(f, blocks, start)
    ensures |w| == |f.v|
  {
    var v := Logged(f.v, start, TxOf(f, blocks, start).data, |blocks|);
    v[start := Headed(v[start], blocks)]
  }

  /** The header is written and `t` blocks are installed. */
  ghost predicate InstallingAt(f: Start, blocks: seq<int>, start: nat, t: nat, s: Store) {
    && StartOk(f, blocks, start) && t <= |blocks|
    && var tx := TxOf(f, blocks, start);
       var c := Committed(f.d, start, tx);
       && s.disk == Installed(c, start, blocks, t)
       && s.view == Installed(HeadedView(f, blocks, start), start, blocks, t)
       && s.disks == f.disks + LogTrace(f.d, start, tx.data, |blocks|) + [c] + InstallTrace(c, start, blocks, t)
       && s.pins == From(blocks, t)
  }

  /** One block copied to the log. */
  lemma LogStepOk(f: Start, blocks: seq<int>, start: nat, t: nat, s: Store, to: nat)
    requires LoggingAt(f, blocks, start, t, s) && t < |blocks| && to == start + t + 1
    ensures 0 <= blocks[t] < |s.view| && to < |s.view| == |s.disk| && blocks[t] in s.pins && blocks[t] != to
    ensures LoggingAt(f, blocks, start, t + 1, Through(s, to, s.view[blocks[t]]))
  {
    var data := TxOf(f, blocks, start).data;
    assert IsHome(start, blocks[t], |f.d|);
    assert s.view[blocks[t]] == data[t];
    LogTraceMore(f.disks, f.d, start, data, t);
    FromNext(blocks, 0);
    assert blocks[t] in blocks[0..];
  }

  lemma LoggingSized(f: Start, blocks: seq<int>, start: nat, t: nat, s: Store)
    requires LoggingAt(f, blocks, start, t, s)
    ensures Sized(s.disk, start) && Sized(s.view, start) && |s.disk| == |s.view| == |f.d|
  {
  }

  lemma InstallingSized(f: Start, blocks: seq<int>, start: nat, t: nat, s: Store)
    requires InstallingAt(f, blocks, start, t, s)
    ensures Sized(s.disk, start) && Sized(s.view, start) && |s.disk| == |s.view| == |f.d|
  {
    var w := HeadedView(f, blocks, start);
    InstalledSized(Committed(f.d, start, TxOf(f, blocks, start)), start, blocks, t);
    InstalledSized(w, start, blocks, t);
  }

  /** The header write commits. */
  lemma HeadStepOk(f: Start, blocks: seq<int>, start: nat, s: Store)
    requires LoggingAt(f, blocks, start, |blocks|, s)
    ensures start < |s.view| == |s.disk| && |s.view[start]| == BLOCK_WORDS
    ensures InstallingAt(f, blocks, start, 0, Through(s, start, Headed(s.view[start], blocks)))
  {
    var tx := TxOf(f, blocks, start);
    HeaderWritten(f.v, f.d, tx, start);
    var c := Committed(f.d, start, tx);
    assert InstallTrace(c, start, blocks, 0) == [];
  }

  /** Cache and disk agree on the log area while blocks are installed. */
  lemma InstallAgrees(f: Start, blocks: seq<int>, start: nat, t: nat, s: Store, k: int)
    requires InstallingAt(f, blocks, start, t, s) && InLog(start, k)
    ensures k < |s.view| == |s.disk| && s.view[k] == s.disk[k]
  {
    var tx := TxOf(f, blocks, start);
    HeaderWritten(f.v, f.d, tx, start);
    forall i | 0 <= i < |blocks| ensures blocks[i] != k {
      assert IsHome(start, blocks[i], |f.d|);
    }
    assert k !in blocks[..t] && k !in blocks;
  }

  /** One block copied home. */
  lemma InstallStepOk(f: Start, blocks: seq<int>, start: nat, t: nat, s: Store, src: nat)
    requires InstallingAt(f, blocks, start, t, s) && t < |blocks| && src == start + t + 1
    ensures 0 <= blocks[t] < |s.view| == |s.disk| && src < |s.view| && blocks[t] in s.pins && blocks[t] != src
    ensures s.view[src] == s.disk[src]
    ensures InstallingAt(f, blocks, start, t + 1, Unpinned(Through(s, blocks[t], s.view[src]), blocks[t]))
  {
    var tx, w := TxOf(f, blocks, start), HeadedView(f, blocks, start);
    var c := Committed(f.d, start, tx);
    var earlier := f.disks + LogTrace(f.d, start, tx.data, |blocks|) + [c];
    assert IsHome(start, blocks[t], |f.d|);
    InstallAgrees(f, blocks, start, t, s, src);
    InstalledNext(c, start, blocks, t, src);
    InstalledNext(w, start, blocks, t, src);
    InstallTraceMore(earlier, c, start, blocks, t);
    FromNext(blocks, t);
  }

  lemma InstalledNext(d: Disk, start: nat, blocks: seq<int>, t: nat, src: nat)
    requires start + LOGBLOCKS < |d| && AllHome(blocks, start, |d|) && t < |blocks| && src == start + t + 1
    ensures 0 <= blocks[t] < |d| && src < |d| && blocks[t] != src
    ensures var r := Installed(d, start, blocks, t);
            Installed(d, start, blocks, t + 1) == r[blocks[t] := r[src]]
  {
    assert IsHome(start, blocks[t], |d|);
  }

  /** The cleared header ends the commit: cache and disk agree. */
  lemma ClearStepOk(f: Start, blocks: seq<int>, start: nat, s: Store)
    requires InstallingAt(f, blocks, start, |blocks|, s)
    ensures start < |s.view| == |s.disk| && |s.view[start]| == BLOCK_WORDS && s.pins == {}
    ensures var r := Through(s, start, Headed(s.view[start], []));
            && r.view == r.disk && r.pins == {} && WellFormed(r.disk, start) && Listing(r.disk[start]) == []
            && SameHome(f.v, r.disk, start) && DidCommit(f.v, f.d, f.disks, blocks, start, r.disk, r.disks)
  {
    hide DidCommit;
    var tx, n := TxOf(f, blocks, start), |blocks|;
    InstalledAlike(f, blocks, start);
    InstalledSized(Committed(f.d, start, tx), start, blocks, n);
    CommitOutcome(f.v, f.d, f.disks, tx, start);
    assert blocks[n..] == [];
  }

  /** Once everything is installed, cache and disk agree. */
  lemma InstalledAlike(f: Start, blocks: seq<int>, start: nat)
    requires StartOk(f, blocks, start)
    ensures var n, c, w := |blocks|, Committed(f.d, start, TxOf(f, blocks, start)), HeadedView(f, blocks, start);
            WellFormed(c, start) && Installed(w, start, blocks, n) == Installed(c, start, blocks, n)
  {
    var tx, n := TxOf(f, blocks, start), |blocks|;
    var c, w := Committed(f.d, start, tx), HeadedView(f, blocks, start);
    HeaderWritten(f.v, f.d, tx, start);
    InstalledAgree(c, w, start, blocks, n);
    assert blocks[..n] == blocks;
  }

  /** Whatever the phase, the home blocks in the cache are those of the start of the commit. */
  lemma HomeFixed(f: Start, blocks: seq<int>, start: nat, t: nat, s: Store)
    requires LoggingAt(f, blocks, start, t, s) || InstallingAt(f, blocks, start, t, s)
    ensures SameHome(f.v, s.view, start)
  {
    if InstallingAt(f, blocks, start, t, s) {
      InstalledHome(f, blocks, start, t);
    }
  }

  /** Installing copies back what the cache shows already. */
  lemma InstalledHome(f: Start, blocks: seq<int>, start: nat, t: nat)
    requires StartOk(f, blocks, start) && t <= |blocks|
    ensures SameHome(f.v, Installed(HeadedView(f, blocks, start), start, blocks, t), start)
  {
    var tx, w := TxOf(f, blocks, start), HeadedView(f, blocks, start);
    HeadedHome(f, blocks, start);
    InstalledEach(w, start, tx, t);
    PendingHome(f.v, w, tx, t, start);
  }

  lemma HeadedHome(f: Start, blocks: seq<int>, start: nat)
    requires StartOk(f, blocks, start)
    ensures var w, tx := HeadedView(f, blocks, start), TxOf(f, blocks, start);
            SameHome(f.v, w, start) && forall j :: 0 <= j < |tx.data| ==> w[start + 1 + j] == tx.data[j]
  {
  }

  lemma PendingHome(v: Disk, w: Disk, tx: Tx, t: nat, start: nat)
    requires SameHome(v, w, start) && t <= |tx.blocks| && AllHome(tx.blocks, start, |v|) && tx == Pending(v, tx.blocks)
    ensures SameHome(v, Applied(w, tx, t), start)
  {
    PendingUpTo(v, w, tx, t);
  }

  /** During a commit a block is pinned, or agrees with the disk. */
  lemma LoggingClean(f: Start, blocks: seq<int>, start: nat, t: nat, s: Store, k: nat)
    requires LoggingAt(f, blocks, start, t, s) && k < |s.disk|
    ensures k in s.pins || s.view[k] == s.disk[k]
  {
    assert blocks[0..] == blocks;
  }

  lemma InstallingClean(f: Start, blocks: seq<int>, start: nat, t: nat, s: Store, k: nat)
    requires InstallingAt(f, blocks, start, t, s) && k < |s.disk|
    ensures k in s.pins || s.view[k] == s.disk[k]
  {
    assert blocks == blocks[..t] + blocks[t..];
    if k !in blocks[t..] {
      InstalledSoFar(f, blocks, start, t, k);
    }
  }

  /** Only blocks still to be installed differ. */
  lemma InstalledSoFar(f: Start, blocks: seq<int>, start: nat, t: nat, k: nat)
    requires StartOk(f, blocks, start) && t <= |blocks| && k < |f.d| && (k !in blocks || k in blocks[..t])
    ensures var c, w := Committed(f.d, start, TxOf(f, blocks, start)), HeadedView(f, blocks, start);
            Installed(w, start, blocks, t)[k] == Installed(c, start, blocks, t)[k]
  {
    var tx, w := TxOf(f, blocks, start), HeadedView(f, blocks, start);
    HeaderWritten(f.v, f.d, tx, start);
    InstalledAgree(Committed(f.d, start, tx), w, start, blocks, t);
  }

  // ---- What a crash leaves ----

  /** Recovery from disk `e` finds `home` outside the log. */
  ghost predicate RecoversTo(e: Disk, home: Disk, start: nat) {
    WellFormed(e, start) && SameHome(home, Recovered(e, start), start)
  }

  lemma RecoversAlike(e: Disk, home: Disk, home': Disk, start: nat)
    requires RecoversTo(e, home, start) && SameHome(home', home, start)
    ensures RecoversTo(e, home', start)
  {
  }

  lemma LoggingRecovers(f: Start, blocks: seq<int>, start: nat, t: nat, s: Store)
    requires LoggingAt(f, blocks, start, t, s)
    ensures RecoversTo(s.disk, f.d, start)
  {
    CrashBeforeHeader(f.d, start, TxOf(f, blocks, start), t);
  }

  lemma InstallingRecovers(f: Start, blocks: seq<int>, start: nat, t: nat, s: Store)
    requires InstallingAt(f, blocks, start, t, s)
    ensures RecoversTo(s.disk, f.v, start)
  {
    var tx := TxOf(f, blocks, start);
    CrashInstalling(f.d, start, tx, t);
    PendingApplied(f.v, f.d, tx, start);
  }

  lemma ClearRecovers(d: Disk, home: Disk, start: nat)
    requires WellFormed(d, start) && Listing(d[start]) == [] && SameHome(home, d, start)
    ensures RecoversTo(d, home, start)
  {
  }
}
