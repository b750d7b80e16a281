/** The write-ahead log of kernel/log.c over the buffer cache. */
module Log {
  import opened Bio
  import opened Common
  import opened LogDisk
  import opened LogPhases
  import opened LogState

  /** Fills a header block in. */
  method FillHead(head: Block, n: int, block: seq<int>) returns (r: Block)
    requires |head| == BLOCK_WORDS && 0 <= n <= LOGBLOCKS == |block|
    ensures r == Headed(head, block[..n])
  {
    r := head[0 := n];
    var i := 0;
    while i < n
      invariant 0 <= i <= n && |r| == |head| && r[0] == n
      invariant r[1..1 + i] == block[..i] && r[1 + i..] == head[1 + i..]
    {
      ghost var was := r;
      r := r[1 + i := block[i]];
      assert r[1..1 + i + 1] == was[1..1 + i] + [block[i]];
      assert r[1 + i + 1..] == was[1 + i..][1..];
      i := i + 1;
    }
    assert r == [r[0]] + r[1..1 + n] + r[1 + n..];
  }

  /** Reads the listing of a header block into the first entries of `block`. */
  method TakeHead(head: Block, block: seq<int>) returns (n: int, block': seq<int>)
    requires |head| == BLOCK_WORDS && 0 <= head[0] <= LOGBLOCKS == |block|
    ensures n == head[0] && |block'| == |block| && block'[..n] == Listing(head) && block'[n..] == block[n..]
  {
    n, block' := head[0], block;
    var i := 0;
    while i < n
      invariant 0 <= i <= n && |block'| == |block|
      invariant block'[..i] == head[1..1 + i] && block'[i..] == block[i..]
    {
      ghost var was := block';
      block' := block'[i := head[1 + i]];
      assert block'[..i + 1] == was[..i] + [head[1 + i]];
      assert block'[i + 1..] == was[i..][1..];
      i := i + 1;
    }
  }

  /** Where the block is listed, or `n`: log absorption looks here first. */
  method FindEntry(block: seq<int>, n: nat, blockno: int) returns (i: nat)
    requires n <= |block|
    ensures i <= n && (i < n ==> block[i] == blockno) && (i == n ==> blockno !in block[..n])
  {
    i := 0;
    while i < n
      invariant i <= n && blockno !in block[..i]
    {
      if block[i] == blockno {
        return;
      }
      i := i + 1;
    }
  }

  class WriteAheadLog {
    const cache: BufferCache
    const start: nat
    var n: int
    var block: seq<int>
    var outstanding: int
    var committing: bool
    ghost var credit: map<int, int> // operations in progress, and the blocks each may still add
    ghost var writing: map<nat, int> // blocks changed and not logged yet, and by which operation
    ghost var phase: Phase
    ghost var from: Start // where the commit under way began
    ghost var committed: seq<Disk> // the committed states, oldest first
    ghost var stamps: seq<nat> // which of them each disk since boot recovers to
    ghost const boot: nat

    ghost function L(): State
      reads this, cache
    {
      State(n, block, outstanding, committing, credit, writing, phase, from, committed, stamps, S(), cache.held)
    }

    ghost function S(): Store
      reads cache
    {
      Store(cache.View(), cache.disk, cache.disks, cache.pins)
    }

    /** The in-memory header lists home blocks. */
    ghost predicate HeadOk()
      reads `n, `block, cache
    {
      && cache.Valid() && Sized(cache.disk, start) && 0 <= n <= LOGBLOCKS == |block|
      && AllHome(block[..n], start, |cache.disk|)
    }

    /** The state between any two steps of any number of processes. */
    ghost predicate Valid()
      reads this, cache
    {
      cache.Valid() && Inv(L(), start, boot)
    }

    /** initlog: recovers before the first operation. */
    constructor (c: BufferCache, s: nat)
      requires c.Valid() && c.Idle() && c.pins == {} && c.View() == c.disk && WellFormed(c.disk, s)
      modifies c
      ensures Valid() && cache == c && start == s && outstanding == 0 && n == 0 && !committing && c.View() == c.disk
      ensures c.disk == Recovered(old(c.disk), s) && committed == [c.disk] && c.held == {}
      ensures c.disks == old(c.disks) + RecoveryTrace(old(c.disk), s)
    {
      cache, start := c, s;
      n, block, outstanding, committing, credit := 0, seq(LOGBLOCKS, _ => 0), 0, false, map[];
      writing, phase, from, stamps, boot := map[], Open, Start([], [], []), [], |c.disks| + |Listing(c.disk[s])| + 1;
      committed := [Recovered(c.disk, s)];
      new;
      RecoverFromLog();
      CreditBounds(credit);
      assert block[..0] == [];
    }

    /** recover_from_log, at boot. */
    method RecoverFromLog()
      requires HeadOk() && cache.View() == cache.disk && WellFormed(cache.disk, start) && cache.held == {}
      modifies `n, `block, cache
      ensures HeadOk() && n == 0 && cache.View() == cache.disk && cache.pins == old(cache.pins) && cache.held == {}
      ensures WellFormed(cache.disk, start) && Listing(cache.disk[start]) == []
      ensures cache.disk == Recovered(old(cache.disk), start)
      ensures cache.disks == old(cache.disks) + RecoveryTrace(old(cache.disk), start)
    {
      hide Installed, BufferCache.Valid;
      ghost var d, earlier := cache.disk, cache.disks;
      ReadHead();
      InstallTrans(d, earlier);
      n := 0;
      assert block[..0] == [];
      WriteHead();
      RecoveredIsClear(d, start);
      RecoveryTraceParts(d, start);
      assert earlier + InstallTrace(d, start, Listing(d[start]), |Listing(d[start])|) + [cache.disk]
          == earlier + RecoveryTrace(d, start);
    }

    /** read_head: the in-memory header gets the one on the disk. */
    method ReadHead()
      requires HeadOk() && WellFormed(cache.disk, start) && cache.View() == cache.disk && cache.held == {}
      modifies `n, `block, cache`bufs, cache`lru, cache`count, cache`at, cache`users, cache`held
      ensures HeadOk() && block[..n] == Listing(cache.disk[start]) && cache.View() == old(cache.View())
              && cache.held == {}
    {
      var b := cache.Take(start);
      n, block := TakeHead(cache.bufs[b].data, block);
      cache.Drop(b, start);
    }

    /** install_trans when recovering: copies the log blocks home. */
    method InstallTrans(ghost d: Disk, ghost earlier: seq<Disk>)
      requires HeadOk() && cache.View() == cache.disk == d && WellFormed(d, start) && block[..n] == Listing(d[start])
      requires cache.held == {} && cache.disks == earlier
      modifies cache
      ensures HeadOk() && cache.View() == cache.disk == Installed(d, start, block[..n], n)
      ensures cache.pins == old(cache.pins) && cache.held == {}
      ensures cache.disks == earlier + InstallTrace(d, start, block[..n], n)
    {
      hide Installed, InstallTrace, BufferCache.Valid, AllHome;
      var tail := 0;
      ghost var blocks := block[..n];
      InstallTraceNone(earlier, d, start, blocks);
      while tail < n
        invariant 0 <= tail <= n && HeadOk() && |cache.disk| == |d|
                  && cache.View() == cache.disk == Installed(d, start, blocks, tail)
        invariant cache.pins == old(cache.pins) && cache.held == {}
        invariant cache.disks == earlier + InstallTrace(d, start, blocks, tail)
      {
        var src := start + tail + 1;
        InstalledNext(d, start, blocks, tail, src);
        CopyHome(src, block[tail], true);
        InstallTraceMore(earlier, d, start, blocks, tail);
        tail := tail + 1;
      }
    }

    // ---- Block copies, beside other users of the cache ----

    /** Copies a cached block to log block `to`. */
    method CopyToLog(to: nat, src: nat)
      requires cache.Valid() && to < |cache.disk| && src < |cache.disk| && to !in cache.held && src !in cache.held
      requires src != to && src in cache.pins
      modifies cache
      ensures cache.Valid() && cache.held == old(cache.held) && cache.users == old(cache.users)
      ensures S() == old(Through(S(), to, cache.View()[src]))
    {
      ghost var u, h := cache.users, cache.held;
      var tbuf, fbuf := cache.GetBoth(to, src);
      cache.Put(tbuf, to, cache.bufs[fbuf].data);
      cache.ReleaseBoth(fbuf, src, tbuf, to, u, h);
    }

    /** Copies log block `src` to its home block, and unpins that unless recovering. */
    method CopyHome(src: nat, dst: nat, recovering: bool)
      requires cache.Valid() && src < |cache.disk| && dst < |cache.disk| && src !in cache.held && dst !in cache.held
      requires dst != src && (!recovering ==> dst in cache.pins)
      requires cache.View()[src] == cache.disk[src]
      modifies cache
      ensures cache.Valid() && cache.held == old(cache.held) && cache.users == old(cache.users)
      ensures recovering ==> S() == old(Through(S(), dst, cache.View()[src]))
      ensures !recovering ==> S() == old(Unpinned(Through(S(), dst, cache.View()[src]), dst))
    {
      ghost var u, h := cache.users, cache.held;
      var lbuf, dbuf := cache.GetBoth(src, dst);
      cache.Put(dbuf, dst, cache.bufs[lbuf].data);
      if !recovering {
        cache.Unpin(dbuf, dst);
      }
      cache.ReleaseBoth(lbuf, src, dbuf, dst, u, h);
    }

    /** write_head: the header block gets the in-memory header. */
    method WriteHead()
      requires HeadOk() && start !in cache.held
      modifies cache
      ensures HeadOk() && cache.held == old(cache.held) && cache.users == old(cache.users)
      ensures S() == old(Through(S(), start, Headed(cache.View()[start], block[..n])))
    {
      ghost var u, h := cache.users, cache.held;
      var b := cache.Take(start);
      var head := FillHead(cache.bufs[b].data, n, block);
      cache.Put(b, start, head);
      cache.Drop(b, start);
      assert cache.users == u;
      assert h + {start} - {start} == h;
    }

    // ---- The steps of operations ----

    /** One pass of begin_op's loop: the operation is admitted, or has to sleep. During a commit it sleeps. */
    method BeginOp(ghost op: int) returns (admitted: bool)
      requires Valid() && op !in credit
      modifies `outstanding, `credit
      ensures Valid()
      ensures admitted <==> old(Ready(Begin(op), L(), start))
      ensures L() == if admitted then old(After(Begin(op), L(), start)) else old(L())
    {
      if committing {
        admitted := false;
      } else if n + (outstanding + 1) * MAXOPBLOCKS > LOGBLOCKS {
        admitted := false;
      } else {
        StepKeeps(Begin(op), L(), start, boot);
        outstanding := outstanding + 1;
        credit := credit[op := MAXOPBLOCKS];
        admitted := true;
      }
    }

    /** bread by an operation or by a reader outside any operation, at any time: it sees the last value written. During
        a commit that is the value the block had when the commit began. */
    method Read(k: nat) returns (b: int)
      requires Valid() && Ready(Act.Read(k), L(), start)
      modifies cache`bufs, cache`lru, cache`count, cache`at, cache`users, cache`held
      ensures Valid() && L() == old(After(Act.Read(k), L(), start))
      ensures cache.Holds(b, k) && cache.bufs[b].data == cache.View()[k]
      ensures phase != Open && IsHome(start, k, |cache.disk|) ==> k < |from.v| && cache.bufs[b].data == from.v[k]
    {
      if phase != Open {
        HomeFixed(from, block[..n], start, phase.t, L().s);
      }
      StepKeeps(Act.Read(k), L(), start, boot);
      b := cache.Bread(k);
    }

    /** An operation changes the contents of a buffer it has locked. */
    method Change(b: int, data: Block, ghost op: int)
      requires Valid() && b in cache.bufs && cache.Holds(b, cache.bufs[b].blockno)
      requires Ready(Act.Change(cache.bufs[b].blockno, data, op), L(), start)
      modifies cache`bufs, `writing
      ensures Valid() && L() == old(After(Act.Change(cache.bufs[b].blockno, data, op), L(), start))
      ensures cache.bufs == old(cache.bufs)[b := old(cache.bufs)[b].(data := data)]
    {
      ghost var k := cache.bufs[b].blockno;
      StepKeeps(Act.Change(k, data, op), L(), start, boot);
      writing := writing[k := op];
      cache.Modify(b, data);
    }

    /** brelse of a buffer that was only read, or whose block is logged. */
    method Done(b: int)
      requires Valid() && b in cache.bufs && cache.Holds(b, cache.bufs[b].blockno)
      requires Ready(Release(cache.bufs[b].blockno), L(), start)
      modifies cache`bufs, cache`lru, cache`count, cache`at, cache`users, cache`held
      ensures Valid() && L() == old(After(Release(cache.bufs[b].blockno), L(), start))
    {
      var k := cache.bufs[b].blockno;
      CleanOrPinned(L(), start, boot, k);
      StepKeeps(Release(k), L(), start, boot);
      cache.InUse(b, k);
      assert cache.View()[k] == cache.bufs[b].data;
      cache.Drop(b, k);
    }

    /** log_write: records and pins the block of a locked buffer unless it is recorded already.
        The check for a full log comes before that, so it panics exactly if the log is full;
        then no operation has credit left. */
    method LogWrite(b: int, ghost op: int) returns (panic: bool)
      requires Valid() && b in cache.bufs && cache.Holds(b, cache.bufs[b].blockno)
      requires IsHome(start, cache.bufs[b].blockno, |cache.disk|)
      requires op in credit && (credit[op] > 0 || cache.bufs[b].blockno in block[..n])
      modifies `n, `block, `credit, `writing, cache`bufs, cache`pins
      ensures Valid()
      ensures panic <==> old(n) == LOGBLOCKS
      ensures old(credit)[op] > 0 ==> !panic
      ensures L() == if panic then old(L()) else old(After(Act.Record(cache.bufs[b].blockno, op), L(), start))
    {
      InProgress(L(), start, boot, op);
      Room(credit, n, outstanding, op);
      panic := n >= LOGBLOCKS || outstanding < 1;
      if !panic {
        Record(b, op);
      }
    }

    method Record(b: int, ghost op: int)
      requires Valid() && b in cache.bufs && cache.Holds(b, cache.bufs[b].blockno)
      requires Ready(Act.Record(cache.bufs[b].blockno, op), L(), start)
      modifies `n, `block, `credit, `writing, cache`bufs, cache`pins
      ensures Valid() && L() == old(After(Act.Record(cache.bufs[b].blockno, op), L(), start))
    {
      var k := cache.bufs[b].blockno;
      var i := FindEntry(block, n, k);
      RecordKeeps(L(), start, boot, k, op);
      if i == n {
        Append(b, k, op);
        return;
      }
      assert block[..n][i] == k;
      assert block[i := k] == block;
      block := block[i := k];
      writing := writing - {k};
    }

    method Append(b: int, k: nat, ghost op: int)
      requires cache.Valid() && b in cache.bufs && cache.Holds(b, k) && k !in cache.pins
      requires 0 <= n < |block| && op in credit
      modifies `n, `block, `credit, `writing, cache`bufs, cache`pins
      ensures cache.Valid() && L() == old(Longer(L(), k, op))
    {
      hide BufferCache.Valid;
      block := block[n := k];
      cache.Bpin(b);
      n := n + 1;
      credit := credit[op := credit[op] - 1];
      writing := writing - {k};
    }

    /** end_op up to the release of the log's lock: the last operation has to commit. It has logged what it changed. */
    method LeaveOp(ghost op: int) returns (doCommit: bool, panic: bool)
      requires Valid() && Ready(Leave(op), L(), start)
      modifies `outstanding, `committing, `credit
      ensures Valid() && !panic && L() == old(After(Leave(op), L(), start))
      ensures doCommit == committing && (doCommit <==> old(credit).Keys == {op})
      ensures doCommit ==> credit == map[] && writing == map[]
    {
      InProgress(L(), start, boot, op);
      LeaveKeeps(L(), start, boot, op);
      doCommit := false;
      outstanding := outstanding - 1;
      credit := credit - {op};
      panic := committing;
      if !panic && outstanding == 0 {
        doCommit := true;
        committing := true;
      }
    }

    // ---- The steps of a commit ----

    /** One pass of write_log. */
    method LogStep(t: nat)
      requires Valid() && phase == Logging(t) && Ready(ToLog, L(), start)
      modifies cache, `phase, `stamps
      ensures Valid() && L() == old(After(ToLog, L(), start))
    {
      hide LoggingAt, InstallingAt, RecoversTo, Safe, Reserved, OpenOk, Distinct, BufferCache.Valid;
      ghost var l := L();
      LogStepOk(from, block[..n], start, t, l.s, start + t + 1);
      CopyToLog(start + t + 1, block[t]);
      phase, stamps := Logging(t + 1), stamps + [|committed| - 1];
      StepKeeps(ToLog, l, start, boot);
    }

    /** write_head: the commit point. */
    method HeadStep()
      requires Valid() && Ready(PutHead, L(), start)
      modifies cache, `phase, `stamps, `committed
      ensures Valid() && L() == old(After(PutHead, L(), start))
    {
      hide LoggingAt, InstallingAt, RecoversTo, Safe, Reserved, OpenOk, Distinct, BufferCache.Valid;
      ghost var l := L();
      WriteHead();
      phase, stamps, committed := Installing(0), stamps + [|committed|], committed + [from.v];
      StepKeeps(PutHead, l, start, boot);
    }

    /** One pass of install_trans. */
    method InstallStep(t: nat)
      requires Valid() && phase == Installing(t) && Ready(ToHome, L(), start)
      modifies cache, `phase, `stamps
      ensures Valid() && L() == old(After(ToHome, L(), start))
    {
      hide LoggingAt, InstallingAt, RecoversTo, Safe, Reserved, OpenOk, Distinct, BufferCache.Valid, AllHome, Sized,
           ViewOf;
      ghost var l := L();
      InstallStepOk(from, block[..n], start, t, l.s, start + t + 1);
      CopyHome(start + t + 1, block[t], false);
      phase, stamps := Installing(t + 1), stamps + [|committed| - 1];
      StepKeeps(ToHome, l, start, boot);
    }

    /** The header is written a second time, to clear the log. */
    method ClearStep()
      requires Valid() && Ready(ClearHead, L(), start)
      modifies cache, `n, `phase, `stamps
      ensures Valid() && L() == old(After(ClearHead, L(), start))
    {
      hide LoggingAt, InstallingAt, RecoversTo, Safe, Reserved, OpenOk, Distinct, BufferCache.Valid;
      ghost var l := L();
      n := 0;
      assert block[..0] == [];
      WriteHead();
      phase, stamps := Open, stamps + [|committed| - 1];
      StepKeeps(ClearHead, l, start, boot);
    }

    // ---- The whole of end_op ----

    /** Nobody has locked a block that the commit moves; it would wait for them. */
    ghost predicate Clear()
      reads this, cache
    {
      0 <= n <= |block| && forall k :: k in cache.held ==> !InLog(start, k) && k !in block[..n]
    }

    method BeginCommit()
      requires Valid() && Ready(StartCommit, L(), start)
      modifies `phase, `from
      ensures Valid() && L() == old(After(StartCommit, L(), start))
    {
      StartKeeps(L(), start, boot);
      phase, from := Logging(0), Start(cache.View(), cache.disk, cache.disks);
    }

    method WriteLog()
      requires Valid() && phase == Logging(0) && Clear()
      modifies cache, `phase, `stamps
      ensures Valid() && phase == Logging(n) && cache.held == old(cache.held)
    {
      hide Inv, BufferCache.Valid;
      var tail := 0;
      InRange(L(), start, boot);
      while tail < n
        invariant 0 <= tail <= n && Valid() && phase == Logging(tail) && cache.held == old(cache.held)
      {
        InRange(L(), start, boot);
        assert block[..n][tail] == block[tail];
        LogStep(tail);
        tail := tail + 1;
      }
    }

    method InstallAll()
      requires Valid() && phase == Installing(0) && Clear()
      modifies cache, `phase, `stamps
      ensures Valid() && phase == Installing(n) && cache.held == old(cache.held)
    {
      hide Inv, BufferCache.Valid;
      var tail := 0;
      InRange(L(), start, boot);
      while tail < n
        invariant 0 <= tail <= n && Valid() && phase == Installing(tail) && cache.held == old(cache.held)
      {
        InRange(L(), start, boot);
        assert block[..n][tail] == block[tail];
        InstallStep(tail);
        tail := tail + 1;
      }
    }

    /** commit: what the cache holds for the listed blocks goes home, through the log. */
    method Commit()
      requires Valid() && committing && phase == Open && Clear()
      modifies cache, `n, `phase, `from, `stamps, `committed
      ensures Valid() && phase == Open && n == 0 && cache.held == old(cache.held)
      ensures DidCommit(old(cache.View()), old(cache.disk), old(cache.disks), old(block[..n]), start, cache.disk,
              cache.disks)
      ensures SameHome(old(cache.View()), cache.View(), start) && SameHome(cache.View(), cache.disk, start)
      ensures committed == old(committed) + if old(n) > 0 then [old(cache.View())] else []
    {
      InRange(L(), start, boot);
      if n == 0 {
        NothingToCommit(L(), start, boot);
        return;
      }
      CommitGroup();
    }

    method CommitGroup()
      requires Valid() && committing && phase == Open && Clear() && n > 0
      modifies cache, `n, `phase, `from, `stamps, `committed
      ensures Valid() && phase == Open && n == 0 && cache.held == old(cache.held)
      ensures DidCommit(old(cache.View()), old(cache.disk), old(cache.disks), old(block[..n]), start, cache.disk,
              cache.disks)
      ensures cache.View() == cache.disk && SameHome(old(cache.View()), cache.disk, start)
      ensures committed == old(committed) + [old(cache.View())]
    {
      hide Inv, BufferCache.Valid, DidCommit, SameHome, Sized, AllHome, Distinct, ViewOf;
      BeginCommit();
      WriteLog();
      InRange(L(), start, boot);
      HeadStep();
      InstallAll();
      InRange(L(), start, boot);
      ClearHeadKeeps(L(), start, boot);
      ClearStep();
    }

    /** end_op: the last operation of a group commits the group. */
    method EndOp(ghost op: int) returns (panic: bool)
      requires Valid() && Ready(Leave(op), L(), start) && (credit.Keys == {op} ==> Clear())
      modifies cache, `n, `outstanding, `committing, `credit, `phase, `from, `stamps, `committed
      ensures Valid() && !panic && !committing && credit == old(credit) - {op} && cache.held == old(cache.held)
      ensures SameHome(old(cache.View()), cache.View(), start)
      ensures old(credit).Keys != {op} ==>
                n == old(n) && committed == old(committed) && cache.disk == old(cache.disk)
      ensures old(credit).Keys == {op} ==>
                && n == 0 && SameHome(cache.View(), cache.disk, start)
                && committed == old(committed) + (if old(n) > 0 then [old(cache.View())] else [])
                && DidCommit(old(cache.View()), old(cache.disk), old(cache.disks), old(block[..n]), start,
                             cache.disk, cache.disks)
    {
      hide Inv, BufferCache.Valid, DidCommit;
      InProgress(L(), start, boot, op);
      InRange(L(), start, boot);
      var doCommit;
      doCommit, panic := LeaveOp(op);
      if doCommit {
        Commit();
        StepKeeps(EndCommit, L(), start, boot);
        committing := false;
      }
    }
  }
}
