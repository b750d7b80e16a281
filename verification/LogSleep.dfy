/** begin_op, log_write and end_op of kernel/log.c as clients of sleep and wakeup: operations that wait for log space,
    or for the end of a commit, under the log's spin lock. */
module LogSleep {
  import opened Common
  import LogDisk
  import LogState
  import opened SleepWakeup

  const LOG := 0

  /** What begin_op looks at. The commit sets `n` to 0 while `committing` is set, when begin_op does not look at `n`;
      here that is part of the step that clears `committing`. */
  datatype Shared = Shared(n: int, outstanding: int, committing: bool)

  predicate MustWait(s: Shared) {
    s.committing || s.n + (s.outstanding + 1) * MAXOPBLOCKS > LogDisk.LOGBLOCKS
  }

  /** Operations wait on the log's address for the end of a commit and for log space. */
  const Waits: Wait<Shared> := (s: Shared, c: int) => c == LOG && MustWait(s)

  /** Beginning: in begin_op. Began: it is admitted and has yet to release the spin lock. Writing: in log_write.
      Wrote: the block is listed. Ending: in end_op. Last: it has set `committing`. Waking: its wakeup is at process
      `i`. */
  datatype Task = Idle | Beginning | Began | Working | Writing | Wrote | Ending | Last | Committing | Waking(i: nat)

  datatype State = State(m: Monitor<Shared>, tasks: seq<Task>)

  datatype Act =
    | CallBegin(q: int)
    | CallWrite(q: int)
    | CallEnd(q: int)
    | GetSpin(q: int)
    | Test(q: int)
    | List(q: int, more: bool)
    | Depart(q: int)
    | EndCommit(q: int)
    | FreeSpin(q: int)
    | LetGo
    | Doze(q: int)
    | Kill(q: int)
    | Wake(q: int)

  ghost predicate Shaped(s: State) {
    |s.tasks| == |s.m.phases| && OwnerOk(s.m)
  }

  ghost predicate Turn(s: State, q: int) {
    0 <= q < |s.tasks| && s.m.owner == q && |s.tasks| == |s.m.phases| && s.m.phases[q] == In
  }

  ghost predicate Ready(a: Act, s: State)
    requires Shaped(s)
  {
    match a
    case CallBegin(q) => 0 <= q < |s.tasks| && s.tasks[q] == Idle
    case CallWrite(q) => 0 <= q < |s.tasks| && s.tasks[q] == Working
    case CallEnd(q) => 0 <= q < |s.tasks| && s.tasks[q] == Working
    case GetSpin(q) =>
      && 0 <= q < |s.tasks| && s.tasks[q] in {Beginning, Writing, Ending, Committing}
      && s.m.owner == -1 && s.m.phases[q] in {Phase.Out, Roused}
    case Test(q) => Turn(s, q) && s.tasks[q] == Beginning
    case List(q, _) => Turn(s, q) && s.tasks[q] == Writing
    case Depart(q) => Turn(s, q) && s.tasks[q] == Ending
    case EndCommit(q) => Turn(s, q) && s.tasks[q] == Committing
    case FreeSpin(q) => Turn(s, q) && s.tasks[q] in {Began, Wrote, Last, Waking(|s.tasks|)}
    case LetGo => s.m.owner >= 0 && s.m.phases[s.m.owner].Falling?
    case Doze(q) => 0 <= q < |s.tasks| && s.m.phases[q].Fallen?
    case Kill(q) => 0 <= q < |s.tasks| && s.m.phases[q].Asleep?
    case Wake(q) => Turn(s, q) && s.tasks[q].Waking? && s.tasks[q].i < |s.tasks| && !s.m.phases[s.tasks[q].i].Fallen?
  }

  /** end_op takes the operation away, and commits if it was the last. */
  function Departed(s: Shared): (t: Shared) {
    s.(outstanding := s.outstanding - 1, committing := s.outstanding == 1)
  }

  /** The step of sleep, wakeup and the spin lock that the action takes, if any. */
  ghost function StepOf(a: Act, s: State): (r: seq<Step<Shared>>)
    requires Shaped(s) && Ready(a, s)
  {
    var sh := s.m.shared;
    match a
    case GetSpin(q) => [Enter(q)]
    case Test(q) => if MustWait(sh) then [Fall(LOG)] else [Update(sh.(outstanding := sh.outstanding + 1))]
    case List(_, more) => [Update(if more then sh.(n := sh.n + 1) else sh)]
    case Depart(_) => [Update(Departed(sh))]
    case EndCommit(_) => [Update(sh.(n := 0, committing := false))]
    case FreeSpin(_) => [Leave]
    case LetGo => [Step.LetGo]
    case Doze(q) => [Step.Doze(q)]
    case Kill(q) => [Step.Kill(q)]
    case Wake(q) => [Sweep(LOG, s.tasks[q].i)]
    case _ => []
  }

  function Onward(t: Task): (u: Task) {
    match t
    case Began => Working
    case Wrote => Working
    case Last => Committing
    case _ => Idle
  }

  ghost function TasksAfter(a: Act, s: State): seq<Task>
    requires Shaped(s) && Ready(a, s)
  {
    match a
    case CallBegin(q) => s.tasks[q := Beginning]
    case CallWrite(q) => s.tasks[q := Writing]
    case CallEnd(q) => s.tasks[q := Ending]
    case Test(q) => if MustWait(s.m.shared) then s.tasks else s.tasks[q := Began]
    case List(q, _) => s.tasks[q := Wrote]
    case Depart(q) => s.tasks[q := if s.m.shared.outstanding == 1 then Last else Waking(0)]
    case EndCommit(q) => s.tasks[q := Waking(0)]
    case FreeSpin(q) => s.tasks[q := Onward(s.tasks[q])]
    case Wake(q) => s.tasks[q := Waking(s.tasks[q].i + 1)]
    case _ => s.tasks
  }

  // ---- Operations in progress, and the one that commits ----

  predicate InOp(t: Task) {
    t in {Began, Working, Writing, Wrote, Ending}
  }

  predicate Commits(t: Task) {
    t in {Last, Committing}
  }

  function Where(tasks: seq<Task>, p: Task -> bool): (qs: set<int>) {
    set q | 0 <= q < |tasks| && p(tasks[q])
  }

  function Ops(tasks: seq<Task>): (qs: set<int>) { Where(tasks, InOp) }

  function Committers(tasks: seq<Task>): (qs: set<int>) { Where(tasks, Commits) }

  /** The counters say who is where. */
  ghost predicate Counted(sh: Shared, tasks: seq<Task>) {
    && sh.outstanding == |Ops(tasks)| && |Committers(tasks)| == One(sh.committing)
    && (sh.committing ==> sh.outstanding == 0) && (sh.outstanding == 0 && !sh.committing ==> sh.n == 0)
  }

  predicate OnLog(p: Phase) {
    p.Falling? || p.Fallen? || p.Asleep? ==> p.c == LOG
  }

  ghost predicate TaskOk(s: State, q: int)
    requires Shaped(s) && 0 <= q < |s.tasks|
  {
    var p, m := s.m.phases[q], s.m;
    && OnLog(p)
    && match s.tasks[q]
       case Idle => p == Phase.Out
       case Beginning => p.In? || p.Falling? ==> m.entry == m.shared
       case Began => p == In && !MustWait(m.entry)
       case Working => p == Phase.Out
       case Writing => p == Phase.Out || (p == In && m.entry == m.shared)
       case Wrote => p == In && (MustWait(m.entry) ==> MustWait(m.shared))
       case Ending => p == Phase.Out || (p == In && Upto(m, LOG) == 0)
       case Last => p == In && m.shared.committing
       case Committing => p == Phase.Out || (p == In && Upto(m, LOG) == 0)
       case Waking(i) => p == In && Upto(m, LOG) == i <= |s.tasks|
  }

  ghost predicate Inv(s: State) {
    && Shaped(s) && SleepWakeup.Inv(s.m, Waits) && Counted(s.m.shared, s.tasks)
    && forall q :: 0 <= q < |s.tasks| ==> TaskOk(s, q)
  }

  /** initlog, with all processes elsewhere. */
  lemma InitialInv(n: nat)
    ensures var idle := Shared(0, 0, false);
            Inv(State(Monitor(-1, seq(n, _ => Phase.Out), idle, idle, map[]), seq(n, _ => Idle)))
  {
    var tasks := seq(n, _ => Idle);
    assert Ops(tasks) == {} && Committers(tasks) == {};
  }

  /** Each action follows the rules of sleep and wakeup: nobody gives the spin lock back before it has woken those who
      need wait no longer. And the last of the operations is alone, so end_op does not panic. */
  lemma FollowsRules(a: Act, s: State)
    requires Inv(s) && Ready(a, s)
    ensures StepOf(a, s) != [] ==> SleepWakeup.Ready(StepOf(a, s)[0], s.m, Waits)
    ensures a.Depart? ==> !s.m.shared.committing && s.m.shared.outstanding >= 1
    ensures a.EndCommit? ==> s.m.shared.committing
  {
    if s.m.owner >= 0 {
      assert TaskOk(s, s.m.owner);
    }
    if a.Depart? {
      assert a.q in Ops(s.tasks);
    }
    if a.EndCommit? {
      assert a.q in Committers(s.tasks);
    }
  }

  ghost function After(a: Act, s: State): (t: State)
    requires Inv(s) && Ready(a, s)
  {
    FollowsRules(a, s);
    var st := StepOf(a, s);
    State(if st == [] then s.m else SleepWakeup.After(st[0], s.m, Waits), TasksAfter(a, s))
  }

  /** One process going on elsewhere changes the sets by itself at most. */
  lemma OneMoves(tasks: seq<Task>, q: int, t: Task, p: Task -> bool)
    requires 0 <= q < |tasks|
    ensures |Where(tasks[q := t], p)| == |Where(tasks, p)| - One(p(tasks[q])) + One(p(t))
  {
    var before, now := Where(tasks, p), Where(tasks[q := t], p);
    assert (q in now <==> p(t)) && (q in before <==> p(tasks[q]));
    assert now - {q} == before - {q};
    WithOrWithout(before, q);
    WithOrWithout(now, q);
  }

  lemma WithOrWithout(qs: set<int>, q: int)
    ensures |qs| == |qs - {q}| + One(q in qs)
  {
    if q !in qs {
      assert qs - {q} == qs;
    }
  }

  lemma SomeOp(tasks: seq<Task>, q: int)
    requires 0 <= q < |tasks|
    ensures InOp(tasks[q]) ==> |Ops(tasks)| > 0
    ensures Commits(tasks[q]) ==> |Committers(tasks)| > 0
  {
    assert InOp(tasks[q]) ==> q in Ops(tasks);
    assert Commits(tasks[q]) ==> q in Committers(tasks);
  }

  lemma CountKept(a: Act, s: State)
    requires Inv(s) && Ready(a, s)
    ensures Counted(After(a, s).m.shared, After(a, s).tasks)
  {
    hide WaitersOk, TaskOk, OwnerOk, Where, SleepWakeup.Ready;
    FollowsRules(a, s);
    var tasks := TasksAfter(a, s);
    if a.CallBegin? || a.CallWrite? || a.CallEnd? || a.Test? || a.List? || a.Depart? || a.EndCommit? || a.FreeSpin?
       || a.Wake? {
      SomeOp(s.tasks, a.q);
      OneMoves(s.tasks, a.q, tasks[a.q], InOp);
      OneMoves(s.tasks, a.q, tasks[a.q], Commits);
      assert tasks == s.tasks[a.q := tasks[a.q]];
    }
  }

  lemma TaskKept(a: Act, s: State, q: int)
    requires Inv(s) && Ready(a, s) && Shaped(After(a, s)) && 0 <= q < |s.tasks|
    ensures TaskOk(After(a, s), q)
  {
    hide WaitersOk, Counted, SleepWakeup.Ready;
    assert TaskOk(s, q);
    if s.m.owner >= 0 {
      assert TaskOk(s, s.m.owner);
    }
    FollowsRules(a, s);
  }

  lemma StepKeeps(a: Act, s: State)
    requires Inv(s) && Ready(a, s)
    ensures Inv(After(a, s))
  {
    var t, st := After(a, s), StepOf(a, s);
    FollowsRules(a, s);
    if st != [] {
      SleepWakeup.StepKeeps(st[0], s.m, Waits);
    }
    hide WaitersOk, Counted, TaskOk;
    CountKept(a, s);
    forall q | 0 <= q < |t.tasks| ensures TaskOk(t, q) {
      TaskKept(a, s, q);
    }
  }

  ghost predicate Runs(acts: seq<Act>, s: State)
    requires Inv(s)
    decreases |acts|
  {
    acts == [] || (Ready(acts[0], s) && (StepKeeps(acts[0], s); Runs(acts[1..], After(acts[0], s))))
  }

  ghost function RunTo(acts: seq<Act>, s: State): (t: State)
    requires Inv(s) && Runs(acts, s)
    ensures Inv(t)
    decreases |acts|
  {
    if acts == [] then s else
      StepKeeps(acts[0], s);
      RunTo(acts[1..], After(acts[0], s))
  }

  /** What the process that has the spin lock does next; or, if that waits for the lock of a process that is falling
      asleep, what that one does. */
  ghost function Next(s: State): (a: Act)
    requires Shaped(s) && 0 <= s.m.owner
  {
    var q := s.m.owner;
    if s.m.phases[q].Falling? then Act.LetGo else
    match s.tasks[q]
    case Beginning => Test(q)
    case Writing => List(q, false)
    case Ending => Depart(q)
    case Committing => EndCommit(q)
    case Waking(i) =>
      if i >= |s.tasks| then FreeSpin(q) else if s.m.phases[i].Fallen? then Act.Doze(i) else Wake(q)
    case _ => FreeSpin(q)
  }

  /** Whoever has the spin lock can go on. */
  lemma NotStuck(acts: seq<Act>, s: State)
    requires Inv(s) && Runs(acts, s) && RunTo(acts, s).m.owner >= 0
    ensures var t := RunTo(acts, s); Shaped(t) && Ready(Next(t), t)
  {
    var t := RunTo(acts, s);
    assert TaskOk(t, t.m.owner) && (t.m.phases[t.m.owner] == In || t.m.phases[t.m.owner].Falling?);
  }

  /** Another process is in an operation or commits, and has yet to come to its wakeup; or its wakeup has yet to get
      to this one. */
  ghost predicate Justified(s: State, q: int) {
    exists r :: 0 <= r < |s.tasks| && r != q &&
      (InOp(s.tasks[r]) || Commits(s.tasks[r]) || (s.tasks[r].Waking? && s.tasks[r].i <= q))
  }

  lemma SomeoneActs(s: State, q: int)
    requires Inv(s) && MustWait(s.m.shared) && 0 <= q < |s.tasks| && s.m.phases[q].Asleep?
    ensures Justified(s, q)
  {
    assert TaskOk(s, q);
    var busy := if s.m.shared.committing then Committers(s.tasks) else Ops(s.tasks);
    assert |busy| > 0;
    var r :| r in busy;
  }

  lemma SleeperHasReason(s: State, q: int)
    requires Inv(s) && 0 <= q < |s.tasks| && s.m.phases[q].Asleep?
    ensures Justified(s, q)
  {
    assert TaskOk(s, q) && Down(s.m.phases[q], LOG);
    if s.m.owner == -1 || s.tasks[s.m.owner] == Beginning {
      if s.m.owner >= 0 {
        assert TaskOk(s, s.m.owner) && (s.m.phases[s.m.owner] == In || s.m.phases[s.m.owner].Falling?);
      }
      assert Waits(if s.m.owner == -1 then s.m.shared else s.m.entry, LOG);
      assert MustWait(s.m.shared);
      SomeoneActs(s, q);
    } else {
      assert TaskOk(s, s.m.owner) && s.m.owner != q;
    }
  }

  /** In every interleaving at most one process commits, and then no operation is in progress; and an operation sleeps
      in begin_op only while another process has yet to come to end_op's wakeup, or to get to it there. */
  lemma AlwaysSafe(acts: seq<Act>, s: State)
    requires Inv(s) && Runs(acts, s)
    ensures var t := RunTo(acts, s);
            && |Committers(t.tasks)| <= 1 && (Committers(t.tasks) != {} ==> Ops(t.tasks) == {})
            && forall q :: 0 <= q < |t.tasks| && t.m.phases[q].Asleep? ==> Justified(t, q)
  {
    var t := RunTo(acts, s);
    forall q | 0 <= q < |t.tasks| && t.m.phases[q].Asleep? ensures Justified(t, q) {
      SleeperHasReason(t, q);
    }
  }

  // ---- The same three counters in the log's own state ----

  function Counters(l: LogState.State): (sh: Shared) {
    Shared(l.n, l.outstanding, l.committing)
  }

  /** What this part leaves out of the log's steps does not matter to those who wait, and the rest is the same. */
  lemma SameSteps(a: LogState.Act, l: LogState.State, start: nat, boot: nat)
    requires LogState.Inv(l, start, boot) && LogState.Ready(a, l, start)
    ensures a.Begin? ==> !MustWait(Counters(l))
    ensures var sh, to := Counters(l), Counters(LogState.After(a, l, start));
            match a
            case Begin(_) => to == sh.(outstanding := sh.outstanding + 1)
            case Record(k, _) => to == if k in l.block[..l.n] then sh else sh.(n := sh.n + 1)
            case Leave(_) => to == Departed(sh) && !sh.committing
            case ClearHead => sh.committing && to == sh.(n := 0)
            case EndCommit => sh.committing && sh.n == 0 && to == sh.(committing := false)
            case _ => to == sh
  {
    if a.Leave? {
      LogState.InProgress(l, start, boot, a.op);
    }
  }

  /** begin_op waits exactly while the log cannot admit the operation. */
  lemma WaitsWhenFull(l: LogState.State, start: nat, boot: nat, op: int)
    requires LogState.Inv(l, start, boot) && op !in l.credit
    ensures MustWait(Counters(l)) <==> !LogState.Ready(LogState.Begin(op), l, start)
  {
  }
}
