/** The sleeping locks of kernel/sleeplock.c: processes that take and release one of them, as clients of sleep and
    wakeup.  The shared state is the process that has the lock, or -1. */
module SleepLock {
  import opened SleepWakeup

  const LOCK := 0
  const NOBODY := -1

  /** Processes wait on the lock's own address while somebody has it. */
  const Locked: Wait<int> := (holder: int, c: int) => c == LOCK && holder != NOBODY

  /** Getting: in acquiresleep. Got: it has set `locked` and has yet to release the spin lock. Dropping: in
      releasesleep. Clearing: it has cleared `locked`, and its wakeup is at process `i`. */
  datatype Task = Idle | Getting | Got | Holding | Dropping | Clearing(i: nat)

  datatype State = State(m: Monitor<int>, tasks: seq<Task>)

  datatype Act =
    | Ask(q: int)
    | GetSpin(q: int)
    | Test(q: int)
    | LetGo
    | Doze(q: int)
    | Kill(q: int)
    | Keep(q: int)
    | Give(q: int)
    | Reset(q: int)
    | Wake(q: int)
    | Done(q: int)

  ghost predicate Shaped(s: State) {
    |s.tasks| == |s.m.phases| && OwnerOk(s.m)
  }

  /** What a process that has the spin lock does next. */
  ghost predicate Turn(s: State, q: int) {
    0 <= q < |s.tasks| && s.m.owner == q && |s.tasks| == |s.m.phases| && s.m.phases[q] == In
  }

  ghost predicate Ready(a: Act, s: State)
    requires Shaped(s)
  {
    match a
    case Ask(q) => 0 <= q < |s.tasks| && s.tasks[q] == Idle
    case GetSpin(q) =>
      && 0 <= q < |s.tasks| && s.tasks[q] in {Getting, Dropping}
      && s.m.owner == -1 && s.m.phases[q] in {Phase.Out, Roused}
    case Test(q) => Turn(s, q) && s.tasks[q] == Getting
    case LetGo => s.m.owner >= 0 && s.m.phases[s.m.owner].Falling?
    case Doze(q) => 0 <= q < |s.tasks| && s.m.phases[q].Fallen?
    case Kill(q) => 0 <= q < |s.tasks| && s.m.phases[q].Asleep?
    case Keep(q) => Turn(s, q) && s.tasks[q] == Got
    case Give(q) => 0 <= q < |s.tasks| && s.tasks[q] == Holding
    case Reset(q) => Turn(s, q) && s.tasks[q] == Dropping
    case Wake(q) => Turn(s, q) && s.tasks[q].Clearing? && s.tasks[q].i < |s.tasks| && !s.m.phases[s.tasks[q].i].Fallen?
    case Done(q) => Turn(s, q) && s.tasks[q] == Clearing(|s.tasks|)
  }

  /** The step of sleep, wakeup and the spin lock that the action takes, if any. */
  ghost function StepOf(a: Act, s: State): (r: seq<Step<int>>)
    requires Shaped(s) && Ready(a, s)
  {
    match a
    case Ask(_) => []
    case GetSpin(q) => [Enter(q)]
    case Test(q) => if s.m.shared != NOBODY then [Fall(LOCK)] else [Update(q)]
    case LetGo => [Step.LetGo]
    case Doze(q) => [Step.Doze(q)]
    case Kill(q) => [Step.Kill(q)]
    case Keep(_) => [Leave]
    case Give(_) => []
    case Reset(_) => [Update(NOBODY)]
    case Wake(q) => [Sweep(LOCK, s.tasks[q].i)]
    case Done(_) => [Leave]
  }

  ghost function TasksAfter(a: Act, s: State): seq<Task>
    requires Shaped(s) && Ready(a, s)
  {
    match a
    case Ask(q) => s.tasks[q := Getting]
    case Test(q) => if s.m.shared != NOBODY then s.tasks else s.tasks[q := Got]
    case Keep(q) => s.tasks[q := Holding]
    case Give(q) => s.tasks[q := Dropping]
    case Reset(q) => s.tasks[q := Clearing(0)]
    case Wake(q) => s.tasks[q := Clearing(s.tasks[q].i + 1)]
    case Done(q) => s.tasks[q := Idle]
    case _ => s.tasks
  }

  /** The process counts as having the sleeping lock. */
  predicate Has(t: Task) {
    t in {Got, Holding, Dropping}
  }

  predicate OnLock(p: Phase) {
    p.Falling? || p.Fallen? || p.Asleep? ==> p.c == LOCK
  }

  ghost predicate TaskOk(s: State, q: int)
    requires Shaped(s) && 0 <= q < |s.tasks|
  {
    var t, p := s.tasks[q], s.m.phases[q];
    && (Has(t) <==> s.m.shared == q)
    && OnLock(p)
    && match t
       case Idle => p == Phase.Out
       case Getting => p.In? || p.Falling? ==> s.m.entry == s.m.shared
       case Got => p == In && s.m.entry == NOBODY
       case Holding => p == Phase.Out
       case Dropping => p == Phase.Out || (p == In && s.m.entry == q && Upto(s.m, LOCK) == 0)
       case Clearing(i) => p == In && s.m.shared == NOBODY && Upto(s.m, LOCK) == i && i <= |s.tasks|
  }

  ghost predicate Inv(s: State) {
    && Shaped(s) && SleepWakeup.Inv(s.m, Locked)
    && -1 <= s.m.shared < |s.tasks|
    && forall q :: 0 <= q < |s.tasks| ==> TaskOk(s, q)
  }

  /** initsleeplock, with all processes elsewhere. */
  lemma InitialInv(n: nat)
    ensures Inv(State(Monitor(-1, seq(n, _ => Phase.Out), NOBODY, NOBODY, map[]), seq(n, _ => Idle)))
  {
  }

  /** Each action follows the rules of sleep and wakeup: in particular nobody gives the spin lock back before it has
      woken those for whom the sleeping lock has become free. */
  lemma FollowsRules(a: Act, s: State)
    requires Inv(s) && Ready(a, s)
    ensures StepOf(a, s) != [] ==> SleepWakeup.Ready(StepOf(a, s)[0], s.m, Locked)
  {
    if s.m.owner >= 0 {
      assert TaskOk(s, s.m.owner);
    }
  }

  ghost function After(a: Act, s: State): (t: State)
    requires Inv(s) && Ready(a, s)
  {
    FollowsRules(a, s);
    var st := StepOf(a, s);
    State(if st == [] then s.m else SleepWakeup.After(st[0], s.m, Locked), TasksAfter(a, s))
  }

  lemma StepKeeps(a: Act, s: State)
    requires Inv(s) && Ready(a, s)
    ensures Inv(After(a, s))
  {
    var t, st := After(a, s), StepOf(a, s);
    FollowsRules(a, s);
    if st != [] {
      SleepWakeup.StepKeeps(st[0], s.m, Locked);
    }
    hide WaitersOk;
    forall q | 0 <= q < |t.tasks| ensures TaskOk(t, q) {
      TaskKept(a, s, q);
    }
  }

  lemma TaskKept(a: Act, s: State, q: int)
    requires Inv(s) && Ready(a, s) && Shaped(After(a, s)) && 0 <= q < |s.tasks|
    ensures TaskOk(After(a, s), q)
  {
    assert TaskOk(s, q);
    if s.m.owner >= 0 {
      assert TaskOk(s, s.m.owner);
    }
    hide WaitersOk;
    FollowsRules(a, s);
  }

  ghost predicate Runs(acts: seq<Act>, s: State)
    requires Inv(s)
    decreases |acts|
  {
    acts == [] || (Ready(acts[0], s) && (StepKeeps(acts[0], s); Runs(acts[1..], After(acts[0], s))))
  }

  ghost function RunTo(acts: seq<Act>, s: State): (t: State)
    requires Inv(s) && Runs(acts, s)
    ensures Inv(t)
    decreases |acts|
  {
    if acts == [] then s else
      StepKeeps(acts[0], s);
      RunTo(acts[1..], After(acts[0], s))
  }

  /** What the process that has the spin lock does next; or, if that waits for the lock of a process that is falling
      asleep, what that one does. */
  ghost function Next(s: State): (a: Act)
    requires Shaped(s) && 0 <= s.m.owner
  {
    var q := s.m.owner;
    if s.m.phases[q].Falling? then Act.LetGo else
    match s.tasks[q]
    case Getting => Test(q)
    case Got => Keep(q)
    case Dropping => Reset(q)
    case Clearing(i) =>
      if i >= |s.tasks| then Done(q) else if s.m.phases[i].Fallen? then Act.Doze(i) else Wake(q)
    case _ => Done(q)
  }

  /** Whoever has the spin lock can go on. */
  lemma NotStuck(acts: seq<Act>, s: State)
    requires Inv(s) && Runs(acts, s) && RunTo(acts, s).m.owner >= 0
    ensures var t := RunTo(acts, s); Shaped(t) && Ready(Next(t), t)
  {
    var t := RunTo(acts, s);
    assert TaskOk(t, t.m.owner) && (t.m.phases[t.m.owner] == In || t.m.phases[t.m.owner].Falling?);
  }

  /** In every interleaving at most one process has the lock, and one sleeps on it only while another has it, or while
      the one that released it has yet to wake it. */
  lemma AlwaysSafe(acts: seq<Act>, s: State)
    requires Inv(s) && Runs(acts, s)
    ensures var t := RunTo(acts, s);
            && (forall q, r :: 0 <= q < |t.tasks| && 0 <= r < |t.tasks| && Has(t.tasks[q]) && Has(t.tasks[r]) ==>
                  q == r)
            && forall q :: 0 <= q < |t.tasks| && t.m.phases[q].Asleep? ==> Justified(t, q)
  {
    var t := RunTo(acts, s);
    forall q | 0 <= q < |t.tasks| && t.m.phases[q].Asleep? ensures Justified(t, q) {
      SleeperHasReason(t, q);
    }
    forall q, r | 0 <= q < |t.tasks| && 0 <= r < |t.tasks| && Has(t.tasks[q]) && Has(t.tasks[r]) ensures q == r {
      assert TaskOk(t, q) && TaskOk(t, r);
    }
  }

  /** Another process has the lock, or has released it and will wake this one. */
  ghost predicate Justified(s: State, q: int) {
    || (0 <= s.m.shared < |s.tasks| && s.m.shared != q && Has(s.tasks[s.m.shared]))
    || (0 <= s.m.owner < |s.tasks| && s.tasks[s.m.owner].Clearing? && s.tasks[s.m.owner].i <= q)
  }

  lemma SleeperHasReason(s: State, q: int)
    requires Inv(s) && 0 <= q < |s.tasks| && s.m.phases[q].Asleep?
    ensures Justified(s, q)
  {
    assert TaskOk(s, q) && Down(s.m.phases[q], LOCK);
    if s.m.owner >= 0 {
      assert TaskOk(s, s.m.owner) && (s.m.phases[s.m.owner] == In || s.m.phases[s.m.owner].Falling?);
      assert Locked(s.m.entry, LOCK) && Upto(s.m, LOCK) <= q;
    } else {
      assert Locked(s.m.shared, LOCK);
    }
    if s.m.shared >= 0 {
      assert TaskOk(s, s.m.shared);
    }
  }
}
