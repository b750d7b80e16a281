/** kfork, kexit and kwait of kernel/proc.c around wait_lock, as clients of sleep and wakeup.  The shared state is the
    process table; a parent waits on its own slot while it has no zombie child. */
module ExitWait {
  import opened SleepWakeup

  const INIT := 0
  const NONE := -1

  datatype Life = Unused | Alive | Zombie

  datatype Proc = Proc(life: Life, parent: int, pid: nat, xstate: int)

  datatype Table = Table(procs: seq<Proc>, nextPid: nat)

  predicate ZombieChild(t: Table, i: int, c: int) {
    0 <= i < |t.procs| && t.procs[i].parent == c && t.procs[i].life == Zombie
  }

  /** What a parent waits for: no child of slot `c` is a zombie. */
  predicate NoZombie(t: Table, c: int) {
    forall i | 0 <= i < |t.procs| :: !ZombieChild(t, i, c)
  }

  const Childish: Wait<Table> := (t: Table, c: int) => NoZombie(t, c)

  /** Where a process is in a call. Want: it has yet to get wait_lock. Moving: reparent looks at slot `i`. Telling: it
      has given that child to init and wakes init, at process `j`. Calling: it wakes its parent, at process `j`.
      Marked: it has made itself a zombie. Scan: kwait looks at slot `i`, and `kids` says whether it has seen a child.
      Resting: it has one, and was not killed when it looked. GivingUp: it has none, or was killed. Spoiled: it could
      not copy a child's status out. Dead: it has left the processor for good. */
  datatype Task =
    | Idle
    | WantFork | Forked
    | WantExit(status: int) | Moving(status: int, i: nat) | Telling(status: int, i: nat, j: nat)
    | Calling(status: int, j: nat) | Marked
    | WantWait | Scan(i: nat, kids: bool) | Resting | GivingUp | Spoiled | Reaped
    | Dead

  datatype Kind = Born | Exited(status: int) | Collected(status: int)

  datatype Event = Event(kind: Kind, pid: nat)

  /** The killed processes; and for the proof: the slot of each process that is not reaped, the status of each that is,
      and all events. */
  datatype State = State(m: Monitor<Table>, tasks: seq<Task>, killed: set<int>, home: map<nat, int>,
                         done: map<nat, int>, log: seq<Event>)

  function Freed(t: Table, i: int): Table
    requires 0 <= i < |t.procs|
  {
    t.(procs := t.procs[i := Proc(Unused, NONE, 0, 0)])
  }

  function Moved(t: Table, i: int): Table
    requires 0 <= i < |t.procs|
  {
    t.(procs := t.procs[i := t.procs[i].(parent := INIT)])
  }

  function Ended(t: Table, q: int, status: int): Table
    requires 0 <= q < |t.procs|
  {
    t.(procs := t.procs[q := t.procs[q].(xstate := status, life := Zombie)])
  }

  function WithChild(t: Table, i: int, parent: int): Table
    requires 0 <= i < |t.procs|
  {
    Table(t.procs[i := Proc(Alive, parent, t.nextPid, 0)], t.nextPid + 1)
  }

  // ---- Actions ----

  datatype Act =
    | Begin(q: int, t: Task)
    | GetLock(q: int)
    | Bear(q: int, i: int)
    | Move(q: int)
    | Tell(q: int)
    | Call(q: int)
    | Mark(q: int)
    | Look(q: int)
    | Reap(q: int)
    | Spoil(q: int)
    | Check(q: int)
    | Rest(q: int)
    | Quit(q: int)
    | LetGo
    | Doze(q: int)
    | Kill(q: int)

  ghost predicate Shaped(s: State) {
    |s.tasks| == |s.m.phases| == |s.m.shared.procs| && OwnerOk(s.m)
  }

  predicate NoSlot(t: Table) {
    forall i | 0 <= i < |t.procs| :: t.procs[i].life != Unused
  }

  ghost predicate Turn(s: State, q: int) {
    Shaped(s) && 0 <= q < |s.tasks| && s.m.owner == q && s.m.phases[q] == In
  }

  ghost predicate Ready(a: Act, s: State)
    requires Shaped(s)
  {
    var n, t := |s.tasks|, s.m.shared;
    match a
    case Begin(q, task) =>
      && 0 <= q < n && s.tasks[q] == Idle
      && (task == WantFork || task == WantWait || (task.WantExit? && q != INIT))
    case GetLock(q) =>
      && 0 <= q < n && (s.tasks[q].WantFork? || s.tasks[q].WantExit? || s.tasks[q].WantWait?)
      && s.m.owner == -1 && s.m.phases[q] in {Phase.Out, Roused}
    case Bear(q, i) => Turn(s, q) && s.tasks[q] == WantFork && 0 <= i < n && t.procs[i].life == Unused
    case Move(q) => Turn(s, q) && s.tasks[q].Moving? && s.tasks[q].i <= n
    case Tell(q) => Turn(s, q) && s.tasks[q].Telling? && (s.tasks[q].j < n ==> !s.m.phases[s.tasks[q].j].Fallen?)
    case Call(q) => Turn(s, q) && s.tasks[q].Calling? && s.tasks[q].j < n && !s.m.phases[s.tasks[q].j].Fallen?
    case Mark(q) => Turn(s, q) && s.tasks[q].Calling? && s.tasks[q].j == n
    case Look(q) => Turn(s, q) && s.tasks[q].Scan? && s.tasks[q].i < n && !ZombieChild(t, s.tasks[q].i, q)
    case Reap(q) => Turn(s, q) && s.tasks[q].Scan? && ZombieChild(t, s.tasks[q].i, q)
    case Spoil(q) => Turn(s, q) && s.tasks[q].Scan? && ZombieChild(t, s.tasks[q].i, q)
    case Check(q) => Turn(s, q) && s.tasks[q].Scan? && s.tasks[q].i == n
    case Rest(q) => Turn(s, q) && s.tasks[q].Resting?
    case Quit(q) =>
      // kfork gives up without a free slot.
      Turn(s, q) && (s.tasks[q] in {Forked, Marked, Reaped, GivingUp, Spoiled} || (s.tasks[q] == WantFork && NoSlot(t)))
    case LetGo => s.m.owner >= 0 && s.m.phases[s.m.owner].Falling?
    case Doze(q) => 0 <= q < n && s.m.phases[q].Fallen?
    case Kill(q) =>
      // kkill takes the process's own lock, which one that falls asleep or exits does not give up.
      && 0 <= q < n && t.procs[q].life != Unused && s.tasks[q] != Marked
      && !s.m.phases[q].Falling? && !s.m.phases[q].Fallen?
  }

  ghost function StepOf(a: Act, s: State): (r: seq<Step<Table>>)
    requires Shaped(s) && Ready(a, s)
  {
    var n, t := |s.tasks|, s.m.shared;
    match a
    case Begin(_, _) => []
    case GetLock(q) => [Enter(q)]
    case Bear(q, i) => [Update(WithChild(t, i, q))]
    case Move(q) =>
      var i := s.tasks[q].i;
      if i < n && t.procs[i].parent == q then [Update(Moved(t, i))] else []
    case Tell(q) => if s.tasks[q].j < n then [Sweep(INIT, s.tasks[q].j)] else []
    case Call(q) => [Sweep(t.procs[q].parent, s.tasks[q].j)]
    case Mark(q) => [Update(Ended(t, q, s.tasks[q].status))]
    case Look(_) => []
    case Spoil(_) => []
    case Check(_) => []
    case Reap(q) => [Update(Freed(t, s.tasks[q].i))]
    case Rest(q) => [Fall(q)]
    case Quit(_) => [Leave]
    case LetGo => [Step.LetGo]
    case Doze(q) => [Step.Doze(q)]
    case Kill(q) => if s.m.phases[q].Asleep? then [Step.Kill(q)] else []
  }

  function Entered(t: Task): Task {
    match t
    case WantExit(st) => Moving(st, 0)
    case WantWait => Scan(0, false)
    case _ => t
  }

  ghost function TaskAfter(a: Act, s: State): seq<Task>
    requires Shaped(s) && Ready(a, s)
  {
    var n, t := |s.tasks|, s.m.shared;
    match a
    case Begin(q, task) => s.tasks[q := task]
    case GetLock(q) => s.tasks[q := Entered(s.tasks[q])]
    case Bear(q, i) => s.tasks[i := Idle][q := Forked]
    case Move(q) =>
      var Moving(st, i) := s.tasks[q];
      s.tasks[q := if i == n then Calling(st, 0)
                   else if t.procs[i].parent == q then Telling(st, i, 0) else Moving(st, i + 1)]
    case Tell(q) =>
      var Telling(st, i, j) := s.tasks[q];
      s.tasks[q := if j < n then Telling(st, i, j + 1) else Moving(st, i + 1)]
    case Call(q) => s.tasks[q := s.tasks[q].(j := s.tasks[q].j + 1)]
    case Mark(q) => s.tasks[q := Marked]
    case Look(q) => s.tasks[q := Scan(s.tasks[q].i + 1, s.tasks[q].kids || t.procs[s.tasks[q].i].parent == q)]
    case Reap(q) => s.tasks[q := Reaped]
    case Spoil(q) => s.tasks[q := Spoiled]
    case Check(q) => s.tasks[q := if !s.tasks[q].kids || q in s.killed then GivingUp else Resting]
    case Rest(q) => s.tasks[q := WantWait]
    case Quit(q) => s.tasks[q := if s.tasks[q] == Marked then Dead else Idle]
    case _ => s.tasks
  }

  // ---- Invariant ----

  /** Settled, leaving channel `d` aside. */
  ghost predicate SettledBut(m: Monitor<Table>, d: int) {
    forall c :: c != d && NoZombie(m.entry, c) && !NoZombie(m.shared, c) ==> Upto(m, c) == |m.phases|
  }

  ghost predicate NotParent(t: Table, q: int, n: nat) {
    forall k :: 0 <= k < n && k < |t.procs| ==> t.procs[k].parent != q
  }

  ghost predicate NoneSeen(t: Table, q: int, n: nat) {
    forall k :: 0 <= k < n ==> !ZombieChild(t, k, q)
  }

  ghost predicate TaskOk(s: State, q: int)
    requires Shaped(s) && 0 <= q < |s.tasks|
  {
    var n, t, p := |s.tasks|, s.m.shared, s.m.phases[q];
    && OnSelf(p, q)
    && (t.procs[q].life == Alive <==> s.tasks[q] != Dead && s.tasks[q] != Marked)
    && match s.tasks[q]
       case Idle => p == Phase.Out
       case WantFork => p == Phase.Out || (p == In && s.m.entry == t)
       case Forked => p == In && Settled(s.m, Childish)
       case WantExit(_) => p == Phase.Out && q != INIT
       case Moving(_, i) => p == In && q != INIT && i <= n && Settled(s.m, Childish) && NotParent(t, q, i)
       case Telling(_, i, j) =>
         && p == In && q != INIT && i < n && j <= n && SettledBut(s.m, INIT) && Upto(s.m, INIT) >= j
         && NotParent(t, q, i + 1)
       case Calling(_, j) =>
         && p == In && q != INIT && j <= n && Settled(s.m, Childish) && Upto(s.m, t.procs[q].parent) >= j
         && NotParent(t, q, n)
       case Marked => p == In && q != INIT && Settled(s.m, Childish) && t.procs[q].life == Zombie && NotParent(t, q, n)
       case WantWait => p != In && (p.Falling? ==> s.m.entry == t)
       case Scan(i, kids) =>
         p == In && s.m.entry == t && i <= n && NoneSeen(t, q, i) && (kids <==> !NotParent(t, q, i))
       case Resting => p == In && s.m.entry == t && NoneSeen(t, q, n) && !NotParent(t, q, n)
       case GivingUp => p == In && Settled(s.m, Childish) && (NotParent(t, q, n) || q in s.killed)
       case Spoiled => p == In && Settled(s.m, Childish) && !NoZombie(t, q)
       case Reaped => p == In && Settled(s.m, Childish)
       case Dead => p == Phase.Out && q != INIT
  }

  predicate OnSelf(p: Phase, q: int) {
    p.Falling? || p.Fallen? || p.Asleep? ==> p.c == q
  }

  /** Every process but init has a parent that is alive, so that there is always somebody to reap it. */
  ghost predicate Family(t: Table) {
    && |t.procs| > 0 && t.procs[INIT].life == Alive
    && forall i :: 0 <= i < |t.procs| ==> FamilyOk(t, i)
  }

  ghost predicate FamilyOk(t: Table, i: int)
    requires 0 <= i < |t.procs|
  {
    var p := t.procs[i].parent;
    if t.procs[i].life == Unused then p == NONE
    else i != INIT ==> 0 <= p < |t.procs| && t.procs[p].life == Alive
  }

  /** The events of one process, in order. */
  function Of(log: seq<Event>, pid: nat): seq<Kind> {
    if log == [] then [] else
      var e := log[|log| - 1];
      Of(log[..|log| - 1], pid) + if e.pid == pid then [e.kind] else []
  }

  ghost function Story(t: Table, home: map<nat, int>, done: map<nat, int>, pid: nat): seq<Kind> {
    if pid in home && 0 <= home[pid] < |t.procs| then
      if t.procs[home[pid]].life == Zombie then [Born, Exited(t.procs[home[pid]].xstate)] else [Born]
    else if pid in done then [Born, Exited(done[pid]), Collected(done[pid])]
    else []
  }

  ghost predicate PidsOk(t: Table, home: map<nat, int>, done: map<nat, int>) {
    && (forall i :: 0 <= i < |t.procs| && t.procs[i].life != Unused ==>
          t.procs[i].pid in home && home[t.procs[i].pid] == i)
    && (forall p :: p in home ==>
          p < t.nextPid && p !in done && 0 <= home[p] < |t.procs| && t.procs[home[p]].life != Unused
          && t.procs[home[p]].pid == p)
    && (forall p :: p in done ==> p < t.nextPid)
  }

  ghost predicate TraceOk(s: State) {
    forall pid: nat :: Of(s.log, pid) == Story(s.m.shared, s.home, s.done, pid)
  }

  ghost predicate Tasks(s: State)
    requires Shaped(s)
  {
    forall q :: 0 <= q < |s.tasks| ==> TaskOk(s, q)
  }

  /** Whoever sleeps in kwait, or is about to, has a child. */
  ghost predicate Sleepers(m: Monitor<Table>) {
    forall q :: 0 <= q < |m.phases| && Sleeps(m.phases[q]) ==> !NotParent(m.shared, q, |m.shared.procs|)
  }

  predicate Sleeps(p: Phase) {
    p.Falling? || p.Fallen? || p.Asleep?
  }

  ghost predicate Inv(s: State) {
    && Shaped(s) && SleepWakeup.Inv(s.m, Childish) && Tasks(s) && Sleepers(s.m)
    && Family(s.m.shared) && PidsOk(s.m.shared, s.home, s.done) && TraceOk(s)
  }

  // ---- What changes of the table do to waiting parents ----

  lemma NoNewZombie(t: Table, t': Table, c: int)
    requires |t'.procs| == |t.procs| && forall k :: ZombieChild(t', k, c) ==> ZombieChild(t, k, c)
    ensures NoZombie(t, c) ==> NoZombie(t', c)
  {
  }

  /** A change that makes no new zombie child leaves the owner settled. */
  lemma StaysSettled(m: Monitor<Table>, t': Table, d: int)
    requires SettledBut(m, d) && |t'.procs| == |m.shared.procs|
    requires forall c, k :: c != d && ZombieChild(t', k, c) ==> ZombieChild(m.shared, k, c)
    ensures SettledBut(m.(shared := t'), d)
  {
    forall c | c != d && NoZombie(m.entry, c) && !NoZombie(t', c) ensures Upto(m, c) == |m.phases| {
      NoNewZombie(m.shared, t', c);
    }
  }

  lemma SettledIs(m: Monitor<Table>, d: int)
    ensures Settled(m, Childish) ==> SettledBut(m, d)
    ensures SettledBut(m, d) && Upto(m, d) == |m.phases| ==> Settled(m, Childish)
    ensures m.entry == m.shared ==> Settled(m, Childish)
  {
    if SettledBut(m, d) && Upto(m, d) == |m.phases| {
      forall c | Childish(m.entry, c) && !Childish(m.shared, c) ensures Upto(m, c) == |m.phases| {
        assert NoZombie(m.entry, c) && !NoZombie(m.shared, c);
      }
    }
    if Settled(m, Childish) {
      forall c | c != d && NoZombie(m.entry, c) && !NoZombie(m.shared, c) ensures Upto(m, c) == |m.phases| {
        assert Childish(m.entry, c) && !Childish(m.shared, c);
      }
    }
  }

  /** Each action follows the rules of sleep and wakeup: a parent goes to sleep only after it has found no zombie child,
      and whoever gives somebody a zombie child wakes that parent before it releases wait_lock. */
  lemma FollowsRules(a: Act, s: State)
    requires Inv(s) && Ready(a, s)
    ensures StepOf(a, s) != [] ==> SleepWakeup.Ready(StepOf(a, s)[0], s.m, Childish)
  {
    hide Family, PidsOk, TraceOk, Sleepers, WaitersOk;
    if s.m.owner >= 0 {
      assert TaskOk(s, s.m.owner);
      SettledIs(s.m, INIT);
    }
    if a.Rest? {
      assert NoZombie(s.m.shared, a.q);
    }
  }

  ghost function After(a: Act, s: State): (r: State)
    requires Inv(s) && Ready(a, s)
  {
    FollowsRules(a, s);
    var st := StepOf(a, s);
    var m := if st == [] then s.m else SleepWakeup.After(st[0], s.m, Childish);
    var t, r := s.m.shared, s.(m := m, tasks := TaskAfter(a, s));
    match a
    case Bear(q, i) =>
      r.(killed := s.killed - {i}, home := s.home[t.nextPid := i], log := s.log + [Event(Born, t.nextPid)])
    case Mark(q) => r.(log := s.log + [Event(Exited(s.tasks[q].status), t.procs[q].pid)])
    case Reap(q) =>
      var i := s.tasks[q].i;
      var c := t.procs[i];
      r.(killed := s.killed - {i}, home := s.home - {c.pid}, done := s.done[c.pid := c.xstate],
         log := s.log + [Event(Collected(c.xstate), c.pid)])
    case Kill(q) => r.(killed := s.killed + {q})
    case _ => r
  }

  // ---- Each action keeps the invariant ----

  /** The process that acts. */
  ghost function Actor(a: Act, s: State): int {
    match a
    case LetGo => s.m.owner
    case _ => a.q
  }

  /** All that is known of a process that does not have wait_lock. */
  predicate Apart(t: Task, p: Phase, l: Life, q: int) {
    && OnSelf(p, q) && p != In && !p.Falling?
    && (l == Alive <==> t != Dead)
    && match t
       case Idle => p == Phase.Out
       case WantFork => p == Phase.Out
       case WantExit(_) => p == Phase.Out && q != INIT
       case WantWait => true
       case Dead => p == Phase.Out && q != INIT
       case _ => false
  }

  lemma ApartIs(s: State, q: int)
    requires Shaped(s) && 0 <= q < |s.tasks| && q != s.m.owner
    ensures TaskOk(s, q) <==> Apart(s.tasks[q], s.m.phases[q], s.m.shared.procs[q].life, q)
  {
    hide Settled, SettledBut, NotParent, NoneSeen;
  }

  /** Others may only rouse the process, and make a free slot a process. */
  lemma OthersDo(a: Act, s: State, q: int)
    requires Inv(s) && Ready(a, s) && 0 <= q < |s.tasks| && q != Actor(a, s) && q != s.m.owner
    ensures var r := After(a, s);
            && |r.m.phases| == |s.m.phases| && |r.tasks| == |s.tasks| && q != r.m.owner
            && (r.m.phases[q] == s.m.phases[q] || (s.m.phases[q].Asleep? && r.m.phases[q] == Roused))
            && r.tasks[q] == if a.Bear? && q == a.i then Idle else s.tasks[q]
  {
    hide Settled, SettledBut, NotParent, NoneSeen, WaitersOk, PidsOk, TraceOk, Sleepers, Family, Tasks, Of, Story;
    FollowsRules(a, s);
  }

  lemma ApartKept(a: Act, s: State, q: int)
    requires Inv(s) && Ready(a, s) && Shaped(After(a, s)) && 0 <= q < |s.tasks| && q != Actor(a, s) && q != s.m.owner
    requires Apart(s.tasks[q], s.m.phases[q], s.m.shared.procs[q].life, q)
    ensures var r := After(a, s);
            && q != r.m.owner && q < |r.tasks| && Apart(r.tasks[q], r.m.phases[q], r.m.shared.procs[q].life, q)
  {
    OthersDo(a, s, q);
    TableAfter(a, s);
    hide Settled, SettledBut, NotParent, NoneSeen, WaitersOk, PidsOk, TraceOk, Sleepers, Family, Tasks, Of, Story;
    hide After;
  }

  /** What others do without wait_lock does not concern the process that has it. */
  lemma OwnerKept(a: Act, s: State)
    requires Inv(s) && Ready(a, s) && Shaped(After(a, s)) && 0 <= s.m.owner < |s.tasks| && s.m.owner != Actor(a, s)
    ensures TaskOk(After(a, s), s.m.owner)
  {
    assert TaskOk(s, s.m.owner);
    hide NotParent, NoneSeen, WaitersOk, PidsOk, TraceOk, Sleepers, Family, Tasks, Of, Story, NoZombie, TaskOk;
    hide Settled, SettledBut;
    FollowsRules(a, s);
    SamePhases(s, After(a, s), s.m.owner);
  }

  lemma SamePhases(s: State, r: State, q: int)
    requires Shaped(s) && Shaped(r) && 0 <= q < |s.tasks| && TaskOk(s, q)
    requires |r.m.phases| == |s.m.phases| && r.m == s.m.(phases := r.m.phases)
    requires r.m.phases[q] == s.m.phases[q] && r.tasks[q] == s.tasks[q] && s.killed <= r.killed
    ensures TaskOk(r, q)
  {
    hide NotParent, NoneSeen, NoZombie, Settled, SettledBut;
    OnlyPhases(s.m, r.m.phases);
  }

  lemma OnlyPhases(m: Monitor<Table>, phases: seq<Phase>)
    requires |phases| == |m.phases|
    ensures Settled(m, Childish) ==> Settled(m.(phases := phases), Childish)
    ensures SettledBut(m, INIT) ==> SettledBut(m.(phases := phases), INIT)
  {
  }

  lemma OthersKept(a: Act, s: State, q: int)
    requires Inv(s) && Ready(a, s) && Shaped(After(a, s)) && 0 <= q < |s.tasks| && q != Actor(a, s)
    ensures q < |After(a, s).tasks| && TaskOk(After(a, s), q)
  {
    hide WaitersOk, PidsOk, TraceOk, Sleepers, Family, Of, Story, Apart, TaskOk, After, Ready;
    SameCount(a, s);
    if q == s.m.owner {
      OwnerKept(a, s);
    } else {
      ApartIs(s, q);
      ApartKept(a, s, q);
      ApartIs(After(a, s), q);
    }
  }

  lemma MoveKept(s: State, q: int)
    requires Inv(s) && Ready(Move(q), s) && Shaped(After(Move(q), s))
    ensures TaskOk(After(Move(q), s), q)
  {
    hide Inv, Settled, SettledBut, NoneSeen, NoZombie;
    OwnTask(s, q);
    var t, r := s.m.shared, After(Move(q), s);
    var Moving(st, i) := s.tasks[q];
    SettledIs(s.m, INIT);
    if i < |s.tasks| && t.procs[i].parent == q {
      StaysSettled(s.m, Moved(t, i), INIT);
      assert r.tasks[q] == Telling(st, i, 0);
    }
  }

  lemma TellKept(s: State, q: int)
    requires Inv(s) && Ready(Tell(q), s) && Shaped(After(Tell(q), s))
    ensures TaskOk(After(Tell(q), s), q)
  {
    assert TaskOk(s, q);
    var r := After(Tell(q), s);
    var Telling(st, i, j) := s.tasks[q];
    SettledIs(s.m, INIT);
    if j < |s.tasks| {
      SweptSettled(s.m, INIT, j, INIT);
    }
    hide WaitersOk, PidsOk, TraceOk, Sleepers, Family;
  }

  /** A wakeup does not unsettle anything. */
  lemma SweptSettled(m: Monitor<Table>, c: int, j: int, d: int)
    requires SleepWakeup.Inv(m, Childish) && SleepWakeup.Ready(Sweep(c, j), m, Childish)
    ensures var r := SleepWakeup.After(Sweep(c, j), m, Childish);
            && (SettledBut(m, d) ==> SettledBut(r, d)) && (Settled(m, Childish) ==> Settled(r, Childish))
            && (Upto(m, c) >= j ==> Upto(r, c) >= j + 1)
  {
    var r := SleepWakeup.After(Sweep(c, j), m, Childish);
    assert forall e :: e != c ==> Upto(r, e) == Upto(m, e);
    assert Upto(m, c) == |m.phases| ==> Upto(r, c) == |m.phases|;
    hide NoZombie;
  }

  lemma CallKept(s: State, q: int)
    requires Inv(s) && Ready(Call(q), s) && Shaped(After(Call(q), s))
    ensures TaskOk(After(Call(q), s), q)
  {
    assert TaskOk(s, q);
    SweptSettled(s.m, s.m.shared.procs[q].parent, s.tasks[q].j, INIT);
    hide WaitersOk, PidsOk, TraceOk, Sleepers, Family, Settled;
  }

  lemma MarkKept(s: State, q: int)
    requires Inv(s) && Ready(Mark(q), s) && Shaped(After(Mark(q), s))
    ensures TaskOk(After(Mark(q), s), q)
  {
    assert TaskOk(s, q);
    var t := s.m.shared;
    var d := t.procs[q].parent;
    var t' := Ended(t, q, s.tasks[q].status);
    SettledIs(s.m, d);
    StaysSettled(s.m, t', d);
    SettledIs(s.m.(shared := t'), d);
    assert Upto(s.m, d) == |s.m.phases| by {
      assert d in s.m.swept || |s.m.phases| == 0;
    }
    hide WaitersOk, PidsOk, TraceOk, Sleepers, Family, Settled;
  }

  lemma ReapKept(s: State, q: int)
    requires Inv(s) && Ready(Reap(q), s) && Shaped(After(Reap(q), s))
    ensures TaskOk(After(Reap(q), s), q)
  {
    hide Inv, Settled, SettledBut, NotParent, NoneSeen, NoZombie;
    OwnTask(s, q);
    var t' := Freed(s.m.shared, s.tasks[q].i);
    SettledIs(s.m, NONE);
    AllSettled(s.m, t');
  }

  /** A change that makes no zombie at all. */
  lemma AllSettled(m: Monitor<Table>, t': Table)
    requires Settled(m, Childish) && |t'.procs| == |m.shared.procs|
    requires forall c, k :: ZombieChild(t', k, c) ==> ZombieChild(m.shared, k, c)
    ensures Settled(m.(shared := t'), Childish)
  {
    forall c | Childish(m.entry, c) && !Childish(t', c) ensures Upto(m, c) == |m.phases| {
      NoNewZombie(m.shared, t', c);
      assert !Childish(m.shared, c);
    }
  }

  lemma BearKept(s: State, q: int, i: int)
    requires Inv(s) && Ready(Bear(q, i), s) && Shaped(After(Bear(q, i), s))
    ensures TaskOk(After(Bear(q, i), s), q)
  {
    assert TaskOk(s, q);
    SettledIs(s.m, NONE);
    AllSettled(s.m, WithChild(s.m.shared, i, q));
    hide WaitersOk, PidsOk, TraceOk, Sleepers, Family, Settled;
  }

  lemma OwnKept(a: Act, s: State)
    requires Inv(s) && Ready(a, s) && Shaped(After(a, s))
    ensures 0 <= Actor(a, s) < |s.tasks| && TaskOk(After(a, s), Actor(a, s))
  {
    match a
    case Bear(q, i) => BearKept(s, q, i);
    case Move(q) => MoveKept(s, q);
    case Tell(q) => TellKept(s, q);
    case Call(q) => CallKept(s, q);
    case Mark(q) => MarkKept(s, q);
    case Reap(q) => ReapKept(s, q);
    case _ => RestKept(a, s);
  }

  lemma RestKept(a: Act, s: State)
    requires Inv(s) && Ready(a, s) && Shaped(After(a, s))
    requires !a.Bear? && !a.Move? && !a.Tell? && !a.Call? && !a.Mark? && !a.Reap?
    ensures 0 <= Actor(a, s) < |s.tasks| && TaskOk(After(a, s), Actor(a, s))
  {
    var q := Actor(a, s);
    assert TaskOk(s, q);
    if a.GetLock? || a.Look? || a.Rest? || a.Check? || a.Spoil? {
      InsideKept(a, s);
    } else {
      OutsideKept(a, s);
    }
  }

  lemma InsideKept(a: Act, s: State)
    requires Inv(s) && Ready(a, s) && Shaped(After(a, s))
    requires a.GetLock? || a.Look? || a.Rest? || a.Check? || a.Spoil?
    ensures TaskOk(After(a, s), a.q)
  {
    match a
    case GetLock(q) => GetLockKept(s, q);
    case Look(q) => LookKept(s, q);
    case Rest(q) => SleepKept(s, q);
    case Check(q) => CheckKept(s, q);
    case Spoil(q) => SpoilKept(s, q);
    case _ =>
  }

  lemma GetLockKept(s: State, q: int)
    requires Inv(s) && Ready(GetLock(q), s) && Shaped(After(GetLock(q), s))
    ensures TaskOk(After(GetLock(q), s), q)
  {
    assert TaskOk(s, q);
    hide Inv, WaitersOk, PidsOk, TraceOk, Sleepers, Family, Tasks, Of, Story, SettledBut, Settled;
    SettledIs(After(GetLock(q), s).m, INIT);
  }

  lemma LookKept(s: State, q: int)
    requires Inv(s) && Ready(Look(q), s) && Shaped(After(Look(q), s))
    ensures TaskOk(After(Look(q), s), q)
  {
    assert TaskOk(s, q);
    hide Inv, WaitersOk, PidsOk, TraceOk, Sleepers, Family, Tasks, Of, Story, SettledBut, Settled, SleepWakeup.After;
  }

  /** kwait goes to sleep with a child, and gives up without one or killed. */
  lemma CheckKept(s: State, q: int)
    requires Inv(s) && Ready(Check(q), s) && Shaped(After(Check(q), s))
    ensures TaskOk(After(Check(q), s), q)
  {
    hide Inv, Of, Story, SettledBut, Settled, NoneSeen, NotParent, SleepWakeup.After;
    OwnTask(s, q);
    SettledIs(s.m, INIT);
  }

  lemma SpoilKept(s: State, q: int)
    requires Inv(s) && Ready(Spoil(q), s) && Shaped(After(Spoil(q), s))
    ensures TaskOk(After(Spoil(q), s), q)
  {
    hide Inv, Of, Story, SettledBut, Settled, NoneSeen, NotParent, SleepWakeup.After;
    OwnTask(s, q);
    SettledIs(s.m, INIT);
    assert ZombieChild(s.m.shared, s.tasks[q].i, q);
  }

  lemma ActorIn(a: Act, s: State)
    requires Inv(s) && Ready(a, s)
    ensures 0 <= Actor(a, s) < |s.tasks|
  {
  }

  lemma OwnTask(s: State, q: int)
    requires Inv(s) && 0 <= q < |s.tasks|
    ensures Shaped(s) && TaskOk(s, q)
  {
  }

  lemma SleepKept(s: State, q: int)
    requires Inv(s) && Ready(Rest(q), s) && Shaped(After(Rest(q), s))
    ensures TaskOk(After(Rest(q), s), q)
  {
    assert TaskOk(s, q);
    hide Inv, WaitersOk, PidsOk, TraceOk, Sleepers, Family, Tasks, Of, Story, SettledBut, Settled, NoneSeen;
  }

  lemma OutsideKept(a: Act, s: State)
    requires Inv(s) && Ready(a, s) && Shaped(After(a, s)) && (a.Begin? || a.Quit? || a.LetGo? || a.Doze? || a.Kill?)
    ensures 0 <= Actor(a, s) < |s.tasks| && TaskOk(After(a, s), Actor(a, s))
  {
    hide Inv, TaskOk, After;
    match a
    case Kill(q) => KillKept(s, q);
    case Quit(q) => QuitKept(s, q);
    case _ => PausesKept(a, s);
  }

  lemma QuitKept(s: State, q: int)
    requires Inv(s) && Ready(Quit(q), s) && Shaped(After(Quit(q), s))
    ensures TaskOk(After(Quit(q), s), q)
  {
    hide Inv, Settled, SettledBut, NotParent, NoneSeen, NoZombie;
    OwnTask(s, q);
  }

  lemma KillKept(s: State, q: int)
    requires Inv(s) && Ready(Act.Kill(q), s) && Shaped(After(Act.Kill(q), s))
    ensures TaskOk(After(Act.Kill(q), s), q)
  {
    hide Inv, TaskOk;
    OwnTask(s, q);
    if s.m.phases[q].Asleep? {
      RousedKept(s, q);
    } else {
      SamePhases(s, After(Act.Kill(q), s), q);
    }
  }

  lemma RousedKept(s: State, q: int)
    requires Inv(s) && Ready(Act.Kill(q), s) && Shaped(After(Act.Kill(q), s)) && s.m.phases[q].Asleep?
    ensures TaskOk(After(Act.Kill(q), s), q)
  {
    hide Inv, Settled, SettledBut, NotParent, NoneSeen, NoZombie;
    OwnTask(s, q);
  }

  lemma PausesKept(a: Act, s: State)
    requires Inv(s) && Ready(a, s) && Shaped(After(a, s)) && (a.Begin? || a.LetGo? || a.Doze?)
    ensures 0 <= Actor(a, s) < |s.tasks| && TaskOk(After(a, s), Actor(a, s))
  {
    hide Inv, Settled, SettledBut, NotParent, NoneSeen, NoZombie;
    ActorIn(a, s);
    OwnTask(s, Actor(a, s));
  }

  /** The table after an action. */
  lemma TableAfter(a: Act, s: State)
    requires Inv(s) && Ready(a, s)
    ensures var t, t' := s.m.shared, After(a, s).m.shared;
            match a
            case Bear(q, i) => t' == WithChild(t, i, q)
            case Move(q) =>
              t' == t || (s.tasks[q].i < |t.procs| && t.procs[s.tasks[q].i].parent == q && t' == Moved(t, s.tasks[q].i))
            case Mark(q) => t' == Ended(t, q, s.tasks[q].status)
            case Reap(q) => t' == Freed(t, s.tasks[q].i)
            case _ => t' == t
  {
    hide WaitersOk, PidsOk, TraceOk, Sleepers, Family, Settled, Tasks;
  }

  lemma FamilyKept(a: Act, s: State)
    requires Inv(s) && Ready(a, s)
    ensures Family(After(a, s).m.shared)
  {
    hide WaitersOk, PidsOk, TraceOk, Sleepers, Settled, SettledBut, Tasks, After;
    TableAfter(a, s);
    var t, t' := s.m.shared, After(a, s).m.shared;
    if a.Bear? || a.Mark? || a.Move? || a.Reap? {
      OwnTask(s, a.q);
      assert FamilyOk(t, a.q);
    }
    forall i | 0 <= i < |t'.procs| ensures FamilyOk(t', i) {
      assert FamilyOk(t, i);
    }
  }

  /** Nobody but the parent itself takes a child away from it. */
  lemma ChildStays(a: Act, s: State, q: int)
    requires Inv(s) && Ready(a, s) && 0 <= q < |s.m.phases| && !NotParent(s.m.shared, q, |s.m.shared.procs|)
    requires a.Move? || a.Reap? ==> a.q != q
    ensures var t := After(a, s).m.shared; !NotParent(t, q, |t.procs|)
  {
    hide WaitersOk, PidsOk, TraceOk, Sleepers, Settled, SettledBut, Tasks, After, Of, Story;
    TableAfter(a, s);
    var t, t' := s.m.shared, After(a, s).m.shared;
    var k :| 0 <= k < |t.procs| && t.procs[k].parent == q;
    assert FamilyOk(t, k);
    assert t'.procs[k].parent == q;
  }

  /** A process begins to sleep only in kwait, resting. */
  lemma SleepsBefore(a: Act, s: State, q: int)
    requires Inv(s) && Ready(a, s) && 0 <= q < |s.m.phases|
    ensures var r := After(a, s);
            && |r.m.phases| == |s.m.phases|
            && (Sleeps(r.m.phases[q]) ==> (Sleeps(s.m.phases[q]) || a == Rest(q)) && !(a.Move? && a.q == q)
                                          && !(a.Reap? && a.q == q))
  {
    hide WaitersOk, PidsOk, TraceOk, Sleepers, Settled, SettledBut, Tasks, Family, Of, Story, NoneSeen, NotParent;
    FollowsRules(a, s);
  }

  lemma SleepersKept(a: Act, s: State)
    requires Inv(s) && Ready(a, s)
    ensures Sleepers(After(a, s).m)
  {
    hide WaitersOk, PidsOk, TraceOk, Settled, SettledBut, Family, After, Of, Story, NoneSeen, NotParent, Ready;
    var m := After(a, s).m;
    ShapeKept(a, s);
    SameCount(a, s);
    forall q | 0 <= q < |m.phases| && Sleeps(m.phases[q]) ensures !NotParent(m.shared, q, |m.shared.procs|) {
      SleepsBefore(a, s, q);
      if a == Rest(q) {
        RestsWithChild(a, s, q);
      }
      ChildStays(a, s, q);
    }
  }

  lemma RestsWithChild(a: Act, s: State, q: int)
    requires Inv(s) && Ready(a, s) && a == Rest(q)
    ensures !NotParent(s.m.shared, q, |s.m.shared.procs|)
  {
    OwnTask(s, q);
  }

  lemma PidsBear(t: Table, home: map<nat, int>, done: map<nat, int>, i: int, parent: int)
    requires PidsOk(t, home, done) && 0 <= i < |t.procs| && t.procs[i].life == Unused
    ensures PidsOk(WithChild(t, i, parent), home[t.nextPid := i], done)
  {
  }

  lemma PidsReap(t: Table, home: map<nat, int>, done: map<nat, int>, i: int)
    requires PidsOk(t, home, done) && 0 <= i < |t.procs| && t.procs[i].life != Unused
    ensures PidsOk(Freed(t, i), home - {t.procs[i].pid}, done[t.procs[i].pid := t.procs[i].xstate])
  {
  }

  lemma PidsSame(t: Table, t': Table, home: map<nat, int>, done: map<nat, int>)
    requires PidsOk(t, home, done) && |t'.procs| == |t.procs| && t'.nextPid == t.nextPid
    requires forall i :: 0 <= i < |t.procs| ==>
               t'.procs[i].pid == t.procs[i].pid && (t'.procs[i].life == Unused <==> t.procs[i].life == Unused)
    ensures PidsOk(t', home, done)
  {
  }

  lemma PidsKept(a: Act, s: State)
    requires Inv(s) && Ready(a, s)
    ensures var r := After(a, s); PidsOk(r.m.shared, r.home, r.done)
  {
    hide WaitersOk, TraceOk, Sleepers, Family, Settled, SettledBut, Tasks, Of, Story, SleepWakeup.After, PidsOk;
    TableAfter(a, s);
    var r := After(a, s);
    if a.Mark? {
      OwnTask(s, a.q);
    }
    match a
    case Bear(q, i) => PidsBear(s.m.shared, s.home, s.done, i, q);
    case Reap(q) => PidsReap(s.m.shared, s.home, s.done, s.tasks[q].i);
    case _ => PidsSame(s.m.shared, r.m.shared, s.home, s.done);
  }

  lemma OfMore(log: seq<Event>, e: Event, pid: nat)
    ensures Of(log + [e], pid) == Of(log, pid) + if e.pid == pid then [e.kind] else []
  {
    assert (log + [e])[..|log|] == log;
  }

  lemma StoryBear(t: Table, home: map<nat, int>, done: map<nat, int>, i: int, parent: int, pid: nat)
    requires PidsOk(t, home, done) && 0 <= i < |t.procs| && t.procs[i].life == Unused
    ensures Story(WithChild(t, i, parent), home[t.nextPid := i], done, pid)
            == Story(t, home, done, pid) + if pid == t.nextPid then [Born] else []
  {
  }

  lemma StoryMark(t: Table, home: map<nat, int>, done: map<nat, int>, q: int, status: int, pid: nat)
    requires PidsOk(t, home, done) && 0 <= q < |t.procs| && t.procs[q].life == Alive
    ensures Story(Ended(t, q, status), home, done, pid)
            == Story(t, home, done, pid) + if pid == t.procs[q].pid then [Exited(status)] else []
  {
  }

  lemma StoryReap(t: Table, home: map<nat, int>, done: map<nat, int>, i: int, pid: nat)
    requires PidsOk(t, home, done) && 0 <= i < |t.procs| && t.procs[i].life == Zombie
    ensures var c := t.procs[i];
            Story(Freed(t, i), home - {c.pid}, done[c.pid := c.xstate], pid)
            == Story(t, home, done, pid) + if pid == c.pid then [Collected(c.xstate)] else []
  {
  }

  lemma StoryMoved(t: Table, home: map<nat, int>, done: map<nat, int>, i: int, pid: nat)
    requires 0 <= i < |t.procs|
    ensures Story(Moved(t, i), home, done, pid) == Story(t, home, done, pid)
  {
  }

  lemma StoryAfter(a: Act, s: State, pid: nat)
    requires Inv(s) && Ready(a, s)
    ensures var r := After(a, s);
            Story(r.m.shared, r.home, r.done, pid) ==
            Story(s.m.shared, s.home, s.done, pid)
            + if |r.log| > |s.log| && r.log[|s.log|].pid == pid then [r.log[|s.log|].kind] else []
  {
    TableAfter(a, s);
    if a.Mark? {
      assert TaskOk(s, a.q);
    }
    hide Inv, WaitersOk, TraceOk, Sleepers, Family, Settled, SettledBut, Tasks, Story, PidsOk, SleepWakeup.After;
    var t := s.m.shared;
    match a
    case Bear(q, i) => StoryBear(t, s.home, s.done, i, q, pid);
    case Mark(q) => StoryMark(t, s.home, s.done, q, s.tasks[q].status, pid);
    case Reap(q) => StoryReap(t, s.home, s.done, s.tasks[q].i, pid);
    case Move(q) =>
      if s.tasks[q].i < |t.procs| {
        StoryMoved(t, s.home, s.done, s.tasks[q].i, pid);
      }
    case _ =>
  }

  lemma TraceKept(a: Act, s: State)
    requires Inv(s) && Ready(a, s)
    ensures TraceOk(After(a, s))
  {
    var r := After(a, s);
    hide WaitersOk, PidsOk, Family, Settled, SettledBut, Tasks, Story, Of;
    forall pid: nat ensures Of(r.log, pid) == Story(r.m.shared, r.home, r.done, pid) {
      StoryAfter(a, s, pid);
      assert Of(s.log, pid) == Story(s.m.shared, s.home, s.done, pid);
      if |r.log| > |s.log| {
        OfMore(s.log, r.log[|s.log|], pid);
        assert r.log == s.log + [r.log[|s.log|]];
      }
    }
  }

  lemma ShapeKept(a: Act, s: State)
    requires Inv(s) && Ready(a, s)
    ensures Shaped(After(a, s)) && SleepWakeup.Inv(After(a, s).m, Childish)
  {
    FollowsRules(a, s);
    TableAfter(a, s);
    var st := StepOf(a, s);
    hide WaitersOk, PidsOk, TraceOk, Sleepers, Family, Settled, SettledBut, Tasks;
    if st != [] {
      SleepWakeup.StepKeeps(st[0], s.m, Childish);
    }
  }

  lemma StepKeeps(a: Act, s: State)
    requires Inv(s) && Ready(a, s)
    ensures Inv(After(a, s))
  {
    ShapeKept(a, s);
    hide WaitersOk, PidsOk, TraceOk, Sleepers, Family, SleepWakeup.Inv, TaskOk, After;
    FamilyKept(a, s);
    SleepersKept(a, s);
    PidsKept(a, s);
    TraceKept(a, s);
    var r := After(a, s);
    SameCount(a, s);
    forall q | 0 <= q < |r.tasks| ensures TaskOk(r, q) {
      if q == Actor(a, s) {
        OwnKept(a, s);
      } else {
        OthersKept(a, s, q);
      }
    }
  }

  lemma SameCount(a: Act, s: State)
    requires Inv(s) && Ready(a, s)
    ensures |After(a, s).tasks| == |s.tasks|
  {
    hide WaitersOk, PidsOk, TraceOk, Sleepers, Family, Settled, SettledBut, Tasks;
  }

  // ---- Whole runs ----

  ghost predicate Runs(acts: seq<Act>, s: State)
    requires Inv(s)
    decreases |acts|
  {
    acts == [] || (Ready(acts[0], s) && (StepKeeps(acts[0], s); Runs(acts[1..], After(acts[0], s))))
  }

  ghost function RunTo(acts: seq<Act>, s: State): (t: State)
    requires Inv(s) && Runs(acts, s)
    ensures Inv(t)
    decreases |acts|
  {
    if acts == [] then s else
      StepKeeps(acts[0], s);
      RunTo(acts[1..], After(acts[0], s))
  }

  /** A process is born, exits and is reaped in this order, each at most once, and its parent gets the status it left.
      */
  ghost predicate Orderly(ks: seq<Kind>) {
    && |ks| <= 3 && (|ks| >= 1 ==> ks[0] == Born) && (|ks| >= 2 ==> ks[1].Exited?)
    && (|ks| == 3 ==> ks[2] == Collected(ks[1].status))
  }

  /** However fork, exit, wait and kill interleave: each process is reaped at most once, after it has exited, with its
      exit status; one that has exited and is not reaped is a zombie whose parent is alive. */
  lemma ReapedOnce(acts: seq<Act>, s: State, pid: nat)
    requires Inv(s) && Runs(acts, s)
    ensures var t := RunTo(acts, s);
            && Orderly(Of(t.log, pid))
            && (|Of(t.log, pid)| == 2 ==>
                  && pid in t.home && 0 <= t.home[pid] < |t.m.shared.procs|
                  && var z := t.m.shared.procs[t.home[pid]];
                     && z.life == Zombie && z.pid == pid
                     && 0 <= z.parent < |t.m.shared.procs| && t.m.shared.procs[z.parent].life == Alive)
  {
    var t := RunTo(acts, s);
    assert Of(t.log, pid) == Story(t.m.shared, t.home, t.done, pid);
    if |Of(t.log, pid)| == 2 {
      assert FamilyOk(t.m.shared, t.home[pid]);
    }
    hide WaitersOk, TraceOk, Sleepers, Tasks, Of;
  }

  /** A parent sleeps in kwait only while none of its children is a zombie, or while a process that has wait_lock has
      yet to wake it: although kexit calls wakeup before it sets ZOMBIE. */
  lemma ParentWoken(acts: seq<Act>, s: State, q: int)
    requires Inv(s) && Runs(acts, s)
    requires var t := RunTo(acts, s); 0 <= q < |t.m.phases| && t.m.phases[q].Asleep?
    ensures var t := RunTo(acts, s);
            && t.m.phases[q] == Asleep(q) && HasChild(t.m.shared, q)
            && (NoZombie(t.m.shared, q) || (t.m.owner >= 0 && t.m.owner != q && Upto(t.m, q) <= q))
  {
    var t := RunTo(acts, s);
    assert TaskOk(t, q) && Down(t.m.phases[q], q);
    hide PidsOk, TraceOk, Sleepers, Family, Tasks;
    if t.m.owner == -1 {
      assert Childish(t.m.shared, q);
    }
  }

  /** What the process that has wait_lock does next; or, if that waits for the lock of a process that is falling asleep,
      what that one does. */
  ghost function Next(s: State): (a: Act)
    requires Shaped(s) && 0 <= s.m.owner
  {
    var q, n, t := s.m.owner, |s.tasks|, s.m.shared;
    if s.m.phases[q].Falling? then Act.LetGo else
    match s.tasks[q]
    case WantFork => if NoSlot(t) then Quit(q) else var i :| 0 <= i < n && t.procs[i].life == Unused; Bear(q, i)
    case Moving(_, _) => Move(q)
    case Telling(_, _, j) => if j < n && s.m.phases[j].Fallen? then Act.Doze(j) else Tell(q)
    case Calling(_, j) =>
      if j >= n then Mark(q) else if s.m.phases[j].Fallen? then Act.Doze(j) else Call(q)
    case Scan(i, _) => if i >= n then Check(q) else if ZombieChild(t, i, q) then Reap(q) else Look(q)
    case Resting => Rest(q)
    case _ => Quit(q)
  }

  /** Whoever has wait_lock can go on. */
  lemma NotStuck(acts: seq<Act>, s: State)
    requires Inv(s) && Runs(acts, s) && RunTo(acts, s).m.owner >= 0
    ensures var t := RunTo(acts, s); Shaped(t) && Ready(Next(t), t)
  {
    hide Inv, Runs, RunTo, Settled, SettledBut, NoneSeen, NotParent;
    var t := RunTo(acts, s);
    HasOwner(t);
    OwnTask(t, t.m.owner);
  }

  lemma HasOwner(s: State)
    requires Inv(s) && s.m.owner >= 0
    ensures Shaped(s) && s.m.owner < |s.tasks| && (s.m.phases[s.m.owner] == In || s.m.phases[s.m.owner].Falling?)
  {
  }

  ghost predicate HasChild(t: Table, q: int) {
    exists k :: 0 <= k < |t.procs| && t.procs[k].parent == q
  }

  /** At the end of its scan kwait gives up exactly if the process has no child or has been killed; else it sleeps. */
  lemma KwaitDecides(acts: seq<Act>, s: State, q: int)
    requires Inv(s) && Runs(acts, s) && Ready(Check(q), RunTo(acts, s))
    ensures var t := RunTo(acts, s);
            var r := After(Check(q), t);
            && q < |r.tasks| && (r.tasks[q] == GivingUp || r.tasks[q] == Resting)
            && (r.tasks[q] == GivingUp <==> !HasChild(t.m.shared, q) || q in t.killed)
  {
    hide Inv, Runs, RunTo, Settled, SettledBut, NoneSeen, NoZombie;
    OwnTask(RunTo(acts, s), q);
  }

  /** kwait collects the first of the process's own zombie children, with its exit status, and frees its slot. */
  lemma KwaitCollects(acts: seq<Act>, s: State, q: int)
    requires Inv(s) && Runs(acts, s) && Ready(Reap(q), RunTo(acts, s))
    ensures var t := RunTo(acts, s);
            var r, i := After(Reap(q), t), t.tasks[q].i;
            && ZombieChild(t.m.shared, i, q) && (forall k :: 0 <= k < i ==> !ZombieChild(t.m.shared, k, q))
            && (exists pid, status :: r.log == t.log + [Event(Collected(status), pid)] && pid == t.m.shared.procs[i].pid
                                      && |Of(r.log, pid)| == 3 && Of(r.log, pid)[1] == Exited(status))
            && r.m.shared == Freed(t.m.shared, i)
  {
    hide Inv, Runs, RunTo, Settled, SettledBut, Story, Of;
    var t := RunTo(acts, s);
    OwnTask(t, q);
    TableAfter(Reap(q), t);
    var c := t.m.shared.procs[t.tasks[q].i];
    StepKeeps(Reap(q), t);
    Told(After(Reap(q), t), c.pid, c.xstate);
  }

  lemma Told(r: State, pid: nat, status: int)
    requires Inv(r) && pid !in r.home && pid in r.done && r.done[pid] == status
    ensures Of(r.log, pid) == [Born, Exited(status), Collected(status)]
  {
    hide Of, Tasks, WaitersOk, Family, Sleepers;
    assert Of(r.log, pid) == Story(r.m.shared, r.home, r.done, pid);
  }

  /** kwait returns only with a child collected; without children or killed; or with a zombie child whose status it
      could not copy out. */
  lemma KwaitEnds(acts: seq<Act>, s: State, q: int)
    requires Inv(s) && Runs(acts, s) && Ready(Quit(q), RunTo(acts, s))
    ensures var t := RunTo(acts, s);
            match t.tasks[q]
            case Reaped => true
            case GivingUp => !HasChild(t.m.shared, q) || q in t.killed
            case Spoiled => exists k :: ZombieChild(t.m.shared, k, q)
            case Forked => true
            case WantFork => true
            case Marked => true
            case _ => false
  {
    hide Inv, Runs, RunTo, Settled, SettledBut, NoneSeen;
    OwnTask(RunTo(acts, s), q);
  }

  function BootProc(i: int): Proc {
    if i == INIT then Proc(Alive, NONE, 1, 0) else Proc(Unused, NONE, 0, 0)
  }

  ghost predicate Boots(s: State, n: nat) {
    && |s.m.shared.procs| == |s.m.phases| == |s.tasks| == n && s.m.shared.nextPid == 2
    && (forall i :: 0 <= i < n ==> s.m.shared.procs[i] == BootProc(i) && s.m.phases[i] == Phase.Out
                                   && s.tasks[i] == if i == INIT then Idle else Dead)
    && s.m.owner == -1 && s.m.swept == map[] && s.home == map[1 := INIT] && s.done == map[] && s.log == [Event(Born, 1)]
  }

  /** At boot: init alone. */
  lemma BootInv(s: State, n: nat)
    requires Boots(s, n) && n > 0
    ensures Inv(s)
  {
    assert s.log[..0] == [];
    assert s.m.shared.procs[INIT] == BootProc(INIT);
    forall i | 0 <= i < n ensures FamilyOk(s.m.shared, i) && TaskOk(s, i) {
      assert s.m.shared.procs[i] == BootProc(i);
    }
    assert forall q, c :: 0 <= q < |s.m.phases| ==> !Down(s.m.phases[q], c);
    forall pid: nat ensures Of(s.log, pid) == Story(s.m.shared, s.home, s.done, pid) {
      assert Of([], pid) == [];
    }
  }
}
