/** sleep and wakeup of kernel/proc.c around one spin lock.  Some shared state is changed only by the lock's owner, and
    processes sleep on a channel while a condition on that state holds.  A step is what happens under one lock:
    wakeup takes and gives back the lock of one process after the other, while others run in between. */
module SleepWakeup {

  /** Where a process is.  In: it has the lock.  Falling: it is in sleep(), with the lock and with its own process lock.
      Fallen: it has released the lock.  Asleep: it has released its process lock too, being SLEEPING.
      Roused: it is RUNNABLE again, and has yet to get the lock back. */
  datatype Phase = Out | In | Falling(c: int) | Fallen(c: int) | Asleep(c: int) | Roused

  /** The owner of the lock or -1; the shared state, now and when the owner got the lock; and for each channel up to
      which process the owner's wakeup has got. */
  datatype Monitor<S> = Monitor(owner: int, phases: seq<Phase>, shared: S, entry: S, swept: map<int, nat>)

  /** While this holds, processes wait on the channel. */
  type Wait<!S> = (S, int) -> bool

  ghost function Upto<S>(m: Monitor<S>, c: int): nat {
    if c in m.swept then m.swept[c] else 0
  }

  /** The process waits, or is about to, on channel `c`. */
  ghost predicate Down(p: Phase, c: int) {
    p == Fallen(c) || p == Asleep(c)
  }

  ghost predicate OwnerOk<S>(m: Monitor<S>) {
    && -1 <= m.owner < |m.phases|
    && forall q :: 0 <= q < |m.phases| ==> (q == m.owner <==> m.phases[q] == In || m.phases[q].Falling?)
  }

  /** Without an owner: whoever waits has reason to.  With one: whoever waits had reason to when the owner came, and
      the owner's wakeup has not got to it yet. */
  ghost predicate WaitersOk<S>(m: Monitor<S>, w: Wait<S>) {
    forall q, c :: 0 <= q < |m.phases| && Down(m.phases[q], c) ==>
      if m.owner == -1 then w(m.shared, c) else w(m.entry, c) && Upto(m, c) <= q
  }

  ghost predicate Inv<S>(m: Monitor<S>, w: Wait<S>) {
    && OwnerOk(m) && WaitersOk(m, w) && (forall c :: c in m.swept ==> m.swept[c] <= |m.phases|)
    && (m.owner >= 0 && m.phases[m.owner].Falling? ==> w(m.shared, m.phases[m.owner].c))
  }

  /** The owner has woken everybody on each channel whose condition it has ended. */
  ghost predicate Settled<S>(m: Monitor<S>, w: Wait<S>) {
    forall c :: w(m.entry, c) && !w(m.shared, c) ==> Upto(m, c) == |m.phases|
  }

  datatype Step<S> = Enter(q: int) | Update(s: S) | Fall(c: int) | LetGo | Doze(q: int) | Sweep(c: int, i: int)
    | Kill(q: int) | Leave

  /** The lock's rules: who holds it, and who holds which process lock.  sleep is called only while the condition holds,
      and the lock is given back only when settled. */
  ghost predicate Ready<S>(a: Step<S>, m: Monitor<S>, w: Wait<S>)
    requires OwnerOk(m)
  {
    match a
    case Enter(q) => 0 <= q < |m.phases| && m.owner == -1 && m.phases[q] in {Out, Roused}
    case Update(_) => m.owner >= 0 && m.phases[m.owner] == In
    case Fall(c) => m.owner >= 0 && m.phases[m.owner] == In && w(m.shared, c)
    case LetGo => m.owner >= 0 && m.phases[m.owner].Falling? && Settled(m, w)
    case Doze(q) => 0 <= q < |m.phases| && m.phases[q].Fallen?
    case Sweep(c, i) => m.owner >= 0 && m.phases[m.owner] == In && 0 <= i < |m.phases| && !m.phases[i].Fallen?
    case Kill(q) => 0 <= q < |m.phases| && m.phases[q].Asleep?
    case Leave => m.owner >= 0 && m.phases[m.owner] == In && Settled(m, w)
  }

  ghost function After<S>(a: Step<S>, m: Monitor<S>, w: Wait<S>): (r: Monitor<S>)
    requires OwnerOk(m) && Ready(a, m, w)
  {
    match a
    case Enter(q) => m.(owner := q, phases := m.phases[q := In], entry := m.shared, swept := map[])
    case Update(s) => m.(shared := s)
    case Fall(c) => m.(phases := m.phases[m.owner := Falling(c)])
    case LetGo => m.(owner := -1, phases := m.phases[m.owner := Fallen(m.phases[m.owner].c)])
    case Doze(q) => m.(phases := m.phases[q := Asleep(m.phases[q].c)])
    case Sweep(c, i) =>
      m.(phases := if m.phases[i] == Asleep(c) then m.phases[i := Roused] else m.phases,
         swept := if i == Upto(m, c) then m.swept[c := i + 1] else m.swept)
    case Kill(q) => m.(phases := m.phases[q := Roused])
    case Leave => m.(owner := -1, phases := m.phases[m.owner := Out])
  }

  lemma SweepKeeps<S>(m: Monitor<S>, w: Wait<S>, c: int, i: int)
    requires Inv(m, w) && Ready(Sweep(c, i), m, w)
    ensures Inv(After(Sweep(c, i), m, w), w)
  {
    var r := After(Sweep(c, i), m, w);
    forall q, d | 0 <= q < |r.phases| && Down(r.phases[q], d) ensures w(r.entry, d) && Upto(r, d) <= q {
      assert Down(m.phases[q], d);
    }
  }

  /** Giving the lock back, everybody who waits still has reason to. */
  lemma StillWaiting<S>(m: Monitor<S>, w: Wait<S>, q: int, c: int)
    requires Inv(m, w) && m.owner >= 0 && Settled(m, w) && 0 <= q < |m.phases| && Down(m.phases[q], c)
    ensures w(m.shared, c)
  {
  }

  lemma StepKeeps<S>(a: Step<S>, m: Monitor<S>, w: Wait<S>)
    requires Inv(m, w) && Ready(a, m, w)
    ensures Inv(After(a, m, w), w)
  {
    var r := After(a, m, w);
    match a
    case Sweep(c, i) => SweepKeeps(m, w, c, i);
    case LetGo =>
      forall q, c | 0 <= q < |r.phases| && Down(r.phases[q], c) ensures w(r.shared, c) {
        if q != m.owner {
          StillWaiting(m, w, q, c);
        }
      }
    case Leave =>
      forall q, c | 0 <= q < |r.phases| && Down(r.phases[q], c) ensures w(r.shared, c) {
        StillWaiting(m, w, q, c);
      }
    case _ => OthersWait(a, m, w);
  }

  /** The other steps make nobody wait who did not before. */
  lemma OthersWait<S>(a: Step<S>, m: Monitor<S>, w: Wait<S>)
    requires Inv(m, w) && Ready(a, m, w) && (a.Enter? || a.Update? || a.Fall? || a.Doze? || a.Kill?)
    ensures Inv(After(a, m, w), w)
  {
    var r := After(a, m, w);
    forall q, c | 0 <= q < |r.phases| && Down(r.phases[q], c)
      ensures if r.owner == -1 then w(r.shared, c) else w(r.entry, c) && Upto(r, c) <= q
    {
      assert Down(m.phases[q], c);
    }
  }

  ghost predicate Runs<S>(steps: seq<Step<S>>, m: Monitor<S>, w: Wait<S>)
    decreases |steps|
  {
    steps == [] || (OwnerOk(m) && Ready(steps[0], m, w) && Runs(steps[1..], After(steps[0], m, w), w))
  }

  ghost function RunTo<S>(steps: seq<Step<S>>, m: Monitor<S>, w: Wait<S>): (r: Monitor<S>)
    requires Runs(steps, m, w)
    decreases |steps|
  {
    if steps == [] then m else RunTo(steps[1..], After(steps[0], m, w), w)
  }

  lemma {:induction false} RunKeeps<S>(steps: seq<Step<S>>, m: Monitor<S>, w: Wait<S>)
    requires Inv(m, w) && Runs(steps, m, w)
    ensures Inv(RunTo(steps, m, w), w)
    decreases |steps|
  {
    if steps != [] {
      StepKeeps(steps[0], m, w);
      RunKeeps(steps[1..], After(steps[0], m, w), w);
    }
  }

  /** No wakeup is lost: in every interleaving a process waits on a channel only while the condition holds, or while a
      process that has the lock has yet to get to it in its wakeup. */
  lemma NoLostWakeup<S>(steps: seq<Step<S>>, m: Monitor<S>, w: Wait<S>, q: int, c: int)
    requires Inv(m, w) && Runs(steps, m, w)
    requires var r := RunTo(steps, m, w); 0 <= q < |r.phases| && Down(r.phases[q], c)
    ensures var r := RunTo(steps, m, w);
            w(r.shared, c) || (r.owner >= 0 && r.owner != q && w(r.entry, c) && Upto(r, c) <= q)
  {
    RunKeeps(steps, m, w);
    var r := RunTo(steps, m, w);
    assert Down(r.phases[q], c);
  }
}
