/** A discipline on who may wait on which channel, under which no run loses a wakeup. */
module Discipline {
  import opened ParkedQueue
  import opened TimerQueue
  import opened Machine
  import opened Safety
  import opened Wakeups

  /** `owner[c]` is the sole consumer of channel `c`, which may select on it; a channel without
      an owner is only waited on by plain receives. */
  type Owners = map<nat, nat>

  predicate MayWait(owner: Owners, h: nat, wait: Wait, c: nat) {
    if c in owner then h == owner[c] else wait == Receiving(c)
  }

  /** A condition on the operation alone: its caller and the channels it names. */
  ghost predicate Disciplined(owner: Owners, op: Op) {
    match op
    case Receive(h, c) => MayWait(owner, h, Receiving(c), c)
    case Select(h, arms, d) => forall c: nat | ChanArm(c) in arms :: MayWait(owner, h, Selecting(arms, d.At?), c)
    case _ => true
  }

  /** Parked coroutines respect the discipline, and a channel only wakes who waited on it. */
  ghost predicate Orderly(owner: Owners, s: State) {
    && (forall h: nat, c: nat | IsTask(s, h) && s.tasks[h].Parked? && ChanArm(c) in s.tasks[h].wait.Arms() ::
          MayWait(owner, h, s.tasks[h].wait, c))
    && (forall w: nat, c: nat | w < |s.waiters| && s.waiters[w].cause == ByChan(c) :: WokenBy(s, w, c))
  }

  predicate WokenBy(s: State, w: nat, c: nat)
    requires w < |s.waiters|
  {
    var h := s.waiters[w].h;
    IsTask(s, h) && s.tasks[h].Parked? && s.tasks[h].w == w ==> ChanArm(c) in s.tasks[h].wait.Arms()
  }

  /** From `s` to `r` no coroutine parks, and a channel wakes only waiters it holds. */
  ghost predicate Settles(s: State, r: State) {
    && |s.waiters| <= |r.waiters|
    && (forall h | 0 <= h < |r.tasks| && r.tasks[h].Parked? :: h < |s.tasks| && r.tasks[h] == s.tasks[h])
    && (forall w: nat | w < |s.waiters| :: r.waiters[w].h == s.waiters[w].h)
    && (forall w: nat, c: nat | w < |r.waiters| && r.waiters[w].cause == ByChan(c) ::
          w < |s.waiters| && (r.waiters[w] == s.waiters[w] || (c < |s.chans| && w in s.chans[c].parked)))
  }

  lemma SettlesKeeps(owner: Owners, s: State, r: State)
    requires Inv(s) && Orderly(owner, s) && Settles(s, r)
    ensures Orderly(owner, r)
  {
    forall w: nat, c: nat | w < |r.waiters| && r.waiters[w].cause == ByChan(c) ensures WokenBy(r, w, c) {
      if r.waiters[w] == s.waiters[w] {
        assert WokenBy(s, w, c);
      } else {
        assert ChanHolds(s, c, w);
      }
    }
  }

  lemma {:induction false} FireAllCauses(s: State, ws: seq<nat>, cause: Waker)
    requires forall i | 0 <= i < |ws| :: ws[i] < |s.waiters|
    ensures var r := FireAll(s, ws, cause);
      && |r.waiters| == |s.waiters| && r.tasks == s.tasks
      && forall w: nat | w < |s.waiters| ::
           && r.waiters[w].h == s.waiters[w].h
           && (r.waiters[w] == s.waiters[w] || (w in ws && r.waiters[w].cause == cause))
    decreases ws
  {
    if ws != [] {
      FireAllCauses(Fire(s, ws[0], cause), ws[1..], cause);
    }
  }

  lemma WakeSettles(s: State, c: nat, ch: Chan, all: bool)
    requires Inv(s) && c < |s.chans| && ch.parked == s.chans[c].parked
    requires WellFormed(s.(chans := s.chans[c := ch]))
    requires forall w: nat, d: nat | w < |s.waiters| && s.waiters[w].cause == ByChan(d) :: s.waiters[w].fired
    ensures Settles(s, WakeChan(s.(chans := s.chans[c := ch]), c, all))
  {
    var s0 := s.(chans := s.chans[c := ch]);
    var rest, ws := WakeParts(s0, c, all);
    FireAllCauses(s0.(chans := s0.chans[c := ch.(parked := rest)]), ws, ByChan(c));
  }

  lemma {:induction false} ArmAllCauses(s: State, arms: seq<Arm>, w: nat)
    requires ArmsExist(s, arms) && w < |s.waiters|
    ensures var r := ArmAll(s, arms, w);
      && |r.waiters| == |s.waiters| && |r.tasks| == |s.tasks|
      && (forall h | 0 <= h < |r.tasks| && r.tasks[h].Parked? :: r.tasks[h] == s.tasks[h])
      && (forall x: nat | x < |s.waiters| ::
            && r.waiters[x].h == s.waiters[x].h
            && (x != w ==> r.waiters[x] == s.waiters[x])
            && (r.waiters[x] == s.waiters[x] || (r.waiters[x].cause.ByFuture? && exists t :: FutureArm(t) in arms)))
    decreases arms
  {
    if arms != [] {
      ArmAllCauses(ArmOne(s, arms[0], w), arms[1..], w);
    }
  }

  lemma SuspendOrderly(owner: Owners, s: State, h: nat, wait: Wait, deadline: Maybe)
    requires Inv(s) && Orderly(owner, s) && IsTask(s, h) && s.tasks[h] == Running
    requires ArmsExist(s, wait.Arms())
    requires forall c: nat | ChanArm(c) in wait.Arms() :: MayWait(owner, h, wait, c)
    ensures Orderly(owner, Suspend(s, h, wait, deadline))
  {
    var s1, r := Park(s, h, wait), Suspend(s, h, wait, deadline);
    ArmAllCauses(s1, wait.Arms(), |s.waiters|);
    forall w: nat, c: nat | w < |r.waiters| && r.waiters[w].cause == ByChan(c) ensures WokenBy(r, w, c) {
      assert r.waiters[w] == s1.waiters[w] == s.waiters[w];
      assert WokenBy(s, w, c);
    }
  }

  lemma ResumeSettles(s: State)
    requires WellFormed(s) && s.ready != []
    ensures Settles(s, Resume(s))
  {
  }

  lemma FinishSettles(s: State, h: nat)
    requires Inv(s) && WellFormed(s) && IsTask(s, h) && s.tasks[h] == Running
    ensures Settles(s, Finish(s, h))
  {
  }

  lemma ServiceSettles(s: State)
    requires WellFormed(s)
    ensures Settles(s, Service(s))
  {
  }

  lemma PlainSettles(s: State, op: Op)
    requires Inv(s) && WellFormed(s) && Enabled(s, op)
    requires !op.RunNext? && !op.Complete? && !op.ServiceTimers? && !op.Send? && !op.Close?
    requires op.Receive? ==> s.chans[op.c].Ready()
    requires op.Select? ==> FirstReady(s, op.arms) < |op.arms|
    ensures Settles(s, Step(s, op))
  {
  }

  /** The two operations that park their caller. */
  predicate Suspends(s: State, op: Op)
    requires Enabled(s, op)
  {
    match op
    case Receive(_, c) => !s.chans[c].Ready()
    case Select(_, arms, _) => FirstReady(s, arms) == |arms|
    case _ => false
  }

  lemma WakerSettles(s: State, op: Op)
    requires Inv(s) && WellFormed(s) && Enabled(s, op) && (op.Send? || op.Close?)
    ensures Settles(s, Step(s, op))
  {
    if op.Send? {
      WakeSettles(s, op.c, Enqueue(s, op.c, op.v).chans[op.c], false);
    } else {
      WakeSettles(s, op.c, Shut(s, op.c).chans[op.c], true);
    }
  }

  lemma StepSettles(s: State, op: Op)
    requires Inv(s) && WellFormed(s) && Enabled(s, op) && !Suspends(s, op)
    ensures Settles(s, Step(s, op))
  {
    match op {
      case Send(_, _) => WakerSettles(s, op);
      case Close(_) => WakerSettles(s, op);
      case RunNext => ResumeSettles(s);
      case Complete(h) => FinishSettles(s, h);
      case ServiceTimers => ServiceSettles(s);
      case _ => PlainSettles(s, op);
    }
  }

  lemma SuspendsOrderly(owner: Owners, s: State, op: Op)
    requires Inv(s) && WellFormed(s) && Orderly(owner, s) && Enabled(s, op) && Disciplined(owner, op)
    requires Suspends(s, op)
    ensures Orderly(owner, Step(s, op))
  {
    match op {
      case Receive(h, c) => SuspendOrderly(owner, s, h, Receiving(c), Absent);
      case Select(h, arms, deadline) => SuspendOrderly(owner, s, h, Selecting(arms, deadline.At?), deadline);
    }
  }

  lemma StepOrderly(owner: Owners, s: State, op: Op)
    requires Inv(s) && WellFormed(s) && Orderly(owner, s) && Enabled(s, op) && Disciplined(owner, op)
    ensures Orderly(owner, Step(s, op))
  {
    if Suspends(s, op) {
      SuspendsOrderly(owner, s, op);
    } else {
      StepSettles(s, op);
      SettlesKeeps(owner, s, Step(s, op));
    }
  }

  /** An orderly state is never one step away from losing a wakeup. */
  lemma OrderlyNeverLoses(owner: Owners, s: State, op: Op, c: nat)
    requires Inv(s) && WellFormed(s) && Orderly(owner, s) && Enabled(s, op)
    ensures !Loses(s, op, c)
  {
    if op == RunNext && s.tasks[s.ready[0]].Parked? && s.waiters[s.tasks[s.ready[0]].w].cause == ByChan(c)
       && c < |s.chans| {
      var h := s.ready[0];
      var w, wait := s.tasks[h].w, s.tasks[h].wait;
      assert WokenBy(s, w, c);
      assert MayWait(owner, h, wait, c);
      if c in owner {
        forall x | x in s.chans[c].parked ensures Fired(s, x) {
          assert ChanHolds(s, c, x);
          assert MayWait(owner, s.waiters[x].h, s.tasks[s.waiters[x].h].wait, c);
        }
      } else {
        assert wait.Arms()[0] == ChanArm(c);
      }
    }
  }

  // ---------------------------------------------------------- whole runs

  ghost predicate DisciplinedRun(owner: Owners, run: seq<Op>) {
    forall i | 0 <= i < |run| :: Disciplined(owner, run[i])
  }

  lemma {:induction false} DisciplinedReaches(owner: Owners, run: seq<Op>, s: State)
    requires Reaches(run, s) && DisciplinedRun(owner, run)
    ensures Inv(s) && Orderly(owner, s) && AllServed(s)
    decreases run
  {
    if run != [] {
      var op := run[|run|-1];
      var p :| Reaches(run[..|run|-1], p) && WellFormed(p) && Enabled(p, op) && s == Step(p, op);
      DisciplinedReaches(owner, run[..|run|-1], p);
      StepKeeps(p, op);
      StepOrderly(owner, p, op);
      StepServesIff(p, op);
      forall c: nat ensures !Loses(p, op, c) {
        OrderlyNeverLoses(owner, p, op, c);
      }
    }
  }

  /** No lost wakeup: in every state a disciplined run reaches, a channel on which a coroutine
      still sleeps is open and has no more values than coroutines it has woken; so when the
      ready queue is empty, no coroutine sleeps on a channel that holds a value or is closed. */
  lemma NoLostWakeup(owner: Owners, run: seq<Op>, s: State)
    requires Reaches(run, s) && DisciplinedRun(owner, run)
    ensures forall c: nat | c < |s.chans| :: Served(s, c)
    ensures s.ready == [] ==>
      forall c: nat, w: nat | c < |s.chans| && w in s.chans[c].parked :: !s.chans[c].Ready()
  {
    DisciplinedReaches(owner, run, s);
    if s.ready == [] {
      forall c: nat, w: nat | c < |s.chans| && w in s.chans[c].parked ensures !s.chans[c].Ready() {
        assert Served(s, c) && ChanHolds(s, c, w);
        forall h ensures h !in Pending(s, c) {
          assert h !in s.ready;
        }
        assert Pending(s, c) == {};
        assert !Resumable(s, s.waiters[w].h);
      }
    }
  }
}
