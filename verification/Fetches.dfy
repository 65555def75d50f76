/** When a woken coroutine finds the value it was woken for: which steps keep that so, and which
    do not. */
module Fetches {
  import opened ParkedQueue
  import opened TimerQueue
  import opened Machine
  import opened Safety
  import opened Wakeups
  import opened Discipline
  import opened Streams

  /** An open channel has a value for every coroutine it has woken that has not resumed yet. */
  ghost predicate Provided(s: State, c: nat) {
    if c < |s.chans| then s.chans[c].closed || |Pending(s, c)| <= |s.chans[c].q| else Pending(s, c) == {}
  }

  ghost predicate AllProvided(s: State) { forall c: nat :: Provided(s, c) }

  /** The operation takes a value out of channel `c`. */
  ghost predicate Takes(s: State, op: Op, c: nat)
    requires WellFormed(s) && Enabled(s, op) && c < |s.chans|
  {
    s.chans[c].q != [] &&
    match op
    case Poll(d) => d == c
    case Receive(_, d) => d == c
    case Select(_, arms, _) => var i := FirstReady(s, arms); i < |arms| && arms[i] == ChanArm(c)
    case RunNext => s.tasks[s.ready[0]].Parked? && Wins(s, s.tasks[s.ready[0]].wait, c)
    case _ => false
  }

  /** The woken coroutines of `c` that the operation does not itself resume. */
  ghost function Others(s: State, op: Op, c: nat): set<nat>
    requires Enabled(s, op)
  {
    if op == RunNext then Pending(s, c) - {s.ready[0]} else Pending(s, c)
  }

  /** The operation takes a value from an open channel that has none to spare for the others. */
  ghost predicate Robs(s: State, op: Op, c: nat)
    requires WellFormed(s) && Enabled(s, op)
  {
    c < |s.chans| && !s.chans[c].closed && Takes(s, op, c) && |s.chans[c].q| <= |Others(s, op, c)|
  }

  // ------------------------------------------------- who wakes a waiter

  predicate CauseOf(op: Op, cause: Waker) {
    match op
    case Send(c, _) => cause == ByChan(c)
    case Close(c) => cause == ByChan(c)
    case Complete(h) => cause == ByFuture(h)
    case ServiceTimers => cause == ByTimer
    case _ => false
  }

  lemma WakerCauses(s: State, op: Op)
    requires Inv(s) && WellFormed(s) && Enabled(s, op) && (op.Send? || op.Close?)
    ensures var r := Step(s, op);
      && |r.waiters| == |s.waiters| && r.tasks == s.tasks
      && forall w: nat | w < |s.waiters| && r.waiters[w] != s.waiters[w] :: CauseOf(op, r.waiters[w].cause)
  {
    var c := op.c;
    var s0 := if op.Send? then Enqueue(s, c, op.v) else Shut(s, c);
    var rest, ws := WakeParts(s0, c, op.Close?);
    FireAllCauses(s0.(chans := s0.chans[c := s0.chans[c].(parked := rest)]), ws, ByChan(c));
  }

  lemma QuietCauses(s: State, op: Op)
    requires WellFormed(s) && Enabled(s, op) && (op.ServiceTimers? || op.Complete?)
    ensures var r := Step(s, op);
      && |r.waiters| == |s.waiters|
      && forall w: nat | w < |s.waiters| && r.waiters[w] != s.waiters[w] :: CauseOf(op, r.waiters[w].cause)
  {
    if op.ServiceTimers? { ServiceFires(s); }
  }

  lemma StepCauses(s: State, op: Op)
    requires Inv(s) && WellFormed(s) && Enabled(s, op) && !Suspends(s, op)
    ensures var r := Step(s, op);
      && |r.waiters| == |s.waiters|
      && forall w: nat | w < |s.waiters| && r.waiters[w] != s.waiters[w] :: CauseOf(op, r.waiters[w].cause)
  {
    match op {
      case Send(_, _) => WakerCauses(s, op);
      case Close(_) => WakerCauses(s, op);
      case ServiceTimers => QuietCauses(s, op);
      case Complete(_) => QuietCauses(s, op);
      case _ => QuietFires(s, op);
    }
  }

  /** Suspending changes no waiter that exists, and no channel wakes the new one at once. */
  lemma SuspendCauses(s: State, h: nat, wait: Wait, deadline: Maybe)
    requires Inv(s) && IsTask(s, h) && s.tasks[h] == Running && ArmsExist(s, wait.Arms())
    ensures var r := Suspend(s, h, wait, deadline);
      && |r.waiters| == |s.waiters| + 1
      && (forall w: nat | w < |s.waiters| :: r.waiters[w] == s.waiters[w])
      && !r.waiters[|s.waiters|].cause.ByChan?
      && forall k | 0 <= k < |r.tasks| && r.tasks[k].Parked? ::
           (k < |s.tasks| && r.tasks[k] == s.tasks[k]) || r.tasks[k] == Parked(|s.waiters|, wait)
  {
    ArmAllCauses(Park(s, h, wait), wait.Arms(), |s.waiters|);
  }

  // ------------------------------------------------------- one channel

  lemma PendingShrinks(s: State, r: State, c: nat)
    requires |s.waiters| <= |r.waiters|
    requires forall w: nat | w < |r.waiters| && r.waiters[w].cause == ByChan(c) ::
      w < |s.waiters| && r.waiters[w] == s.waiters[w]
    requires forall h | 0 <= h < |r.tasks| && r.tasks[h].Parked? ::
      (h < |s.tasks| && r.tasks[h] == s.tasks[h]) || r.tasks[h].w >= |s.waiters|
    ensures Pending(r, c) <= Pending(s, c)
  {
  }

  lemma KeepsProvided(s: State, r: State, c: nat)
    requires Provided(s, c) && Pending(r, c) <= Pending(s, c)
    requires c < |s.chans| ==> c < |r.chans| && r.chans[c].closed == s.chans[c].closed && |r.chans[c].q| >= |s.chans[c].q|
    ensures Provided(r, c)
  {
    SubsetSize(Pending(r, c), Pending(s, c));
  }

  lemma PendingGains(s: State, r: State, c: nat, x: nat)
    requires r.tasks == s.tasks && |r.waiters| == |s.waiters| && x < |s.waiters| && TaskOk(s)
    requires forall w: nat | w < |s.waiters| && w != x :: r.waiters[w] == s.waiters[w]
    ensures |Pending(r, c)| <= |Pending(s, c)| + 1
  {
    var more := {s.waiters[x].h};
    forall h | h in Pending(r, c) ensures h in Pending(s, c) + more {
      assert s.tasks[h].w == x ==> s.waiters[x].h == h;
    }
    SubsetSize(Pending(r, c), Pending(s, c) + more);
  }

  lemma SendWaiters(s: State, c: nat, v: Value) returns (ws: seq<nat>)
    requires Inv(s) && WellFormed(s) && c < |s.chans|
    ensures |ws| <= 1 && forall w | w in ws :: w < |s.waiters|
    ensures var r := Step(s, Send(c, v));
      && r.tasks == s.tasks && |r.waiters| == |s.waiters|
      && forall w: nat | w < |s.waiters| && w !in ws :: r.waiters[w] == s.waiters[w]
  {
    var s0 := Enqueue(s, c, v);
    var rest;
    rest, ws := WakeParts(s0, c, false);
    WakeOneEffect(s0.chans[c].parked, FiredSet(s0));
    FireAllCauses(s0.(chans := s0.chans[c := s0.chans[c].(parked := rest)]), ws, ByChan(c));
  }

  /** At most one coroutine more is woken. */
  lemma SendPending(s: State, c: nat, v: Value, r: State)
    requires Inv(s) && WellFormed(s) && c < |s.chans| && r == Step(s, Send(c, v))
    ensures |Pending(r, c)| <= |Pending(s, c)| + 1
  {
    var ws := SendWaiters(s, c, v);
    if ws == [] {
      SubsetSize(Pending(r, c), Pending(s, c));
    } else {
      assert ws == [ws[0]] && ws[0] in ws;
      PendingGains(s, r, c, ws[0]);
    }
  }

  /** A value more, and at most one woken coroutine more. */
  lemma SendProvides(s: State, c: nat, v: Value, d: nat)
    requires Inv(s) && WellFormed(s) && c < |s.chans| && Provided(s, d)
    ensures Provided(Step(s, Send(c, v)), d)
  {
    WakeFlow(Enqueue(s, c, v), c, false);
    if d != c {
      WakerCauses(s, Send(c, v));
      PendingShrinks(s, Step(s, Send(c, v)), d);
      KeepsProvided(s, Step(s, Send(c, v)), d);
    } else {
      SendPending(s, c, v, Step(s, Send(c, v)));
    }
  }

  lemma CloseProvides(s: State, c: nat, d: nat)
    requires Inv(s) && WellFormed(s) && c < |s.chans| && Provided(s, d)
    ensures Provided(Step(s, Close(c)), d)
  {
    var op, s0 := Close(c), Shut(s, c);
    WakerCauses(s, op);
    WakeFlow(s0, c, true);
    if d != c {
      PendingShrinks(s, Step(s, op), d);
      KeepsProvided(s, Step(s, op), d);
    }
  }

  lemma SuspendProvides(s: State, h: nat, wait: Wait, deadline: Maybe, c: nat)
    requires Inv(s) && IsTask(s, h) && s.tasks[h] == Running && ArmsExist(s, wait.Arms()) && Provided(s, c)
    ensures Provided(Suspend(s, h, wait, deadline), c)
  {
    SuspendCauses(s, h, wait, deadline);
    SuspendFlow(s, h, wait, deadline);
    PendingShrinks(s, Suspend(s, h, wait, deadline), c);
    KeepsProvided(s, Suspend(s, h, wait, deadline), c);
  }

  lemma TakeProvides(s: State, t: State, d: nat, c: nat)
    requires Provided(s, c) && d < |s.chans| && t == Take(s, d)
    ensures Provided(t, c) <==>
      !(c == d && !s.chans[c].closed && s.chans[c].q != [] && |s.chans[c].q| <= |Pending(s, c)|)
  {
    assert Pending(t, c) == Pending(s, c);
  }

  lemma ResumedPending(s: State, r: State, h: nat, c: nat)
    requires h < |s.tasks| && r.tasks == s.tasks[h := Running] && r.waiters == s.waiters
    ensures Pending(r, c) == Pending(s, c) - {h}
  {
  }

  lemma ParkedProvides(s: State, r: State, h: nat, c: nat)
    requires IsTask(s, h) && s.tasks[h].Parked? && ArmsExist(s, s.tasks[h].wait.Arms()) && Provided(s, c)
    requires c < |s.chans| && Resumed(s, r, h, c)
    ensures Provided(r, c) <==>
      !(!s.chans[c].closed && s.chans[c].q != [] && Wins(s, s.tasks[h].wait, c) && |s.chans[c].q| <= |Pending(s, c) - {h}|)
  {
    ResumedPending(s, r, h, c);
    SubsetSize(Pending(s, c) - {h}, Pending(s, c));
  }

  lemma QueuedProvides(s: State, c: nat)
    requires WellFormed(s) && s.ready != [] && !s.tasks[s.ready[0]].Parked? && Provided(s, c)
    ensures Provided(Resume(s), c)
  {
    assert Pending(Resume(s), c) == Pending(s, c);
  }

  lemma UnknownProvides(s: State, c: nat)
    requires WellFormed(s) && s.ready != [] && s.tasks[s.ready[0]].Parked? && Provided(s, c) && c >= |s.chans|
    ensures Provided(Resume(s), c)
  {
    RunsNext(s);
    ResumedPending(s, Resume(s), s.ready[0], c);
  }

  lemma RobsResuming(s: State, h: nat, c: nat)
    requires WellFormed(s) && s.ready != [] && h == s.ready[0] && c < |s.chans|
    ensures Robs(s, RunNext, c) <==>
      s.tasks[h].Parked? && !s.chans[c].closed && s.chans[c].q != [] && Wins(s, s.tasks[h].wait, c)
      && |s.chans[c].q| <= |Pending(s, c) - {h}|
  {
  }

  lemma ResumeProvides(s: State, c: nat)
    requires Inv(s) && WellFormed(s) && s.ready != [] && Provided(s, c)
    ensures Provided(Resume(s), c) <==> !Robs(s, RunNext, c)
  {
    var h := s.ready[0];
    if c < |s.chans| { RobsResuming(s, h, c); }
    if !s.tasks[h].Parked? {
      QueuedProvides(s, c);
    } else if c < |s.chans| {
      ResumeEffect(s, c);
      ParkedProvides(s, Resume(s), h, c);
    } else {
      UnknownProvides(s, c);
    }
  }

  lemma QuietProvides(s: State, op: Op, c: nat)
    requires Inv(s) && WellFormed(s) && Enabled(s, op) && Provided(s, c)
    requires op in {NewChan, NewTask, ServiceTimers}
             || op.MakeFuture? || op.EnsureScheduled? || op.Await? || op.Complete?
    ensures Provided(Step(s, op), c)
  {
    var r := Step(s, op);
    StepCauses(s, op);
    StepSettles(s, op);
    if op != NewChan { SameChans(s, op); }
    PendingShrinks(s, r, c);
    KeepsProvided(s, r, c);
  }

  /** In every reachable state in which every woken coroutine will find a value: a step keeps that
      so exactly when it does not rob them. */
  lemma StepProvidesIff(s: State, op: Op)
    requires Inv(s) && WellFormed(s) && AllProvided(s) && Enabled(s, op)
    ensures AllProvided(Step(s, op)) <==> forall c: nat :: !Robs(s, op, c)
  {
    forall c: nat ensures Provided(Step(s, op), c) <==> !Robs(s, op, c) {
      StepProvides(s, op, c);
    }
  }

  lemma StepProvides(s: State, op: Op, c: nat)
    requires Inv(s) && WellFormed(s) && Provided(s, c) && Enabled(s, op)
    ensures Provided(Step(s, op), c) <==> !Robs(s, op, c)
  {
    match op {
      case Send(d, v) => SendProvides(s, d, v, c);
      case Close(d) => CloseProvides(s, d, c);
      case Poll(d) => TakeProvides(s, Step(s, op), d, c);
      case Receive(h, d) =>
        if s.chans[d].Ready() {
          TakeProvides(s, Step(s, op), d, c);
        } else {
          SuspendProvides(s, h, Receiving(d), Absent, c);
        }
      case Select(h, arms, deadline) => SelectProvides(s, op, c);
      case RunNext => ResumeProvides(s, c);
      case _ => QuietProvides(s, op, c);
    }
  }

  lemma SelectProvides(s: State, op: Op, c: nat)
    requires op.Select? && Inv(s) && WellFormed(s) && Provided(s, c) && Enabled(s, op)
    ensures Provided(Step(s, op), c) <==> !Robs(s, op, c)
  {
    var i := FirstReady(s, op.arms);
    if i == |op.arms| {
      SuspendProvides(s, op.h, Selecting(op.arms, op.deadline.At?), op.deadline, c);
    } else if op.arms[i].ChanArm? {
      TakeProvides(s, Step(s, op), op.arms[i].c, c);
    }
  }

  // ------------------------------------------------------------ every run

  /** What fired the waiter of a suspending receive is its channel. */
  ghost predicate OwnWaker(s: State) {
    forall h: nat | IsTask(s, h) && s.tasks[h].Parked? && s.tasks[h].wait.Receiving? && Fired(s, s.tasks[h].w) ::
      s.waiters[s.tasks[h].w].cause == ByChan(s.tasks[h].wait.c)
  }

  lemma StepOwnWaker(s: State, op: Op)
    requires Inv(s) && WellFormed(s) && Enabled(s, op) && Reserved(map[], s) && OwnWaker(s)
    ensures OwnWaker(Step(s, op))
  {
    var r := Step(s, op);
    if Suspends(s, op) {
      match op {
        case Receive(h, c) => SuspendOwnWaker(s, h, Receiving(c), Absent);
        case Select(h, arms, deadline) => SuspendOwnWaker(s, h, Selecting(arms, deadline.At?), deadline);
      }
    } else {
      StepCauses(s, op);
      StepSettles(s, op);
      StepFires(s, op);
      forall h: nat | IsTask(r, h) && r.tasks[h].Parked? && r.tasks[h].wait.Receiving? && Fired(r, r.tasks[h].w)
        ensures r.waiters[r.tasks[h].w].cause == ByChan(r.tasks[h].wait.c)
      {
        var w := r.tasks[h].w;
        if r.waiters[w] != s.waiters[w] {
          assert MayFire(s, op, w);
          if op.Send? || op.Close? { assert ChanHolds(s, op.c, w); }
        }
      }
    }
  }

  lemma SuspendOwnWaker(s: State, h: nat, wait: Wait, deadline: Maybe)
    requires Inv(s) && IsTask(s, h) && s.tasks[h] == Running && ArmsExist(s, wait.Arms()) && OwnWaker(s)
    ensures OwnWaker(Suspend(s, h, wait, deadline))
  {
    SuspendCauses(s, h, wait, deadline);
    ArmAllCauses(Park(s, h, wait), wait.Arms(), |s.waiters|);
  }

  ghost predicate Spares(s: State, op: Op)
    requires WellFormed(s) && Enabled(s, op)
  {
    forall c: nat :: !Robs(s, op, c)
  }

  /** A run in which no operation robs. */
  ghost predicate Considerate(run: seq<Op>, s: State)
    decreases |run|
  {
    if run == [] then s == Init()
    else
      var op := run[|run| - 1];
      exists p :: (Considerate(run[..|run| - 1], p) && WellFormed(p) && Enabled(p, op) && Spares(p, op) && s == Step(p, op))
  }

  lemma {:induction false} ConsiderateReaches(run: seq<Op>, s: State)
    requires Considerate(run, s)
    ensures Reaches(run, s) && Inv(s) && Reserved(map[], s) && Prompt(map[], s) && OwnWaker(s) && AllProvided(s)
    decreases |run|
  {
    if run != [] {
      var op := run[|run| - 1];
      var p :| Considerate(run[..|run| - 1], p) && WellFormed(p) && Enabled(p, op) && Spares(p, op) && s == Step(p, op);
      ConsiderateReaches(run[..|run| - 1], p);
      StepKeeps(p, op);
      StepReserved(map[], p, op);
      StepOwnWaker(p, op);
      StepProvidesIff(p, op);
    } else {
      assert forall c: nat :: Pending(s, c) == {};
    }
  }

  /** Over every such run, whoever receives: a suspending receive returns nil exactly when its
      channel is closed and everything sent on it has been received. */
  lemma NilMeansEnd(run: seq<Op>, s: State, op: Op, c: nat)
    requires Considerate(run, s) && WellFormed(s) && Enabled(s, op) && c < |s.chans| && ReceiveReturns(s, op, c)
    ensures s.chans[c].q == [] <==> s.chans[c].closed && s.chans[c].received == s.chans[c].sent
  {
    ConsiderateReaches(run, s);
    Conservation(run, s);
    if op == RunNext {
      var h := s.ready[0];
      assert Resumable(s, h) by { assert h in s.ready; }
      assert Provided(s, c);
      assert h in Pending(s, c);
      SubsetSize({h}, Pending(s, c));
    }
  }
}
