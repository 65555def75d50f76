/** No lost wakeup: which steps keep every parked coroutine provided for, and which do not. */
module Wakeups {
  import opened ParkedQueue
  import opened TimerQueue
  import opened Machine
  import opened Safety

  /** Coroutines that channel `c` woke and that have not resumed yet. */
  ghost function Pending(s: State, c: nat): set<nat> {
    set h | 0 <= h < |s.tasks| && s.tasks[h].Parked? && Fired(s, s.tasks[h].w)
            && s.waiters[s.tasks[h].w].cause == ByChan(c)
  }

  /** If a waiter still sleeps on the channel, the channel is open and every queued value has a
      woken coroutine on its way to fetch it. */
  ghost predicate Served(s: State, c: nat) {
    && c < |s.chans|
    && forall w | w in s.chans[c].parked && !Fired(s, w) ::
         !s.chans[c].closed && |s.chans[c].q| <= |Pending(s, c)|
  }

  ghost predicate AllServed(s: State) { forall c: nat | c < |s.chans| :: Served(s, c) }

  lemma SubsetSize<T>(a: set<T>, b: set<T>)
    requires a <= b
    ensures |a| <= |b|
  {
    assert b == a + (b - a);
  }

  /** Going from `s` to `r` channel `c` gains no value and no sleeper, and no woken coroutine
      is lost. */
  ghost predicate Milder(s: State, r: State, c: nat) {
    && c < |s.chans| && c < |r.chans|
    && r.chans[c].closed == s.chans[c].closed && |r.chans[c].q| <= |s.chans[c].q|
    && (forall w | w in r.chans[c].parked :: w in s.chans[c].parked && (Fired(s, w) ==> Fired(r, w)))
    && Pending(s, c) <= Pending(r, c)
  }

  lemma MilderServes(s: State, r: State, c: nat)
    requires Served(s, c) && Milder(s, r, c)
    ensures Served(r, c)
  {
    SubsetSize(Pending(s, c), Pending(r, c));
  }

  /** Waiters keep their flags and wakers, and parked coroutines stay parked. */
  ghost predicate Grows(s: State, r: State) {
    && |s.waiters| <= |r.waiters| && |s.tasks| <= |r.tasks|
    && (forall w | 0 <= w < |s.waiters| && s.waiters[w].fired :: r.waiters[w] == s.waiters[w])
    && (forall h | 0 <= h < |s.tasks| && s.tasks[h].Parked? :: r.tasks[h] == s.tasks[h])
  }

  lemma GrowsMilder(s: State, r: State, c: nat)
    requires Grows(s, r) && c < |s.chans| && c < |r.chans|
    requires r.chans[c].closed == s.chans[c].closed && |r.chans[c].q| <= |s.chans[c].q|
    requires forall w | w in r.chans[c].parked :: w in s.chans[c].parked
    ensures Milder(s, r, c)
  {
  }

  lemma {:induction false} FireAllGrows(s: State, ws: seq<nat>, cause: Waker)
    requires forall i | 0 <= i < |ws| :: ws[i] < |s.waiters|
    ensures var r := FireAll(s, ws, cause);
      Grows(s, r) && r.chans == s.chans && r.tasks == s.tasks
    decreases ws
  {
    if ws != [] {
      FireAllGrows(Fire(s, ws[0], cause), ws[1..], cause);
    }
  }

  // ---------------------------------------------------------- one channel

  /** One more value is matched by one more woken coroutine. */
  lemma WokenServes(s: State, r: State, c: nat, w: nat)
    requires Served(s, c) && Grows(s, r) && c < |r.chans|
    requires r.chans[c].closed == s.chans[c].closed && |r.chans[c].q| == |s.chans[c].q| + 1
    requires forall x | x in r.chans[c].parked :: x in s.chans[c].parked
    requires w in s.chans[c].parked && ParkedOn(s, w, ChanArm(c)) && !Fired(s, w)
    requires Fired(r, w) && r.waiters[w].cause == ByChan(c)
    ensures Served(r, c)
  {
    SubsetSize(Pending(s, c) + {s.waiters[w].h}, Pending(r, c));
  }

  /** A sent value is matched by a woken coroutine, or nobody sleeps on the channel. */
  lemma SendServes(s: State, c: nat, v: Value)
    requires Inv(s) && WellFormed(s) && AllServed(s) && c < |s.chans|
    ensures AllServed(WakeChan(Enqueue(s, c, v), c, false))
  {
    var s0 := Enqueue(s, c, v);
    var ch := s0.chans[c];
    var rest, ws := WakeParts(s0, c, false);
    var r := WakeChan(s0, c, false);
    assert FiredSet(s0) == FiredSet(s);
    WakeOneEffect(s.chans[c].parked, FiredSet(s));
    FireAllGrows(s0.(chans := s0.chans[c := ch.(parked := rest)]), ws, ByChan(c));
    forall d: nat | d < |r.chans| ensures Served(r, d) {
      if d != c {
        GrowsMilder(s, r, d);
        MilderServes(s, r, d);
      } else if ws != [] {
        assert ChanHolds(s, c, ws[0]);
        assert Fired(r, ws[0]) && r.waiters[ws[0]].cause == ByChan(c);
        WokenServes(s, r, c, ws[0]);
      }
    }
  }

  lemma CloseServes(s: State, c: nat)
    requires Inv(s) && WellFormed(s) && AllServed(s) && c < |s.chans|
    ensures AllServed(WakeChan(Shut(s, c), c, true))
  {
    var s0 := Shut(s, c);
    var rest, ws := WakeParts(s0, c, true);
    var r := WakeChan(s0, c, true);
    FireAllGrows(s0.(chans := s0.chans[c := s0.chans[c].(parked := rest)]), ws, ByChan(c));
    forall d: nat | d < |r.chans| ensures Served(r, d) {
      if d != c {
        GrowsMilder(s, r, d);
        MilderServes(s, r, d);
      }
    }
  }

  lemma TakeServes(s: State, c: nat)
    requires AllServed(s) && c < |s.chans|
    ensures AllServed(Take(s, c))
  {
    var r := Take(s, c);
    forall d: nat | d < |r.chans| ensures Served(r, d) {
      GrowsMilder(s, r, d);
      MilderServes(s, r, d);
    }
  }

  // ------------------------------------------------------------ suspending

  /** Arming changes who is parked on the armed channels, and nothing else about channels. */
  ghost predicate Arms(s: State, r: State, arms: seq<Arm>) {
    && Grows(s, r) && FutureOk(r) && |r.chans| == |s.chans| && |r.waiters| == |s.waiters|
    && forall c: nat | c < |s.chans| ::
         && r.chans[c] == s.chans[c].(parked := r.chans[c].parked)
         && (ChanArm(c) !in arms ==> r.chans[c] == s.chans[c])
  }

  lemma ArmOneGrows(s: State, a: Arm, w: nat)
    requires FutureOk(s) && ArmExists(s, a) && w < |s.waiters|
    ensures Arms(s, ArmOne(s, a, w), [a])
  {
  }

  lemma ArmsThen(s: State, r: State, t: State, arms: seq<Arm>)
    requires arms != [] && Arms(s, r, [arms[0]]) && Arms(r, t, arms[1..])
    ensures Arms(s, t, arms)
  {
  }

  lemma {:induction false} ArmAllGrows(s: State, arms: seq<Arm>, w: nat)
    requires FutureOk(s) && ArmsExist(s, arms) && w < |s.waiters|
    ensures Arms(s, ArmAll(s, arms, w), arms)
    decreases arms
  {
    if arms != [] {
      var r := ArmOne(s, arms[0], w);
      ArmOneGrows(s, arms[0], w);
      ArmAllGrows(r, arms[1..], w);
      ArmsThen(s, r, ArmAll(r, arms[1..], w), arms);
    }
  }

  lemma {:induction false} NoneReady(s: State, arms: seq<Arm>)
    requires ArmsExist(s, arms) && FirstReady(s, arms) == |arms|
    ensures forall a | a in arms :: ArmExists(s, a) && !ArmReady(s, a)
  {
    if arms != [] {
      NoneReady(s, arms[1..]);
    }
  }

  /** A coroutine suspends only on channels that are open and empty. */
  lemma SuspendServes(s: State, h: nat, wait: Wait, deadline: Maybe)
    requires Inv(s) && AllServed(s) && IsTask(s, h) && s.tasks[h] == Running
    requires ArmsExist(s, wait.Arms()) && FirstReady(s, wait.Arms()) == |wait.Arms()|
    ensures AllServed(Suspend(s, h, wait, deadline))
  {
    var s1, r := Park(s, h, wait), Suspend(s, h, wait, deadline);
    ArmAllGrows(s1, wait.Arms(), |s.waiters|);
    NoneReady(s, wait.Arms());
    forall c: nat | c < |r.chans| ensures Served(r, c) {
      if ChanArm(c) in wait.Arms() {
        assert !ArmReady(s, ChanArm(c));
      } else {
        GrowsMilder(s, r, c);
        MilderServes(s, r, c);
      }
    }
  }
  // -------------------------------------------------------------- resuming

  /** The arm that wins is channel `c`. */
  ghost predicate Wins(s: State, wait: Wait, c: nat)
    requires ArmsExist(s, wait.Arms())
  {
    var i := Winner(s, wait);
    i < |wait.Arms()| && wait.Arms()[i] == ChanArm(c)
  }

  lemma {:induction false} FirstReadySame(s: State, r: State, arms: seq<Arm>)
    requires ArmsExist(s, arms) && ArmsExist(r, arms) && r.tasks == s.tasks
    requires forall c: nat | c < |s.chans| && c < |r.chans| :: r.chans[c].Ready() == s.chans[c].Ready()
    ensures FirstReady(r, arms) == FirstReady(s, arms)
  {
    if arms != [] {
      assert ArmExists(s, arms[0]) && ArmExists(r, arms[0]);
      FirstReadySame(s, r, arms[1..]);
    }
  }

  /** Resuming a parked coroutine takes its waiter away and at most the winner's front value. */
  ghost predicate Resumed(s: State, r: State, h: nat, c: nat)
    requires IsTask(s, h) && s.tasks[h].Parked? && ArmsExist(s, s.tasks[h].wait.Arms())
  {
    && r.tasks == s.tasks[h := Running] && r.waiters == s.waiters
    && c < |s.chans| == |r.chans| && r.chans[c].closed == s.chans[c].closed
    && r.chans[c].q ==
         (if Wins(s, s.tasks[h].wait, c) && s.chans[c].q != [] then s.chans[c].q[1..] else s.chans[c].q)
    && (forall w | !Fired(s, w) :: w in r.chans[c].parked <==> w in s.chans[c].parked)
  }

  lemma DisarmedSleepers(before: Chan, after: Chan, armed: nat, w: nat, x: nat)
    requires Disarmed(before, after, armed, w) && x != w
    ensures x in after.parked <==> x in before.parked
  {
    assert multiset(after.parked)[x] == multiset(before.parked)[x];
    assert x in before.parked <==> x in multiset(before.parked);
    assert x in after.parked <==> x in multiset(after.parked);
  }

  lemma ResumeEffect(s: State, c: nat)
    requires Inv(s) && WellFormed(s) && s.ready != [] && s.tasks[s.ready[0]].Parked? && c < |s.chans|
    ensures Fired(s, s.tasks[s.ready[0]].w) && Resumed(s, Resume(s), s.ready[0], c)
  {
    var h := s.ready[0];
    var w, wait := s.tasks[h].w, s.tasks[h].wait;
    var s1 := DisarmAll(s, wait.Arms(), w);
    assert Resumable(s, h) by { assert h in s.ready; }
    forall d: nat | d < |s.chans| ensures s1.chans[d] == s.chans[d].(parked := s1.chans[d].parked) {
      DisarmChans(s, wait.Arms(), w, d);
    }
    FirstReadySame(s, s1, wait.Arms());
    DisarmChans(s, wait.Arms(), w, c);
    forall x: nat | !Fired(s, x) ensures x in s1.chans[c].parked <==> x in s.chans[c].parked {
      DisarmedSleepers(s.chans[c], s1.chans[c], multiset(wait.Arms())[ChanArm(c)], w, x);
    }
  }

  /** The one kind of step that loses a wakeup: a select woken by channel `c` resumes, takes
      another arm, and leaves `c` with a sleeper and as many values as woken coroutines. */
  ghost predicate Loses(s: State, op: Op, c: nat)
    requires WellFormed(s) && Enabled(s, op)
  {
    && op == RunNext && c < |s.chans|
    && s.tasks[s.ready[0]].Parked?
    && s.waiters[s.tasks[s.ready[0]].w].cause == ByChan(c)
    && !Wins(s, s.tasks[s.ready[0]].wait, c)
    && (exists w :: w in s.chans[c].parked && !Fired(s, w))
    && |s.chans[c].q| == |Pending(s, c)|
  }

  lemma ResumedServes(s: State, r: State, h: nat, c: nat)
    requires IsTask(s, h) && s.tasks[h].Parked? && ArmsExist(s, s.tasks[h].wait.Arms())
    requires Resumed(s, r, h, c) && Served(s, c) && Fired(s, s.tasks[h].w)
    ensures Served(r, c) <==>
      !(&& s.waiters[s.tasks[h].w].cause == ByChan(c) && !Wins(s, s.tasks[h].wait, c)
        && (exists w :: w in s.chans[c].parked && !Fired(s, w))
        && |s.chans[c].q| == |Pending(s, c)|)
  {
    assert Pending(r, c) == Pending(s, c) - {h};
    assert h in Pending(s, c) <==> s.waiters[s.tasks[h].w].cause == ByChan(c);
    if exists w :: w in s.chans[c].parked && !Fired(s, w) {
      var w :| w in s.chans[c].parked && !Fired(s, w);
      assert w in r.chans[c].parked && !Fired(r, w);
    }
  }

  lemma ResumeServes(s: State, c: nat)
    requires Inv(s) && WellFormed(s) && AllServed(s) && s.ready != [] && c < |s.chans|
    ensures |Resume(s).chans| == |s.chans|
    ensures Served(Resume(s), c) <==> !Loses(s, RunNext, c)
  {
    ResumeKeeps(s);
    var h, r := s.ready[0], Resume(s);
    assert Served(s, c);
    if s.tasks[h].Parked? {
      ResumeEffect(s, c);
      ResumedServes(s, r, h, c);
    } else {
      GrowsMilder(s, r, c);
      MilderServes(s, r, c);
    }
  }

  // ------------------------------------------------------------ every step

  lemma GrowsServes(s: State, r: State)
    requires AllServed(s) && Grows(s, r)
    requires |s.chans| <= |r.chans| && r.chans[..|s.chans|] == s.chans
    requires forall c | |s.chans| <= c < |r.chans| :: r.chans[c].parked == []
    ensures AllServed(r)
  {
    forall c: nat | c < |r.chans| ensures Served(r, c) {
      if c < |s.chans| {
        assert r.chans[c] == r.chans[..|s.chans|][c];
        GrowsMilder(s, r, c);
        MilderServes(s, r, c);
      }
    }
  }

  lemma CompleteGrows(s: State, h: nat)
    requires Inv(s) && WellFormed(s) && IsTask(s, h) && s.tasks[h] == Running
    ensures Grows(s, Finish(s, h)) && Finish(s, h).chans == s.chans
  {
  }

  lemma ServiceGrows(s: State)
    requires WellFormed(s)
    ensures Grows(s, Service(s)) && Service(s).chans == s.chans
  {
  }

  lemma QuietServes(s: State, op: Op)
    requires Inv(s) && WellFormed(s) && AllServed(s) && Enabled(s, op)
    requires op in {NewChan, NewTask, ServiceTimers}
             || op.MakeFuture? || op.EnsureScheduled? || op.Await? || op.Complete?
    ensures AllServed(Step(s, op))
  {
    match op {
      case Complete(h) => CompleteGrows(s, h);
      case ServiceTimers => ServiceGrows(s);
      case _ =>
    }
    GrowsServes(s, Step(s, op));
  }

  /** From a state in which every channel is served, a step leads to such a state exactly when
      it is not the losing one. */
  lemma StepServesIff(s: State, op: Op)
    requires Inv(s) && WellFormed(s) && AllServed(s) && Enabled(s, op)
    ensures AllServed(Step(s, op)) <==> forall c: nat :: !Loses(s, op, c)
  {
    match op {
      case NewChan => QuietServes(s, op);
      case NewTask => QuietServes(s, op);
      case MakeFuture(_) => QuietServes(s, op);
      case EnsureScheduled(_) => QuietServes(s, op);
      case Await(_, _) => QuietServes(s, op);
      case Complete(_) => QuietServes(s, op);
      case Send(c, v) => SendServes(s, c, v);
      case Close(c) => CloseServes(s, c);
      case Poll(c) => TakeServes(s, c);
      case Receive(h, c) =>
        if s.chans[c].Ready() { TakeServes(s, c); } else { SuspendServes(s, h, Receiving(c), Absent); }
      case Select(h, arms, deadline) =>
        var i := FirstReady(s, arms);
        if i == |arms| {
          SuspendServes(s, h, Selecting(arms, deadline.At?), deadline);
        } else if arms[i].ChanArm? {
          TakeServes(s, arms[i].c);
        }
      case RunNext =>
        forall c: nat | c < |s.chans|
          ensures |Resume(s).chans| == |s.chans|
          ensures Served(Resume(s), c) <==> !Loses(s, op, c) {
          ResumeServes(s, c);
        }
      case ServiceTimers => QuietServes(s, op);
    }
  }
}
