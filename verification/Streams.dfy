/** What flows through a channel: conservation over every run, and when nil means the end. */
module Streams {
  import opened ParkedQueue
  import opened TimerQueue
  import opened Machine
  import opened Safety
  import opened Wakeups
  import opened Discipline

  // -------------------------------------------------------- conservation

  ghost predicate Conserved(s: State) {
    forall c | 0 <= c < |s.chans| :: s.chans[c].sent == s.chans[c].received + s.chans[c].q
  }

  /** Channels of `r` carry the same values as those of `s`. */
  ghost predicate SameFlow(s: State, r: State) {
    && |r.chans| == |s.chans|
    && forall c | 0 <= c < |s.chans| ::
         && r.chans[c].sent == s.chans[c].sent && r.chans[c].received == s.chans[c].received
         && r.chans[c].q == s.chans[c].q && r.chans[c].closed == s.chans[c].closed
  }

  lemma WakeFlow(s: State, c: nat, all: bool)
    requires WellFormed(s) && c < |s.chans|
    ensures SameFlow(s, WakeChan(s, c, all))
  {
    var rest, ws := WakeParts(s, c, all);
    FireAllGrows(s.(chans := s.chans[c := s.chans[c].(parked := rest)]), ws, ByChan(c));
  }

  lemma {:induction false} DisarmFlow(s: State, arms: seq<Arm>, w: nat)
    requires ArmsExist(s, arms)
    ensures SameFlow(s, DisarmAll(s, arms, w))
    decreases arms
  {
    if arms != [] {
      DisarmFlow(DisarmOne(s, arms[0], w), arms[1..], w);
    }
  }

  lemma SuspendFlow(s: State, h: nat, wait: Wait, deadline: Maybe)
    requires Inv(s) && IsTask(s, h) && s.tasks[h] == Running && ArmsExist(s, wait.Arms())
    ensures SameFlow(s, Suspend(s, h, wait, deadline))
  {
    ParkKeeps(s, h, wait);
    ArmAllGrows(Park(s, h, wait), wait.Arms(), |s.waiters|);
  }

  lemma TakeConserves(s: State, c: nat)
    requires Conserved(s) && c < |s.chans|
    ensures Conserved(Take(s, c))
  {
  }

  lemma ResumeConserves(s: State)
    requires WellFormed(s) && s.ready != [] && Conserved(s)
    ensures Conserved(Resume(s))
  {
    var h := s.ready[0];
    if s.tasks[h].Parked? {
      DisarmFlow(s, s.tasks[h].wait.Arms(), s.tasks[h].w);
    }
  }

  lemma FlowConserves(s: State, r: State)
    requires Conserved(s) && SameFlow(s, r)
    ensures Conserved(r)
  {
  }

  lemma SendConserves(s: State, c: nat, v: Value)
    requires Inv(s) && WellFormed(s) && c < |s.chans| && Conserved(s)
    ensures Conserved(WakeChan(Enqueue(s, c, v), c, false))
  {
    WakeFlow(Enqueue(s, c, v), c, false);
    FlowConserves(Enqueue(s, c, v), WakeChan(Enqueue(s, c, v), c, false));
  }

  /** The operations that leave every channel alone. */
  lemma SameChans(s: State, op: Op)
    requires Inv(s) && WellFormed(s) && Enabled(s, op)
    requires op in {NewTask, ServiceTimers}
             || op.MakeFuture? || op.EnsureScheduled? || op.Await? || op.Complete?
    ensures Step(s, op).chans == s.chans
  {
    match op {
      case Complete(h) => CompleteGrows(s, h);
      case ServiceTimers => ServiceGrows(s);
      case _ =>
    }
  }

  lemma WaitConserves(s: State, op: Op)
    requires Inv(s) && WellFormed(s) && Enabled(s, op) && Conserved(s) && (op.Receive? || op.Select?)
    ensures Conserved(Step(s, op))
  {
    match op {
      case Receive(h, c) =>
        if s.chans[c].Ready() { TakeConserves(s, c); } else { SuspendFlow(s, h, Receiving(c), Absent); }
      case Select(h, arms, deadline) =>
        var i := FirstReady(s, arms);
        if i == |arms| {
          SuspendFlow(s, h, Selecting(arms, deadline.At?), deadline);
        } else if arms[i].ChanArm? {
          TakeConserves(s, arms[i].c);
        }
    }
  }

  lemma StepConserves(s: State, op: Op)
    requires Inv(s) && WellFormed(s) && Enabled(s, op) && Conserved(s)
    ensures Conserved(Step(s, op))
  {
    match op {
      case Send(c, v) => SendConserves(s, c, v);
      case Close(c) => WakeFlow(Shut(s, c), c, true);
      case Receive(_, _) => WaitConserves(s, op);
      case Select(_, _, _) => WaitConserves(s, op);
      case RunNext => ResumeConserves(s);
      case NewChan =>
      case Poll(c) => TakeConserves(s, c);
      case _ => SameChans(s, op);
    }
  }

  /** Over every run, the values sent on a channel are, in order, the values received from it
      by any means followed by the values still queued. */
  lemma {:induction false} Conservation(run: seq<Op>, s: State)
    requires Reaches(run, s)
    ensures forall c | 0 <= c < |s.chans| :: s.chans[c].sent == s.chans[c].received + s.chans[c].q
    decreases run
  {
    if run != [] {
      var op := run[|run|-1];
      var p :| Reaches(run[..|run|-1], p) && WellFormed(p) && Enabled(p, op) && s == Step(p, op);
      Conservation(run[..|run|-1], p);
      ReachableInv(run[..|run|-1], p);
      StepConserves(p, op);
    }
  }

  // -------------------------------------------------------- end of stream

  /** Owned channels are read by their owner's suspending receives and in no other way. */
  ghost predicate ReceiveOnly(owner: Owners, op: Op) {
    match op
    case Receive(h, c) => c in owner ==> h == owner[c]
    case Select(_, arms, _) => forall c: nat | ChanArm(c) in arms :: c !in owner
    case Poll(c) => c !in owner
    case _ => true
  }

  /** A suspending receive on `c` returns now: at once, or because its coroutine resumes. */
  predicate ReceiveReturns(s: State, op: Op, c: nat)
    requires Enabled(s, op)
  {
    match op
    case Receive(_, d) => d == c && s.chans[c].Ready()
    case RunNext =>
      IsTask(s, s.ready[0]) && s.tasks[s.ready[0]].Parked? && s.tasks[s.ready[0]].wait == Receiving(c)
    case _ => false
  }

  /** On owned channels only the owner waits, with a receive, and a timer or a future never
      wakes a receive. */
  ghost predicate Reserved(owner: Owners, s: State) {
    && (forall h: nat, c: nat | IsTask(s, h) && s.tasks[h].Parked? && ChanArm(c) in s.tasks[h].wait.Arms()
          && c in owner :: h == owner[c] && s.tasks[h].wait == Receiving(c))
    && (forall i, h: nat | 0 <= i < |s.timers| && IsTask(s, h) && s.tasks[h].Parked?
          && s.tasks[h].w == s.timers[i].w :: s.tasks[h].wait.Selecting?)
  }

  /** A woken owner finds its channel with a value, or closed. */
  ghost predicate Prompt(owner: Owners, s: State) {
    forall c | c in owner && c < |s.chans| && IsTask(s, owner[c]) && s.tasks[owner[c]].Parked?
               && s.tasks[owner[c]].wait == Receiving(c) && Fired(s, s.tasks[owner[c]].w) ::
      s.chans[c].Ready()
  }

  /** The waiters a step may fire, when it parks nobody. */
  ghost predicate MayFire(s: State, op: Op, w: nat) {
    match op
    case Send(c, _) => c < |s.chans| && w in s.chans[c].parked
    case Close(c) => c < |s.chans| && w in s.chans[c].parked
    case Complete(h) => h in s.slot && s.slot[h] == w
    case ServiceTimers => exists i :: 0 <= i < |s.timers| && s.timers[i].w == w
    case _ => false
  }

  lemma WakeFires(s: State, c: nat, ch: Chan, all: bool)
    requires WellFormed(s) && c < |s.chans| && ch.parked == s.chans[c].parked
    requires WellFormed(s.(chans := s.chans[c := ch]))
    ensures var r := WakeChan(s.(chans := s.chans[c := ch]), c, all);
      && |r.waiters| == |s.waiters| && r.timers == s.timers
      && forall w: nat | w < |s.waiters| && r.waiters[w] != s.waiters[w] :: w in s.chans[c].parked
  {
    var s0 := s.(chans := s.chans[c := ch]);
    var rest, ws := WakeParts(s0, c, all);
    FireAllCauses(s0.(chans := s0.chans[c := ch.(parked := rest)]), ws, ByChan(c));
    FireAllTimers(s0.(chans := s0.chans[c := ch.(parked := rest)]), ws, ByChan(c));
  }

  lemma ServiceFires(s: State)
    requires WellFormed(s)
    ensures var r := Service(s);
      && (forall t | t in r.timers :: t in s.timers)
      && forall w: nat | w < |s.waiters| && r.waiters[w] != s.waiters[w] ::
           exists i :: 0 <= i < |s.timers| && s.timers[i].w == w
  {
    var live := Live(s.timers, FiredSet(s));
    if live != [] {
      var i := Earliest(live);
      LiveMembers(s.timers, FiredSet(s), live[i]);
      forall t | t in live[..i] + live[i+1..] ensures t in s.timers {
        LiveMembers(s.timers, FiredSet(s), t);
      }
    }
  }

  lemma QuietFires(s: State, op: Op)
    requires WellFormed(s) && Enabled(s, op) && !Suspends(s, op)
    requires !op.Send? && !op.Close? && !op.ServiceTimers? && !op.Complete?
    ensures Step(s, op).waiters == s.waiters && Step(s, op).timers == s.timers
  {
  }

  lemma WakerFires(s: State, op: Op)
    requires Inv(s) && WellFormed(s) && Enabled(s, op) && (op.Send? || op.Close?)
    ensures |Step(s, op).waiters| == |s.waiters| && Step(s, op).timers == s.timers
    ensures forall w: nat | w < |s.waiters| && Step(s, op).waiters[w] != s.waiters[w] :: MayFire(s, op, w)
  {
    if op.Send? {
      WakeFires(s, op.c, Enqueue(s, op.c, op.v).chans[op.c], false);
    } else {
      WakeFires(s, op.c, Shut(s, op.c).chans[op.c], true);
    }
  }

  lemma StepFires(s: State, op: Op)
    requires Inv(s) && WellFormed(s) && Enabled(s, op) && !Suspends(s, op)
    ensures |Step(s, op).waiters| == |s.waiters|
    ensures forall w: nat | w < |s.waiters| && Step(s, op).waiters[w] != s.waiters[w] :: MayFire(s, op, w)
    ensures forall t | t in Step(s, op).timers :: t in s.timers
  {
    match op {
      case Send(_, _) => WakerFires(s, op);
      case Close(_) => WakerFires(s, op);
      case ServiceTimers => ServiceFires(s);
      case Complete(_) =>
      case _ => QuietFires(s, op);
    }
  }

  lemma {:induction false} FireAllTimers(s: State, ws: seq<nat>, cause: Waker)
    requires forall i | 0 <= i < |ws| :: ws[i] < |s.waiters|
    ensures FireAll(s, ws, cause).timers == s.timers
    decreases ws
  {
    if ws != [] {
      FireAllTimers(Fire(s, ws[0], cause), ws[1..], cause);
    }
  }
  lemma SuspendReserved(owner: Owners, s: State, h: nat, wait: Wait, deadline: Maybe)
    requires Inv(s) && Reserved(owner, s) && Prompt(owner, s)
    requires IsTask(s, h) && s.tasks[h] == Running && ArmsExist(s, wait.Arms())
    requires deadline.At? ==> wait.Selecting?
    requires forall c: nat | ChanArm(c) in wait.Arms() && c in owner :: h == owner[c] && wait == Receiving(c)
    ensures Reserved(owner, Suspend(s, h, wait, deadline))
  {
    ArmAllCauses(Park(s, h, wait), wait.Arms(), |s.waiters|);
    ArmAllFrame(Park(s, h, wait), wait.Arms(), |s.waiters|);
  }

  lemma SuspendPrompt(owner: Owners, s: State, h: nat, wait: Wait, deadline: Maybe)
    requires Inv(s) && Reserved(owner, s) && Prompt(owner, s)
    requires IsTask(s, h) && s.tasks[h] == Running && ArmsExist(s, wait.Arms())
    ensures Prompt(owner, Suspend(s, h, wait, deadline))
  {
    ArmAllCauses(Park(s, h, wait), wait.Arms(), |s.waiters|);
    SuspendFlow(s, h, wait, deadline);
  }

  lemma SettledReserved(owner: Owners, s: State, r: State)
    requires Reserved(owner, s) && Settles(s, r)
    requires forall t | t in r.timers :: t in s.timers
    ensures Reserved(owner, r)
  {
    forall i, h: nat | 0 <= i < |r.timers| && IsTask(r, h) && r.tasks[h].Parked?
                       && r.tasks[h].w == r.timers[i].w
      ensures r.tasks[h].wait.Selecting?
    {
      assert r.timers[i] in s.timers;
    }
  }

  /** The operations that may take a value out of channel `c`. */
  ghost predicate MayTake(s: State, op: Op, c: nat)
    requires Enabled(s, op)
  {
    match op
    case Poll(d) => d == c
    case Receive(_, d) => d == c
    case Select(_, arms, _) => ChanArm(c) in arms
    case RunNext =>
      IsTask(s, s.ready[0]) && s.tasks[s.ready[0]].Parked? && ChanArm(c) in s.tasks[s.ready[0]].wait.Arms()
    case _ => false
  }

  lemma FlowReady(s: State, r: State, c: nat)
    requires SameFlow(s, r) && c < |s.chans| && s.chans[c].Ready()
    ensures c < |r.chans| && r.chans[c].Ready()
  {
  }

  lemma WokenStaysReady(s: State, d: nat, v: Value, c: nat)
    requires WellFormed(s) && d < |s.chans| && c < |s.chans| && (c == d || s.chans[c].Ready())
    ensures var r := WakeChan(Enqueue(s, d, v), d, false); c < |r.chans| && r.chans[c].Ready()
    ensures var r := WakeChan(Shut(s, d), d, true); c < |r.chans| && r.chans[c].Ready()
  {
    WakeFlow(Enqueue(s, d, v), d, false);
    FlowReady(Enqueue(s, d, v), WakeChan(Enqueue(s, d, v), d, false), c);
    WakeFlow(Shut(s, d), d, true);
    FlowReady(Shut(s, d), WakeChan(Shut(s, d), d, true), c);
  }

  /** Nothing but such an operation makes a channel less ready. */
  lemma StaysReady(s: State, op: Op, c: nat)
    requires Inv(s) && WellFormed(s) && Enabled(s, op) && !Suspends(s, op)
    requires c < |s.chans| && s.chans[c].Ready() && !MayTake(s, op, c)
    ensures c < |Step(s, op).chans| && Step(s, op).chans[c].Ready()
  {
    match op {
      case Send(d, v) => WokenStaysReady(s, d, v, c);
      case Close(d) => WokenStaysReady(s, d, 0, c);
      case RunNext => ResumeStaysReady(s, c);
      case NewChan =>
      case Poll(_) =>
      case Receive(_, _) =>
      case Select(_, _, _) => OtherTaken(s, op, c);
      case _ => SameChans(s, op);
    }
  }

  lemma OtherTaken(s: State, op: Op, c: nat)
    requires WellFormed(s) && Enabled(s, op) && op.Select? && FirstReady(s, op.arms) < |op.arms|
    requires c < |s.chans| && ChanArm(c) !in op.arms
    ensures c < |Step(s, op).chans| && Step(s, op).chans[c] == s.chans[c]
  {
  }

  lemma ResumeStaysReady(s: State, c: nat)
    requires WellFormed(s) && s.ready != [] && c < |s.chans| && s.chans[c].Ready()
    requires s.tasks[s.ready[0]].Parked? ==> ChanArm(c) !in s.tasks[s.ready[0]].wait.Arms()
    ensures c < |Resume(s).chans| && Resume(s).chans[c].Ready()
  {
    if s.tasks[s.ready[0]].Parked? {
      DisarmFlow(s, s.tasks[s.ready[0]].wait.Arms(), s.tasks[s.ready[0]].w);
    }
  }

  lemma RunsNext(s: State)
    requires WellFormed(s) && s.ready != [] && s.tasks[s.ready[0]].Parked?
    ensures Resume(s).tasks == s.tasks[s.ready[0] := Running]
  {
  }

  lemma SettledPrompt(owner: Owners, s: State, op: Op)
    requires Inv(s) && WellFormed(s) && Enabled(s, op) && !Suspends(s, op) && ReceiveOnly(owner, op)
    requires Reserved(owner, s) && Prompt(owner, s)
    ensures Prompt(owner, Step(s, op))
  {
    var r := Step(s, op);
    StepSettles(s, op);
    StepFires(s, op);
    forall c | c in owner && c < |r.chans| && IsTask(r, owner[c]) && r.tasks[owner[c]].Parked?
               && r.tasks[owner[c]].wait == Receiving(c) && Fired(r, r.tasks[owner[c]].w)
      ensures r.chans[c].Ready()
    {
      var h := owner[c];
      var w := s.tasks[h].w;
      assert ArmExists(s, s.tasks[h].wait.Arms()[0]);
      if Fired(s, w) {
        if MayTake(s, op, c) && op == RunNext {
          RunsNext(s);
        }
        StaysReady(s, op, c);
      } else {
        assert MayFire(s, op, w);
        if op.Send? || op.Close? {
          assert ChanHolds(s, op.c, w);
          WokenStaysReady(s, op.c, if op.Send? then op.v else 0, c);
        }
      }
    }
  }

  /** On a channel read only by its owner's suspending receives, over every run a receive that
      returns nil does so exactly when the channel is closed and everything sent on it has been
      received. */
  lemma {:induction false} EndOfStream(owner: Owners, run: seq<Op>, s: State, op: Op, c: nat)
    requires Reaches(run, s) && forall i | 0 <= i < |run| :: ReceiveOnly(owner, run[i])
    requires WellFormed(s) && Enabled(s, op) && ReceiveOnly(owner, op)
    requires c in owner && c < |s.chans| && ReceiveReturns(s, op, c)
    ensures s.chans[c].q == [] <==> s.chans[c].closed && s.chans[c].received == s.chans[c].sent
  {
    Conservation(run, s);
    ReservedReaches(owner, run, s);
    if op == RunNext {
      assert ChanArm(c) in s.tasks[s.ready[0]].wait.Arms();
      assert Resumable(s, s.ready[0]) by { assert s.ready[0] in s.ready; }
    }
  }

  lemma {:induction false} ReservedReaches(owner: Owners, run: seq<Op>, s: State)
    requires Reaches(run, s) && forall i | 0 <= i < |run| :: ReceiveOnly(owner, run[i])
    ensures Inv(s) && Reserved(owner, s) && Prompt(owner, s)
    decreases run
  {
    if run != [] {
      var op := run[|run|-1];
      var p :| Reaches(run[..|run|-1], p) && WellFormed(p) && Enabled(p, op) && s == Step(p, op);
      ReservedReaches(owner, run[..|run|-1], p);
      StepKeeps(p, op);
      StepReserved(owner, p, op);
    }
  }

  lemma StepReserved(owner: Owners, s: State, op: Op)
    requires Inv(s) && WellFormed(s) && Enabled(s, op) && ReceiveOnly(owner, op)
    requires Reserved(owner, s) && Prompt(owner, s)
    ensures Reserved(owner, Step(s, op)) && Prompt(owner, Step(s, op))
  {
    if Suspends(s, op) {
      match op {
        case Receive(h, c) =>
          SuspendReserved(owner, s, h, Receiving(c), Absent);
          SuspendPrompt(owner, s, h, Receiving(c), Absent);
        case Select(h, arms, deadline) =>
          SuspendReserved(owner, s, h, Selecting(arms, deadline.At?), deadline);
          SuspendPrompt(owner, s, h, Selecting(arms, deadline.At?), deadline);
      }
    } else {
      StepSettles(s, op);
      StepFires(s, op);
      SettledReserved(owner, s, Step(s, op));
      SettledPrompt(owner, s, op);
    }
  }
}
