/** The async runtime as a transition system.

    A state holds the scheduler's ready queue and timers, every waiter ever allocated, every
    channel, and every coroutine; a step is one operation a coroutine performs between two
    suspension points, or one turn of the run loop.  Which running coroutine acts next, and
    which operation it performs, is left open, so a run is any interleaving. */
module Machine {
  import opened ParkedQueue
  import opened TimerQueue

  type Value = int

  /** What a suspended coroutine waits on: the awaiter's arms, in source order. */
  datatype Arm = ChanArm(c: nat) | FutureArm(t: nat)

  datatype Wait =
    | Receiving(c: nat)
    | Selecting(arms: seq<Arm>, timeout: bool)
  {
    function Arms(): seq<Arm> {
      match this
      case Receiving(c) => [ChanArm(c)]
      case Selecting(arms, _) => arms
    }
  }

  datatype Task =
    | Fresh                       // created, never resumed
    | Queued                      // spawned, its handle is in the ready queue
    | Running
    | Parked(w: nat, wait: Wait)  // suspended on waiter w
    | Awaiting(callee: nat)       // suspended on another coroutine's completion
    | Done

  datatype Waker = Nobody | ByChan(c: nat) | ByFuture(t: nat) | ByTimer

  /** `wakes` and `cause` record history: how often, and by whom, the handle was scheduled. */
  datatype Waiter = Waiter(h: nat, fired: bool, cause: Waker, wakes: nat)

  /** `sent` and `received` record history; the other fields are the channel's own. */
  datatype Chan = Chan(q: seq<Value>, parked: seq<nat>, closed: bool,
                       sent: seq<Value>, received: seq<Value>)
  {
    predicate Ready() { q != [] || closed }
  }

  datatype State = State(
    ready: seq<nat>,
    timers: seq<Timer<nat>>,
    waiters: seq<Waiter>,
    chans: seq<Chan>,
    tasks: seq<Task>,
    slot: map<nat, nat>,      // a coroutine's `select_waiter`
    futures: map<nat, bool>,  // coroutines owned by a Future, and its `scheduled_` flag
    caller: map<nat, nat>)    // a coroutine's `continuation`

  datatype Op =
    | NewChan
    | NewTask
    | MakeFuture(t: nat)
    | EnsureScheduled(t: nat)
    | Await(h: nat, t: nat)
    | Complete(h: nat)
    | Send(c: nat, v: Value)
    | Close(c: nat)
    | Poll(c: nat)
    | Receive(h: nat, c: nat)
    | Select(h: nat, arms: seq<Arm>, deadline: Maybe)
    | RunNext
    | ServiceTimers

  datatype Maybe = Absent | At(deadline: int)

  // ---------------------------------------------------------------- lookups

  predicate IsTask(s: State, h: nat) { h < |s.tasks| }

  predicate Fired(s: State, w: nat) { w < |s.waiters| && s.waiters[w].fired }

  function FiredSet(s: State): set<nat> { set w | 0 <= w < |s.waiters| && s.waiters[w].fired }

  predicate ArmExists(s: State, a: Arm) {
    match a
    case ChanArm(c) => c < |s.chans|
    case FutureArm(t) => t in s.futures && IsTask(s, t)
  }

  predicate ArmReady(s: State, a: Arm)
    requires ArmExists(s, a)
  {
    match a
    case ChanArm(c) => s.chans[c].Ready()
    case FutureArm(t) => s.tasks[t].Done?
  }

  predicate ArmsExist(s: State, arms: seq<Arm>) { forall i | 0 <= i < |arms| :: ArmExists(s, arms[i]) }

  /** `first_ready`: the index of the first ready arm, or |arms| when none is. */
  function FirstReady(s: State, arms: seq<Arm>): (i: nat)
    requires ArmsExist(s, arms)
    ensures i <= |arms|
  {
    if arms == [] then 0
    else if ArmReady(s, arms[0]) then 0
    else 1 + FirstReady(s, arms[1..])
  }

  /** `await_resume` of a select: the first ready arm, else `timeout_index`, which is the index
      past the last arm when the select has a timeout and 0 when it has none. */
  function Winner(s: State, wait: Wait): nat
    requires ArmsExist(s, wait.Arms())
  {
    match wait
    case Receiving(_) => 0
    case Selecting(arms, timeout) =>
      var i := FirstReady(s, arms);
      if i < |arms| then i else if timeout then |arms| else 0
  }

  // ------------------------------------------------------- building blocks

  /** Raise a waiter's flag and schedule its handle; a second call does nothing. */
  function Fire(s: State, w: nat, cause: Waker): (r: State)
    requires w < |s.waiters|
    ensures r == s.(waiters := r.waiters, ready := r.ready) && |r.waiters| == |s.waiters|
  {
    var x := s.waiters[w];
    if x.fired then s
    else s.(waiters := s.waiters[w := Waiter(x.h, true, cause, x.wakes + 1)], ready := s.ready + [x.h])
  }

  function FireAll(s: State, ws: seq<nat>, cause: Waker): State
    requires forall i | 0 <= i < |ws| :: ws[i] < |s.waiters|
    decreases ws
  {
    if ws == [] then s else FireAll(Fire(s, ws[0], cause), ws[1..], cause)
  }

  /** The front value of a channel moves to its receiver; nil when the queue is empty. */
  function Take(s: State, c: nat): State
    requires c < |s.chans|
  {
    var ch := s.chans[c];
    if ch.q == [] then s
    else s.(chans := s.chans[c := ch.(q := ch.q[1..], received := ch.received + [ch.q[0]])])
  }

  function SetTask(s: State, h: nat, t: Task): State
    requires h < |s.tasks|
  {
    s.(tasks := s.tasks[h := t])
  }

  function Enqueue(s: State, c: nat, v: Value): State
    requires c < |s.chans|
  {
    s.(chans := s.chans[c := s.chans[c].(q := s.chans[c].q + [v], sent := s.chans[c].sent + [v])])
  }

  function Shut(s: State, c: nat): State
    requires c < |s.chans|
  {
    s.(chans := s.chans[c := s.chans[c].(closed := true)])
  }

  function WakeChan(s: State, c: nat, all: bool): State
    requires c < |s.chans|
    requires forall w | w in s.chans[c].parked :: w < |s.waiters|
  {
    var parked := s.chans[c].parked;
    if all then
      WakeAllEffect(parked, FiredSet(s));
      var ws := WakeAll(parked, FiredSet(s));
      assert forall i | 0 <= i < |ws| :: ws[i] in parked;
      FireAll(s.(chans := s.chans[c := s.chans[c].(parked := [])]), ws, ByChan(c))
    else
      WakeOneEffect(parked, FiredSet(s));
      var r := WakeOne(parked, FiredSet(s));
      FireAll(s.(chans := s.chans[c := s.chans[c].(parked := r.rest)]), r.scheduled, ByChan(c))
  }

  function Schedule(s: State, t: nat): State
    requires IsTask(s, t)
  {
    if t in s.futures && !s.futures[t] && s.tasks[t] != Done
    then SetTask(s, t, Queued).(ready := s.ready + [t], futures := s.futures[t := true])
    else s
  }

  /** `sel_arm` on one arm: a channel parks the waiter; a future that is ready fires it, and
      one that is not gets scheduled and remembers it. */
  function ArmOne(s: State, a: Arm, w: nat): (r: State)
    requires ArmExists(s, a) && w < |s.waiters|
    ensures |r.waiters| == |s.waiters| && |r.chans| == |s.chans| && |r.tasks| == |s.tasks|
    ensures r.futures.Keys == s.futures.Keys
  {
    match a
    case ChanArm(c) => s.(chans := s.chans[c := s.chans[c].(parked := s.chans[c].parked + [w])])
    case FutureArm(t) =>
      if s.tasks[t].Done? then Fire(s, w, ByFuture(t))
      else var s' := Schedule(s, t); s'.(slot := s'.slot[t := w])
  }

  function ArmAll(s: State, arms: seq<Arm>, w: nat): State
    requires ArmsExist(s, arms) && w < |s.waiters|
    decreases arms
  {
    if arms == [] then s else ArmAll(ArmOne(s, arms[0], w), arms[1..], w)
  }

  /** `sel_disarm` on one arm: a channel drops one occurrence of the waiter; a future that has
      not completed forgets whichever waiter it remembers. */
  function DisarmOne(s: State, a: Arm, w: nat): State
    requires ArmExists(s, a)
  {
    match a
    case ChanArm(c) => s.(chans := s.chans[c := s.chans[c].(parked := Unpark(s.chans[c].parked, w))])
    case FutureArm(t) => if s.tasks[t].Done? then s else s.(slot := s.slot - {t})
  }

  function DisarmAll(s: State, arms: seq<Arm>, w: nat): (r: State)
    requires ArmsExist(s, arms)
    ensures r == s.(chans := r.chans, slot := r.slot) && |r.chans| == |s.chans|
    decreases arms
  {
    if arms == [] then s else DisarmAll(DisarmOne(s, arms[0], w), arms[1..], w)
  }

  /** Suspend `h` on a fresh waiter armed on every arm, with a timer if there is a timeout. */
  function Suspend(s: State, h: nat, wait: Wait, deadline: Maybe): State
    requires IsTask(s, h) && ArmsExist(s, wait.Arms())
  {
    var w := |s.waiters|;
    var s1 := SetTask(s, h, Parked(w, wait)).(waiters := s.waiters + [Waiter(h, false, Nobody, 0)]);
    var s2 := ArmAll(s1, wait.Arms(), w);
    match deadline
    case Absent => s2
    case At(d) => s2.(timers := s2.timers + [Timer(d, w)])
  }

  /** What the coroutine does with the arm that won: take a channel's front value. */
  function Dispatch(s: State, wait: Wait, i: nat): State
    requires ArmsExist(s, wait.Arms())
  {
    if i < |wait.Arms()| && wait.Arms()[i].ChanArm? then
      Take(s, wait.Arms()[i].c)
    else s
  }

  // ----------------------------------------------------------------- steps

  /** What must hold for an operation to be performed at all: the objects it names exist, and
      the coroutine that performs it is running. */
  predicate Enabled(s: State, op: Op) {
    match op
    case NewChan => true
    case NewTask => true
    case MakeFuture(t) => IsTask(s, t) && s.tasks[t] == Fresh && t !in s.futures
    case EnsureScheduled(t) => IsTask(s, t) && t in s.futures
    case Await(h, t) =>
      && IsTask(s, h) && s.tasks[h] == Running
      && IsTask(s, t) && s.tasks[t] == Fresh && t !in s.futures
    case Complete(h) => IsTask(s, h) && s.tasks[h] == Running
    case Send(c, v) => c < |s.chans|
    case Close(c) => c < |s.chans|
    case Poll(c) => c < |s.chans|
    case Receive(h, c) => IsTask(s, h) && s.tasks[h] == Running && c < |s.chans|
    case Select(h, arms, _) => IsTask(s, h) && s.tasks[h] == Running && ArmsExist(s, arms)
    case RunNext => s.ready != []
    case ServiceTimers => s.ready == []
  }

  /** Objects named by one part of the state exist in the others. */
  ghost predicate WellFormed(s: State) {
    && (forall i | 0 <= i < |s.ready| :: IsTask(s, s.ready[i]))
    && (forall t | t in s.timers :: t.w < |s.waiters|)
    && (forall c: nat, w: nat | c < |s.chans| && w in s.chans[c].parked :: w < |s.waiters|)
    && (forall t | t in s.slot :: s.slot[t] < |s.waiters|)
    && (forall h | 0 <= h < |s.tasks| && s.tasks[h].Parked? ::
          s.tasks[h].w < |s.waiters| && ArmsExist(s, s.tasks[h].wait.Arms()))
    && (forall t | t in s.caller :: IsTask(s, s.caller[t]))
    && (forall t | t in s.futures :: IsTask(s, t))
  }

  /** Resume the handle at the front of the ready queue. */
  ghost function Resume(s: State): State
    requires WellFormed(s) && s.ready != []
  {
    var h := s.ready[0];
    (match s.tasks[h]
     case Queued => SetTask(s, h, Running)
     case Parked(w, wait) =>
       var s' := DisarmAll(s, wait.Arms(), w);
       SetTask(Dispatch(s', wait, Winner(s', wait)), h, Running)
     case _ => s
    ).(ready := s.ready[1..])
  }

  /** Drop the timers whose waiter has fired, then fire the earliest of the others. */
  ghost function Service(s: State): State
    requires WellFormed(s)
  {
    var live := Live(s.timers, FiredSet(s));
    if live == [] then s.(timers := [])
    else
      var i := Earliest(live);
      LiveMembers(s.timers, FiredSet(s), live[i]);
      Fire(s.(timers := live[..i] + live[i+1..]), live[i].w, ByTimer)
  }

  /** Completion fires the waiter the coroutine remembers and resumes its caller. */
  ghost function Finish(s: State, h: nat): State
    requires WellFormed(s) && IsTask(s, h)
  {
    var s1 := SetTask(s, h, Done);
    var s2 := if h in s.slot then Fire(s1, s.slot[h], ByFuture(h)) else s1;
    if h in s.caller then SetTask(s2, s.caller[h], Running) else s2
  }

  ghost function Step(s: State, op: Op): State
    requires WellFormed(s) && Enabled(s, op)
  {
    match op
    case NewChan => s.(chans := s.chans + [Chan([], [], false, [], [])])
    case NewTask => s.(tasks := s.tasks + [Fresh])
    case MakeFuture(t) => s.(futures := s.futures[t := false])
    case EnsureScheduled(t) => Schedule(s, t)
    case Await(h, t) => SetTask(SetTask(s, h, Awaiting(t)), t, Running).(caller := s.caller[t := h])
    case Complete(h) => Finish(s, h)
    case Send(c, v) => WakeChan(Enqueue(s, c, v), c, false)
    case Close(c) => WakeChan(Shut(s, c), c, true)
    case Poll(c) => Take(s, c)
    case Receive(h, c) =>
      if s.chans[c].Ready() then Take(s, c) else Suspend(s, h, Receiving(c), Absent)
    case Select(h, arms, deadline) =>
      var i := FirstReady(s, arms);
      var wait := Selecting(arms, deadline.At?);
      if i < |arms| then Dispatch(s, wait, i) else Suspend(s, h, wait, deadline)
    case RunNext => Resume(s)
    case ServiceTimers => Service(s)
  }

  /** The program starts with one coroutine already resumed. */
  function Init(): State {
    State([], [], [], [], [Running], map[], map[], map[])
  }
}
