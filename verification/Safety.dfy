/** At-most-once resumption: what holds in every state the runtime can reach. */
module Safety {
  import opened ParkedQueue
  import opened TimerQueue
  import opened Machine

  /** A coroutine whose handle must be in the ready queue. */
  predicate Resumable(s: State, h: nat) {
    && IsTask(s, h)
    && (s.tasks[h].Queued? || (s.tasks[h].Parked? && Fired(s, s.tasks[h].w)))
  }

  /** Waiter `w` is the one its coroutine is parked on, and `a` is one of the arms. */
  predicate ParkedOn(s: State, w: nat, a: Arm) {
    && w < |s.waiters| && IsTask(s, s.waiters[w].h)
    && var t := s.tasks[s.waiters[w].h];
    && t.Parked? && t.w == w && a in t.wait.Arms()
  }

  // The handle is in the ready queue exactly when it must be resumed, and only once.
  ghost predicate ReadyOk(s: State) {
    && NoDuplicates(s.ready)
    && forall h: nat :: h in s.ready <==> Resumable(s, h)
  }

  // A waiter is scheduled once when it fires and never again; until then its coroutine
  // stays parked on it.
  ghost predicate WaiterOk(s: State) {
    forall w | 0 <= w < |s.waiters| ::
      var x := s.waiters[w];
      && IsTask(s, x.h)
      && x.wakes == (if x.fired then 1 else 0)
      && (x.cause == Nobody <==> !x.fired)
      && (!x.fired ==> s.tasks[x.h].Parked? && s.tasks[x.h].w == w)
  }

  ghost predicate TaskOk(s: State) {
    forall h | 0 <= h < |s.tasks| && s.tasks[h].Parked? ::
      && s.tasks[h].w < |s.waiters| && s.waiters[s.tasks[h].w].h == h
      && ArmsExist(s, s.tasks[h].wait.Arms())
  }

  // A channel holds a waiter only while its coroutine is parked on it, at most once per arm.
  ghost predicate ChanOk(s: State) {
    forall c: nat, w: nat | c < |s.chans| && w in s.chans[c].parked :: ChanHolds(s, c, w)
  }

  ghost predicate ChanHolds(s: State, c: nat, w: nat) {
    && c < |s.chans| && ParkedOn(s, w, ChanArm(c))
    && multiset(s.chans[c].parked)[w] <= multiset(s.tasks[s.waiters[w].h].wait.Arms())[ChanArm(c)]
  }

  ghost predicate SlotOk(s: State) {
    forall t | t in s.slot ::
      && IsTask(s, t) && s.slot[t] < |s.waiters|
      && (s.tasks[t].Done? || ParkedOn(s, s.slot[t], FutureArm(t)))
  }

  ghost predicate FutureOk(s: State) {
    forall t | t in s.futures :: IsTask(s, t) && (!s.futures[t] ==> s.tasks[t].Fresh?)
  }

  ghost predicate CallerOk(s: State) {
    forall t | t in s.caller ::
      && IsTask(s, t) && IsTask(s, s.caller[t]) && !s.tasks[t].Fresh?
      && (s.tasks[t].Done? || s.tasks[s.caller[t]] == Awaiting(t))
  }

  ghost predicate TimerOk(s: State) {
    forall i | 0 <= i < |s.timers| :: s.timers[i].w < |s.waiters|
  }

  ghost predicate Inv(s: State) {
    && ReadyOk(s) && WaiterOk(s) && TaskOk(s) && ChanOk(s)
    && SlotOk(s) && FutureOk(s) && CallerOk(s) && TimerOk(s)
  }

  lemma InvWellFormed(s: State)
    requires Inv(s)
    ensures WellFormed(s)
  {
    forall i | 0 <= i < |s.ready| ensures IsTask(s, s.ready[i]) {
      assert s.ready[i] in s.ready;
    }
    forall c: nat, w: nat | c < |s.chans| && w in s.chans[c].parked ensures w < |s.waiters| {
      assert ChanHolds(s, c, w);
    }
  }

  // ------------------------------------------------------------ firing

  lemma FireKeeps(s: State, w: nat, cause: Waker)
    requires Inv(s) && w < |s.waiters| && cause != Nobody
    ensures Inv(Fire(s, w, cause))
  {
    var r := Fire(s, w, cause);
    if !s.waiters[w].fired {
      var h := s.waiters[w].h;
      assert h !in s.ready by { assert !Resumable(s, h); }
      forall k: nat ensures k in r.ready <==> Resumable(r, k) {
        assert k in r.ready <==> k in s.ready || k == h;
        if IsTask(s, k) && s.tasks[k].Parked? && k != h {
          assert s.tasks[k].w != w;
        }
      }
      forall c: nat, x: nat | c < |r.chans| && x in r.chans[c].parked ensures ChanHolds(r, c, x) {
        assert ChanHolds(s, c, x);
      }
    }
  }

  lemma {:induction false} FireAllKeeps(s: State, ws: seq<nat>, cause: Waker)
    requires Inv(s) && cause != Nobody
    requires forall i | 0 <= i < |ws| :: ws[i] < |s.waiters|
    ensures Inv(FireAll(s, ws, cause))
    decreases ws
  {
    if ws != [] {
      FireKeeps(s, ws[0], cause);
      FireAllKeeps(Fire(s, ws[0], cause), ws[1..], cause);
    }
  }

  /** A channel may be replaced by one that parks fewer waiters. */
  lemma ChanKeeps(s: State, c: nat, ch: Chan)
    requires Inv(s) && c < |s.chans|
    requires forall w :: multiset(ch.parked)[w] <= multiset(s.chans[c].parked)[w]
    ensures Inv(s.(chans := s.chans[c := ch]))
  {
    var r := s.(chans := s.chans[c := ch]);
    forall d: nat, w: nat | d < |r.chans| && w in r.chans[d].parked ensures ChanHolds(r, d, w) {
      assert multiset(r.chans[d].parked)[w] > 0;
      assert w in s.chans[d].parked by { assert multiset(s.chans[d].parked)[w] > 0; }
      assert ChanHolds(s, d, w);
    }
    forall h: nat ensures h in r.ready <==> Resumable(r, h) {
      assert Resumable(s, h) == Resumable(r, h);
    }
  }

  /** Waking a channel is taking some waiters out of it and firing some of those it held. */
  lemma WakeParts(s: State, c: nat, all: bool) returns (rest: seq<nat>, ws: seq<nat>)
    requires WellFormed(s) && c < |s.chans|
    ensures forall w :: multiset(rest)[w] <= multiset(s.chans[c].parked)[w]
    ensures forall i | 0 <= i < |ws| :: ws[i] in s.chans[c].parked && ws[i] < |s.waiters|
    ensures WakeChan(s, c, all) == FireAll(s.(chans := s.chans[c := s.chans[c].(parked := rest)]), ws, ByChan(c))
    ensures (if all then Woken([], WakeAll(s.chans[c].parked, FiredSet(s))) else WakeOne(s.chans[c].parked, FiredSet(s)))
            == Woken(rest, ws)
  {
    var parked, fired := s.chans[c].parked, FiredSet(s);
    WakeOneEffect(parked, fired);
    WakeAllEffect(parked, fired);
    ws := if all then WakeAll(parked, fired) else WakeOne(parked, fired).scheduled;
    rest := if all then [] else WakeOne(parked, fired).rest;
    forall i | 0 <= i < |ws| ensures ws[i] in parked {
      assert ws[i] in ws;
    }
  }

  lemma WakeChanKeeps(s: State, c: nat, all: bool)
    requires Inv(s) && WellFormed(s) && c < |s.chans|
    ensures Inv(WakeChan(s, c, all))
  {
    var rest, ws := WakeParts(s, c, all);
    ChanKeeps(s, c, s.chans[c].(parked := rest));
    FireAllKeeps(s.(chans := s.chans[c := s.chans[c].(parked := rest)]), ws, ByChan(c));
  }

  // ----------------------------------------------------------- suspending

  lemma ScheduleKeeps(s: State, t: nat)
    requires Inv(s) && IsTask(s, t)
    ensures Inv(Schedule(s, t))
  {
    var r := Schedule(s, t);
    if t in s.futures && !s.futures[t] && s.tasks[t] != Done {
      assert t !in s.ready by { assert !Resumable(s, t); }
      forall h: nat ensures h in r.ready <==> Resumable(r, h) {
        assert h in r.ready <==> h in s.ready || h == t;
        assert h != t ==> Resumable(s, h) == Resumable(r, h);
      }
      ChansKeep(s, r);
    }
  }

  /** ChanOk only looks at channels, waiters and parked coroutines. */
  lemma ChansKeep(s: State, r: State)
    requires ChanOk(s) && r.chans == s.chans
    requires |s.waiters| <= |r.waiters| && |s.tasks| <= |r.tasks|
    requires forall w | 0 <= w < |s.waiters| :: r.waiters[w].h == s.waiters[w].h
    requires forall h | 0 <= h < |s.tasks| && s.tasks[h].Parked? :: r.tasks[h] == s.tasks[h]
    ensures ChanOk(r)
  {
    forall c: nat, w: nat | c < |r.chans| && w in r.chans[c].parked ensures ChanHolds(r, c, w) {
      assert ChanHolds(s, c, w);
    }
  }

  lemma ReadyKeeps(s: State, r: State)
    requires ReadyOk(s) && r.ready == s.ready
    requires |s.tasks| <= |r.tasks|
    requires forall h | 0 <= h < |s.tasks| :: Resumable(s, h) == Resumable(r, h)
    requires forall h | |s.tasks| <= h < |r.tasks| :: !Resumable(r, h)
    ensures ReadyOk(r)
  {
  }

  lemma SlotKeeps(s: State, t: nat, w: nat)
    requires Inv(s) && IsTask(s, t) && w < |s.waiters| && ParkedOn(s, w, FutureArm(t))
    ensures Inv(s.(slot := s.slot[t := w]))
  {
    var r := s.(slot := s.slot[t := w]);
    ReadyKeeps(s, r);
    ChansKeep(s, r);
  }

  lemma TimersKeep(s: State, ts: seq<Timer<nat>>)
    requires Inv(s) && forall i | 0 <= i < |ts| :: ts[i].w < |s.waiters|
    ensures Inv(s.(timers := ts))
  {
    var r := s.(timers := ts);
    ReadyKeeps(s, r);
    ChansKeep(s, r);
  }

  /** What holds half-way through arming: `armed` are the arms already visited. */
  ghost predicate Arming(s: State, w: nat, armed: seq<Arm>, arms: seq<Arm>) {
    && Inv(s) && ArmsExist(s, arms)
    && w < |s.waiters| && IsTask(s, s.waiters[w].h)
    && s.tasks[s.waiters[w].h].Parked? && s.tasks[s.waiters[w].h].w == w
    && s.tasks[s.waiters[w].h].wait.Arms() == armed + arms
    && forall c: nat | c < |s.chans| :: multiset(s.chans[c].parked)[w] <= multiset(armed)[ChanArm(c)]
  }

  lemma ArmChanKeeps(s: State, c: nat, w: nat, armed: seq<Arm>, arms: seq<Arm>)
    requires arms != [] && Arming(s, w, armed, arms) && arms[0] == ChanArm(c)
    ensures Arming(ArmOne(s, arms[0], w), w, armed + [arms[0]], arms[1..])
  {
    var r, h := ArmOne(s, arms[0], w), s.waiters[w].h;
    assert ArmExists(s, arms[0]);
    assert armed + arms == (armed + [arms[0]]) + arms[1..];
    assert multiset(armed + arms) == multiset(armed + [arms[0]]) + multiset(arms[1..]);
    forall d: nat, x: nat | d < |r.chans| && x in r.chans[d].parked ensures ChanHolds(r, d, x) {
      if x != w {
        assert x in s.chans[d].parked;
        assert ChanHolds(s, d, x);
      } else if d != c {
        assert ChanHolds(s, d, x);
      } else {
        assert arms[0] in s.tasks[h].wait.Arms();
      }
    }
    forall k: nat ensures k in r.ready <==> Resumable(r, k) {
      assert Resumable(s, k) == Resumable(r, k);
    }
  }

  lemma ArmFutureKeeps(s: State, t: nat, w: nat, armed: seq<Arm>, arms: seq<Arm>)
    requires arms != [] && Arming(s, w, armed, arms) && arms[0] == FutureArm(t)
    ensures Arming(ArmOne(s, arms[0], w), w, armed + [arms[0]], arms[1..])
  {
    assert ArmExists(s, arms[0]);
    assert armed + arms == (armed + [arms[0]]) + arms[1..];
    if s.tasks[t].Done? {
      FireKeeps(s, w, ByFuture(t));
    } else {
      ScheduleKeeps(s, t);
      assert arms[0] in s.tasks[s.waiters[w].h].wait.Arms();
      SlotKeeps(Schedule(s, t), t, w);
    }
  }

  lemma {:induction false} ArmAllKeeps(s: State, w: nat, armed: seq<Arm>, arms: seq<Arm>)
    requires Arming(s, w, armed, arms)
    ensures Inv(ArmAll(s, arms, w))
    decreases arms
  {
    if arms != [] {
      match arms[0] {
        case ChanArm(c) => ArmChanKeeps(s, c, w, armed, arms);
        case FutureArm(t) => ArmFutureKeeps(s, t, w, armed, arms);
      }
      ArmAllKeeps(ArmOne(s, arms[0], w), w, armed + [arms[0]], arms[1..]);
    }
  }

  /** The state in which arming starts: the coroutine is parked on a new waiter. */
  function Park(s: State, h: nat, wait: Wait): State
    requires IsTask(s, h)
  {
    SetTask(s, h, Parked(|s.waiters|, wait)).(waiters := s.waiters + [Waiter(h, false, Nobody, 0)])
  }

  lemma ParkKeeps(s: State, h: nat, wait: Wait)
    requires Inv(s) && IsTask(s, h) && s.tasks[h] == Running && ArmsExist(s, wait.Arms())
    ensures Inv(Park(s, h, wait))
  {
    var r := Park(s, h, wait);
    assert WaiterOk(r) && TaskOk(r);
    ReadyKeeps(s, r);
    ChansKeep(s, r);
  }

  lemma ParkUnarmed(s: State, h: nat, wait: Wait)
    requires Inv(s) && IsTask(s, h) && s.tasks[h] == Running && ArmsExist(s, wait.Arms())
    ensures Arming(Park(s, h, wait), |s.waiters|, [], wait.Arms())
  {
    var w: nat := |s.waiters|;
    ParkKeeps(s, h, wait);
    forall c: nat | c < |s.chans| ensures multiset(s.chans[c].parked)[w] == 0 {
      assert w in s.chans[c].parked ==> ChanHolds(s, c, w);
    }
    assert [] + wait.Arms() == wait.Arms();
  }

  lemma SuspendKeeps(s: State, h: nat, wait: Wait, deadline: Maybe)
    requires Inv(s) && IsTask(s, h) && s.tasks[h] == Running && ArmsExist(s, wait.Arms())
    ensures Inv(Suspend(s, h, wait, deadline))
  {
    var w := |s.waiters|;
    var s1 := Park(s, h, wait);
    ParkUnarmed(s, h, wait);
    ArmAllKeeps(s1, w, [], wait.Arms());
    ArmAllFrame(s1, wait.Arms(), w);
    if deadline.At? {
      var s2 := ArmAll(s1, wait.Arms(), w);
      TimersKeep(s2, s2.timers + [Timer(deadline.deadline, w)]);
    }
  }

  lemma {:induction false} ArmAllFrame(s: State, arms: seq<Arm>, w: nat)
    requires ArmsExist(s, arms) && w < |s.waiters|
    ensures var r := ArmAll(s, arms, w);
      && |r.waiters| == |s.waiters| && r.timers == s.timers
    decreases arms
  {
    if arms != [] {
      ArmAllFrame(ArmOne(s, arms[0], w), arms[1..], w);
    }
  }

  // ------------------------------------------------------------- resuming

  /** What disarming `w` from `arms` does to one channel. */
  ghost predicate Disarmed(before: Chan, after: Chan, armed: nat, w: nat) {
    && after == before.(parked := after.parked)
    && (forall x | x != w :: multiset(after.parked)[x] == multiset(before.parked)[x])
    && multiset(after.parked)[w] ==
         if multiset(before.parked)[w] < armed then 0 else multiset(before.parked)[w] - armed
  }

  lemma DisarmOneChan(s: State, a: Arm, w: nat, c: nat)
    requires ArmExists(s, a) && c < |s.chans|
    ensures Disarmed(s.chans[c], DisarmOne(s, a, w).chans[c], if a == ChanArm(c) then 1 else 0, w)
  {
    UnparkEffect(s.chans[c].parked, w);
  }

  lemma DisarmedTwice(c0: Chan, c1: Chan, c2: Chan, m: nat, n: nat, w: nat)
    requires Disarmed(c0, c1, m, w) && Disarmed(c1, c2, n, w)
    ensures Disarmed(c0, c2, m + n, w)
  {
  }

  lemma {:induction false} DisarmChans(s: State, arms: seq<Arm>, w: nat, c: nat)
    requires ArmsExist(s, arms) && c < |s.chans|
    ensures Disarmed(s.chans[c], DisarmAll(s, arms, w).chans[c], multiset(arms)[ChanArm(c)], w)
    decreases arms
  {
    if arms != [] {
      var s' := DisarmOne(s, arms[0], w);
      DisarmOneChan(s, arms[0], w, c);
      DisarmChans(s', arms[1..], w, c);
      DisarmedTwice(s.chans[c], s'.chans[c], DisarmAll(s', arms[1..], w).chans[c],
                    if arms[0] == ChanArm(c) then 1 else 0, multiset(arms[1..])[ChanArm(c)], w);
      assert multiset(arms) == multiset{arms[0]} + multiset(arms[1..]) by {
        assert arms == [arms[0]] + arms[1..];
      }
    }
  }

  lemma {:induction false} DisarmSlots(s: State, arms: seq<Arm>, w: nat)
    requires ArmsExist(s, arms)
    ensures var r := DisarmAll(s, arms, w);
      && (forall t | t in r.slot :: t in s.slot && r.slot[t] == s.slot[t])
      && (forall t | t in r.slot && FutureArm(t) in arms :: s.tasks[t].Done?)
    decreases arms
  {
    if arms != [] {
      DisarmSlots(DisarmOne(s, arms[0], w), arms[1..], w);
    }
  }

  /** Disarming every arm takes the waiter out of every channel and keeps the other waiters. */
  lemma DisarmKeeps(s: State, h: nat)
    requires Inv(s) && IsTask(s, h) && s.tasks[h].Parked?
    ensures var w := s.tasks[h].w;
      var r := DisarmAll(s, s.tasks[h].wait.Arms(), w);
      && Inv(r)
      && (forall c: nat | c < |r.chans| :: w !in r.chans[c].parked)
      && (forall t | t in r.slot && r.slot[t] == w :: r.tasks[t].Done?)
  {
    var w, arms := s.tasks[h].w, s.tasks[h].wait.Arms();
    var r := DisarmAll(s, arms, w);
    DisarmSlots(s, arms, w);
    forall c: nat | c < |s.chans| ensures Disarmed(s.chans[c], r.chans[c], multiset(arms)[ChanArm(c)], w) {
      DisarmChans(s, arms, w, c);
    }
    forall c: nat, x: nat | c < |r.chans| && x in r.chans[c].parked ensures x != w && ChanHolds(r, c, x) {
      assert multiset(r.chans[c].parked)[x] > 0;
      assert Disarmed(s.chans[c], r.chans[c], multiset(arms)[ChanArm(c)], w);
      assert x in s.chans[c].parked by { assert multiset(s.chans[c].parked)[x] > 0; }
      assert ChanHolds(s, c, x);
    }
    ReadyKeeps(s, r);
  }
  /** A handle leaves the ready queue and runs, once no arm holds its waiter. */
  lemma RunLeaves(s: State, h: nat, r: State)
    requires ReadyOk(s) && s.ready != [] && s.ready[0] == h && IsTask(s, h)
    requires r == SetTask(s, h, Running).(ready := s.ready[1..])
    ensures ReadyOk(r)
  {
    forall k: nat ensures k in r.ready <==> Resumable(r, k) {
      assert k in s.ready <==> k == h || k in r.ready;
      assert k != h ==> Resumable(s, k) == Resumable(r, k);
    }
  }

  lemma RunKeeps(s: State, h: nat)
    requires Inv(s) && s.ready != [] && s.ready[0] == h
    requires IsTask(s, h) && (s.tasks[h].Queued? || s.tasks[h].Parked?)
    requires s.tasks[h].Parked? ==>
      && (forall c: nat | c < |s.chans| :: s.tasks[h].w !in s.chans[c].parked)
      && (forall t | t in s.slot && s.slot[t] == s.tasks[h].w :: s.tasks[t].Done?)
    ensures Inv(SetTask(s, h, Running).(ready := s.ready[1..]))
  {
    var r := SetTask(s, h, Running).(ready := s.ready[1..]);
    RunLeaves(s, h, r);
    assert Resumable(s, h) by { assert s.ready[0] in s.ready; }
    forall c: nat, x: nat | c < |r.chans| && x in r.chans[c].parked ensures ChanHolds(r, c, x) {
      assert ChanHolds(s, c, x);
    }
  }

  lemma TakeKeeps(s: State, c: nat)
    requires Inv(s) && c < |s.chans|
    ensures var r := Take(s, c);
      && Inv(r) && r == s.(chans := r.chans) && |r.chans| == |s.chans|
      && forall d: nat | d < |s.chans| :: r.chans[d].parked == s.chans[d].parked
  {
    if s.chans[c].q != [] {
      ChanKeeps(s, c, Take(s, c).chans[c]);
    }
  }

  lemma ResumeKeeps(s: State)
    requires Inv(s) && WellFormed(s) && s.ready != []
    ensures Inv(Resume(s))
    ensures s.tasks[s.ready[0]].Queued? || s.tasks[s.ready[0]].Parked?
  {
    var h := s.ready[0];
    assert Resumable(s, h) by { assert h in s.ready; }
    match s.tasks[h] {
      case Queued => RunKeeps(s, h);
      case Parked(w, wait) => ResumeParkedKeeps(s, h);
    }
  }

  lemma ResumeParkedKeeps(s: State, h: nat)
    requires Inv(s) && WellFormed(s) && s.ready != [] && s.ready[0] == h
    requires IsTask(s, h) && s.tasks[h].Parked?
    ensures Inv(Resume(s))
  {
    var w, wait := s.tasks[h].w, s.tasks[h].wait;
    DisarmKeeps(s, h);
    var s1 := DisarmAll(s, wait.Arms(), w);
    var i := Winner(s1, wait);
    var s2 := Dispatch(s1, wait, i);
    if i < |wait.Arms()| && wait.Arms()[i].ChanArm? {
      TakeKeeps(s1, wait.Arms()[i].c);
    }
    RunKeeps(s2, h);
  }

  // -------------------------------------------------- the remaining steps

  /** A change of a coroutine that is neither in the ready queue nor parked, before or after. */
  lemma TaskKeeps(s: State, h: nat, t: Task)
    requires Inv(s) && IsTask(s, h)
    requires s.tasks[h] in {Fresh, Running} || s.tasks[h].Awaiting?
    requires !t.Queued? && !t.Parked? && !t.Fresh?
    requires h in s.futures ==> s.futures[h]
    requires s.tasks[h].Awaiting? ==> s.tasks[h].callee !in s.caller || s.tasks[s.tasks[h].callee].Done?
    requires h in s.caller && !t.Done? && !s.tasks[h].Done? ==> s.tasks[s.caller[h]] == Awaiting(h)
    ensures Inv(SetTask(s, h, t))
  {
    var r := SetTask(s, h, t);
    ReadyKeeps(s, r);
    ChansKeep(s, r);
  }

  lemma FinishKeeps(s: State, h: nat)
    requires Inv(s) && WellFormed(s) && IsTask(s, h) && s.tasks[h] == Running
    ensures Inv(Finish(s, h))
  {
    var s1 := SetTask(s, h, Done);
    TaskKeeps(s, h, Done);
    if h in s.slot {
      FireKeeps(s1, s.slot[h], ByFuture(h));
    }
    if h in s.caller {
      var s2 := if h in s.slot then Fire(s1, s.slot[h], ByFuture(h)) else s1;
      TaskKeeps(s2, s.caller[h], Running);
    }
  }

  lemma ServiceKeeps(s: State)
    requires Inv(s) && WellFormed(s)
    ensures Inv(Service(s))
  {
    var live := Live(s.timers, FiredSet(s));
    if live == [] {
      TimersKeep(s, []);
    } else {
      var i := Earliest(live);
      var ts := live[..i] + live[i+1..];
      forall j | 0 <= j < |ts| ensures ts[j].w < |s.waiters| {
        LiveMembers(s.timers, FiredSet(s), ts[j]);
      }
      LiveMembers(s.timers, FiredSet(s), live[i]);
      TimersKeep(s, ts);
      FireKeeps(s.(timers := ts), live[i].w, ByTimer);
    }
  }

  lemma CallerKeeps(s: State, h: nat, t: nat)
    requires Inv(s) && IsTask(s, h) && IsTask(s, t) && s.tasks[h] == Awaiting(t) && !s.tasks[t].Fresh?
    ensures Inv(s.(caller := s.caller[t := h]))
  {
    var r := s.(caller := s.caller[t := h]);
    ReadyKeeps(s, r);
    ChansKeep(s, r);
  }

  lemma AwaitKeeps(s: State, h: nat, t: nat)
    requires Inv(s) && WellFormed(s) && Enabled(s, Await(h, t))
    ensures Inv(Step(s, Await(h, t)))
  {
    var s1 := SetTask(s, h, Awaiting(t));
    TaskKeeps(s, h, Awaiting(t));
    TaskKeeps(s1, t, Running);
    CallerKeeps(SetTask(s1, t, Running), h, t);
  }

  lemma NewChanKeeps(s: State, ch: Chan)
    requires Inv(s) && ch.parked == []
    ensures Inv(s.(chans := s.chans + [ch]))
  {
    var r := s.(chans := s.chans + [ch]);
    ReadyKeeps(s, r);
    forall c: nat, x: nat | c < |r.chans| && x in r.chans[c].parked ensures ChanHolds(r, c, x) {
      assert ChanHolds(s, c, x);
    }
  }

  lemma NewTaskKeeps(s: State)
    requires Inv(s)
    ensures Inv(s.(tasks := s.tasks + [Fresh]))
  {
    var r := s.(tasks := s.tasks + [Fresh]);
    ReadyKeeps(s, r);
    ChansKeep(s, r);
  }

  lemma MakeFutureKeeps(s: State, t: nat)
    requires Inv(s) && IsTask(s, t) && s.tasks[t].Fresh?
    ensures Inv(s.(futures := s.futures[t := false]))
  {
    var r := s.(futures := s.futures[t := false]);
    ReadyKeeps(s, r);
    ChansKeep(s, r);
  }

  lemma WokenKeeps(s: State, s0: State, c: nat, all: bool)
    requires Inv(s) && c < |s.chans| == |s0.chans| && s0 == s.(chans := s.chans[c := s0.chans[c]])
    requires s0.chans[c].parked == s.chans[c].parked
    ensures WellFormed(s0) && Inv(WakeChan(s0, c, all))
  {
    ChanKeeps(s, c, s0.chans[c]);
    InvWellFormed(s0);
    WakeChanKeeps(s0, c, all);
  }

  lemma ChannelOpKeeps(s: State, op: Op)
    requires Inv(s) && WellFormed(s) && Enabled(s, op)
    requires op.Send? || op.Close? || op.Poll?
    ensures Inv(Step(s, op))
  {
    match op {
      case Send(c, v) => WokenKeeps(s, Enqueue(s, c, v), c, false);
      case Close(c) => WokenKeeps(s, Shut(s, c), c, true);
      case Poll(c) => TakeKeeps(s, c);
    }
  }

  lemma WaitOpKeeps(s: State, op: Op)
    requires Inv(s) && WellFormed(s) && Enabled(s, op)
    requires op.Receive? || op.Select?
    ensures Inv(Step(s, op))
  {
    match op {
      case Receive(h, c) =>
        if s.chans[c].Ready() { TakeKeeps(s, c); } else { SuspendKeeps(s, h, Receiving(c), Absent); }
      case Select(h, arms, deadline) =>
        var i := FirstReady(s, arms);
        if i == |arms| {
          SuspendKeeps(s, h, Selecting(arms, deadline.At?), deadline);
        } else if arms[i].ChanArm? {
          TakeKeeps(s, arms[i].c);
        }
    }
  }

  /** Every step of the runtime keeps the invariant. */
  lemma StepKeeps(s: State, op: Op)
    requires Inv(s) && WellFormed(s) && Enabled(s, op)
    ensures Inv(Step(s, op)) && WellFormed(Step(s, op))
  {
    match op {
      case NewChan => NewChanKeeps(s, Chan([], [], false, [], []));
      case NewTask => NewTaskKeeps(s);
      case MakeFuture(t) => MakeFutureKeeps(s, t);
      case EnsureScheduled(t) => ScheduleKeeps(s, t);
      case Await(h, t) => AwaitKeeps(s, h, t);
      case Complete(h) => FinishKeeps(s, h);
      case Send(_, _) => ChannelOpKeeps(s, op);
      case Close(_) => ChannelOpKeeps(s, op);
      case Poll(_) => ChannelOpKeeps(s, op);
      case Receive(_, _) => WaitOpKeeps(s, op);
      case Select(_, _, _) => WaitOpKeeps(s, op);
      case RunNext => ResumeKeeps(s);
      case ServiceTimers => ServiceKeeps(s);
    }
    InvWellFormed(Step(s, op));
  }

  // ---------------------------------------------------------- whole runs

  /** `run` can be performed from the initial state and ends in `s`. */
  ghost predicate Reaches(run: seq<Op>, s: State)
    decreases run
  {
    if run == [] then s == Init()
    else exists p :: Reaches(run[..|run|-1], p) && WellFormed(p)
                     && Enabled(p, run[|run|-1]) && s == Step(p, run[|run|-1])
  }

  lemma {:induction false} ReachableInv(run: seq<Op>, s: State)
    requires Reaches(run, s)
    ensures Inv(s)
    decreases run
  {
    if run != [] {
      var p :| Reaches(run[..|run|-1], p) && WellFormed(p)
               && Enabled(p, run[|run|-1]) && s == Step(p, run[|run|-1]);
      ReachableInv(run[..|run|-1], p);
      StepKeeps(p, run[|run|-1]);
    }
  }

  /** In every state any run reaches: the ready queue holds no handle twice; a waiter has been
      scheduled once if it fired and never if it has not; a coroutine parked on an unfired waiter
      is not in the ready queue; and a channel or an unfinished future holds a waiter only while
      its coroutine is still parked on it, so after a select resumes its waiter is in no arm. */
  lemma AtMostOnceResumption(run: seq<Op>, s: State)
    requires Reaches(run, s)
    ensures NoDuplicates(s.ready)
    ensures forall w | 0 <= w < |s.waiters| :: s.waiters[w].wakes == if s.waiters[w].fired then 1 else 0
    ensures forall h | h in s.ready :: Resumable(s, h)
    ensures forall h: nat | IsTask(s, h) && s.tasks[h].Parked? ::
      s.tasks[h].w < |s.waiters| && (h in s.ready <==> s.waiters[s.tasks[h].w].fired)
    ensures forall c: nat, w: nat | c < |s.chans| && w in s.chans[c].parked :: ParkedOn(s, w, ChanArm(c))
    ensures forall t | t in s.slot && IsTask(s, t) && !s.tasks[t].Done? :: ParkedOn(s, s.slot[t], FutureArm(t))
  {
    ReachableInv(run, s);
    forall c: nat, w: nat | c < |s.chans| && w in s.chans[c].parked ensures ParkedOn(s, w, ChanArm(c)) {
      assert ChanHolds(s, c, w);
    }
  }
}
