/** The runtime's objects, updated in place and shared by reference: each method is tied to the
    functions of ParkedQueue and TimerQueue, which are the building blocks of module Machine. */
module Runtime {
  import PQ = ParkedQueue
  import TQ = TimerQueue

  type Handle = nat

  /** Shared between the suspended coroutine and everything it parked on. */
  class Waiter {
    const h: Handle
    var fired: bool

    constructor (h: Handle)
      ensures this.h == h && !fired
    {
      this.h := h;
      fired := false;
    }
  }

  ghost function FiredIn(ws: set<Waiter>): set<Waiter>
    reads ws
  {
    set w | w in ws && w.fired
  }

  function Handles(ws: seq<Waiter>): seq<Handle> {
    seq(|ws|, i requires 0 <= i < |ws| => ws[i].h)
  }

  class Scheduler {
    var ready: seq<Handle>
    var timers: seq<TQ.Timer<Waiter>>

    constructor ()
      ensures ready == [] && timers == []
    {
      ready, timers := [], [];
    }

    method Schedule(h: Handle)
      modifies this`ready
      ensures ready == old(ready) + [h]
    {
      ready := ready + [h];
    }

    method AddTimer(deadline: int, w: Waiter)
      modifies this`timers
      ensures timers == old(timers) + [TQ.Timer(deadline, w)]
    {
      timers := timers + [TQ.Timer(deadline, w)];
    }

    /** Fire a waiter unless it has fired already. */
    method Fire(w: Waiter)
      modifies this`ready, w`fired
      ensures w.fired
      ensures ready == if old(w.fired) then old(ready) else old(ready) + [w.h]
    {
      if !w.fired {
        w.fired := true;
        Schedule(w.h);
      }
    }

    ghost function TimedWaiters(): set<Waiter>
      reads this
    {
      set i | 0 <= i < |timers| :: timers[i].w
    }

    /** The turn of the run loop taken when the ready queue is empty: timers whose waiter has
        fired are dropped, and the earliest of the others fires. */
    method ServiceTimers() returns (idle: bool)
      requires ready == []
      modifies this, TimedWaiters()
      ensures var live := TQ.Live(old(timers), old(FiredIn(TimedWaiters())));
        && idle == (live == [])
        && (idle ==> timers == [] && ready == [])
        && (!idle ==>
              var i := TQ.Earliest(live);
              && timers == live[..i] + live[i+1..]
              && live[i].w.fired && ready == [live[i].w.h])
      ensures forall w | w in old(TimedWaiters()) && w.fired != old(w.fired) :: ready == [w.h]
    {
      ghost var fired := FiredIn(TimedWaiters());
      var live := [];
      var i := 0;
      while i < |timers|
        invariant 0 <= i <= |timers| && timers == old(timers) && ready == []
        invariant live == TQ.Live(timers[..i], fired)
        invariant forall w | w in old(TimedWaiters()) :: w.fired == old(w.fired)
      {
        TQ.LiveAppend(timers[..i], timers[i], fired);
        assert timers[..i+1] == timers[..i] + [timers[i]];
        assert timers[i].w in old(TimedWaiters());
        if !timers[i].w.fired {
          live := live + [timers[i]];
        }
        i := i + 1;
      }
      assert timers[..i] == timers;
      if live == [] {
        timers := [];
        return true;
      }
      var best := LeastDeadline(live);
      TQ.LiveMembers(old(timers), fired, live[best]);
      assert live[best].w in old(TimedWaiters());
      timers := live[..best] + live[best+1..];
      Fire(live[best].w);
      return false;
    }
  }

  /** `std::min_element` over the deadlines. */
  method LeastDeadline(ts: seq<TQ.Timer<Waiter>>) returns (best: nat)
    requires ts != []
    ensures best == TQ.Earliest(ts)
  {
    best := 0;
    for i := 1 to |ts|
      invariant best < i
      invariant forall j | 0 <= j < i :: ts[best].deadline <= ts[j].deadline
      invariant forall j | 0 <= j < best :: ts[best].deadline < ts[j].deadline
    {
      if ts[i].deadline < ts[best].deadline {
        best := i;
      }
    }
    var e := TQ.Earliest(ts);
    assert ts[e].deadline == ts[best].deadline;
  }

  class Channel<T> {
    var q: seq<T>
    var waiters: seq<Waiter>
    var closed: bool

    constructor ()
      ensures q == [] && waiters == [] && !closed
    {
      q, waiters, closed := [], [], false;
    }

    predicate Ready()
      reads this
    {
      q != [] || closed
    }

    ghost function ParkedSet(): set<Waiter>
      reads this
    {
      set w | w in waiters
    }

    method Park(w: Waiter)
      modifies this`waiters
      ensures waiters == old(waiters) + [w]
    {
      waiters := waiters + [w];
    }

    method Unpark(w: Waiter)
      modifies this`waiters
      ensures waiters == PQ.Unpark(old(waiters), w)
    {
      var i := 0;
      while i < |waiters|
        invariant 0 <= i <= |waiters| && waiters == old(waiters)
        invariant PQ.Unpark(waiters, w) == waiters[..i] + PQ.Unpark(waiters[i..], w)
      {
        if waiters[i] == w {
          waiters := waiters[..i] + waiters[i+1..];
          return;
        }
        assert waiters[..i+1] == waiters[..i] + [waiters[i]];
        i := i + 1;
      }
    }

    method WakeOne(s: Scheduler)
      modifies this`waiters, s`ready, ParkedSet()
      ensures var r := PQ.WakeOne(old(waiters), old(FiredIn(ParkedSet())));
        && waiters == r.rest
        && s.ready == old(s.ready) + Handles(r.scheduled)
        && forall w | w in old(waiters) :: w.fired <==> old(w.fired) || w in r.scheduled
    {
      ghost var all := ParkedSet();
      ghost var fired := FiredIn(all);
      while waiters != []
        invariant PQ.WakeOne(waiters, fired) == PQ.WakeOne(old(waiters), fired)
        invariant forall w | w in waiters :: w in all
        invariant s.ready == old(s.ready)
        invariant forall w | w in all :: w.fired == old(w.fired)
        decreases |waiters|
      {
        var w := waiters[0];
        waiters := waiters[1..];
        if !w.fired {
          w.fired := true;
          s.Schedule(w.h);
          return;
        }
      }
    }

    method WakeAll(s: Scheduler)
      modifies this`waiters, s`ready, ParkedSet()
      ensures waiters == []
      ensures var woken := PQ.WakeAll(old(waiters), old(FiredIn(ParkedSet())));
        && s.ready == old(s.ready) + Handles(woken)
        && forall w | w in old(waiters) :: w.fired <==> old(w.fired) || w in woken
    {
      ghost var all := ParkedSet();
      ghost var woken := [];
      ghost var target := PQ.WakeAll(waiters, FiredIn(all));
      while waiters != []
        invariant target == woken + PQ.WakeAll(waiters, FiredIn(all))
        invariant forall w | w in waiters :: w in all
        invariant s.ready == old(s.ready) + Handles(woken)
        invariant forall w | w in all :: w.fired <==> old(w.fired) || w in woken
        decreases |waiters|
      {
        var w := waiters[0];
        ghost var fired := FiredIn(all);
        waiters := waiters[1..];
        if !w.fired {
          w.fired := true;
          s.Schedule(w.h);
          woken := woken + [w];
          assert FiredIn(all) == fired + {w};
        }
      }
    }

    method Send(v: T, s: Scheduler)
      modifies this`q, this`waiters, s`ready, ParkedSet()
      ensures q == old(q) + [v] && closed == old(closed)
      ensures var r := PQ.WakeOne(old(waiters), old(FiredIn(ParkedSet())));
        && waiters == r.rest
        && s.ready == old(s.ready) + Handles(r.scheduled)
        && forall w | w in old(waiters) :: w.fired <==> old(w.fired) || w in r.scheduled
    {
      q := q + [v];
      WakeOne(s);
    }

    method Close(s: Scheduler)
      modifies this`closed, this`waiters, s`ready, ParkedSet()
      ensures closed && waiters == [] && q == old(q)
      ensures var woken := PQ.WakeAll(old(waiters), old(FiredIn(ParkedSet())));
        && s.ready == old(s.ready) + Handles(woken)
        && forall w | w in old(waiters) :: w.fired <==> old(w.fired) || w in woken
    {
      closed := true;
      WakeAll(s);
    }

    /** `recv` and `sel_take`: the front value, or nothing when the queue is empty. */
    method Take() returns (front: seq<T>)
      modifies this`q
      ensures old(q) == front + q && |front| <= 1
      ensures front == [] <==> old(q) == []
    {
      if q == [] {
        return [];
      }
      front := [q[0]];
      q := q[1..];
    }

    /** `await_suspend` of a receive: park a new waiter for the caller's handle. */
    method Suspend(h: Handle) returns (w: Waiter)
      modifies this`waiters
      ensures fresh(w) && w.h == h && !w.fired && waiters == old(waiters) + [w]
    {
      w := new Waiter(h);
      Park(w);
    }

    /** `await_resume` of a receive that parked. */
    method Resume(w: Waiter) returns (front: seq<T>)
      modifies this`q, this`waiters
      ensures waiters == PQ.Unpark(old(waiters), w)
      ensures old(q) == front + q && |front| <= 1
      ensures front == [] <==> old(q) == []
    {
      Unpark(w);
      front := Take();
    }
  }

  // ---------------------------------------------------------------- select

  /** What a select waits on. */
  datatype Arm<T> = OfChannel(c: Channel<T>) | OfFuture(f: Future)

  function Channels<T>(arms: seq<Arm<T>>): set<Channel<T>> { set a | a in arms && a.OfChannel? :: a.c }

  function Futures<T>(arms: seq<Arm<T>>): set<Future> { set a | a in arms && a.OfFuture? :: a.f }

  predicate IsReady<T>(a: Arm<T>)
    reads if a.OfChannel? then {a.c as object} else {a.f as object}
  {
    if a.OfChannel? then a.c.Ready() else a.f.done
  }

  function Count<T>(arms: seq<Arm<T>>, a: Arm<T>): nat {
    multiset(arms)[a]
  }

  function UnparkTimes(ws: seq<Waiter>, w: Waiter, n: nat): seq<Waiter>
    decreases n
  {
    if n == 0 then ws else PQ.Unpark(UnparkTimes(ws, w, n - 1), w)
  }

  function ParkTimes(ws: seq<Waiter>, w: Waiter, n: nat): seq<Waiter>
    decreases n
  {
    if n == 0 then ws else ParkTimes(ws, w, n - 1) + [w]
  }

  /** `first_ready`: the first ready arm in source order, or -1. */
  method FirstReady<T>(arms: seq<Arm<T>>) returns (r: int)
    ensures -1 <= r < |arms|
    ensures r >= 0 ==> IsReady(arms[r]) && forall j | 0 <= j < r :: !IsReady(arms[j])
    ensures r == -1 ==> forall j | 0 <= j < |arms| :: !IsReady(arms[j])
  {
    for i := 0 to |arms|
      invariant forall j | 0 <= j < i :: !IsReady(arms[j])
    {
      if IsReady(arms[i]) {
        return i;
      }
    }
    return -1;
  }

  lemma CountNext<T>(arms: seq<Arm<T>>, i: nat, a: Arm<T>)
    requires i < |arms|
    ensures Count(arms[..i+1], a) == Count(arms[..i], a) + (if arms[i] == a then 1 else 0)
  {
    assert arms[..i+1] == arms[..i] + [arms[i]];
  }

  ghost function Begun<T>(arms: seq<Arm<T>>): set<Future>
    reads Futures(arms)
  {
    set f | f in Futures(arms) && f.scheduled
  }

  /** The ready queue after arming has scheduled, in order, the futures not begun. */
  function Started<T>(ready: seq<Handle>, arms: seq<Arm<T>>, begun: set<Future>): seq<Handle> {
    if arms == [] then ready
    else
      var n := |arms| - 1;
      var before := Started(ready, arms[..n], begun);
      if arms[n].OfFuture? && arms[n].f !in begun && arms[n] !in arms[..n] then before + [arms[n].f.h]
      else before
  }

  lemma StartedNext<T>(ready: seq<Handle>, arms: seq<Arm<T>>, i: nat, begun: set<Future>)
    requires i < |arms|
    ensures var before := Started(ready, arms[..i], begun);
      Started(ready, arms[..i+1], begun) ==
      if arms[i].OfFuture? && arms[i].f !in begun && arms[i] !in arms[..i] then before + [arms[i].f.h] else before
    ensures forall a :: a in arms[..i+1] <==> a in arms[..i] || a == arms[i]
  {
    assert arms[..i+1][..i] == arms[..i];
  }

  /** `await_suspend` of a select, none of whose arms is ready: one waiter is parked once per
      channel arm and remembered by every future, which is scheduled unless it was; and a timeout
      registers a timer for it. */
  method SelectSuspend<T>(arms: seq<Arm<T>>, h: Handle, deadline: seq<int>, s: Scheduler) returns (w: Waiter)
    requires |deadline| <= 1 && forall a | a in arms :: !IsReady(a)
    modifies Channels(arms)`waiters, Futures(arms)`scheduled, Futures(arms)`selectWaiter, s`timers, s`ready
    ensures fresh(w) && w.h == h && !w.fired
    ensures forall c | c in Channels(arms) :: c.waiters == ParkTimes(old(c.waiters), w, Count(arms, OfChannel(c)))
    ensures forall f | f in Futures(arms) :: f.scheduled && f.selectWaiter == [w]
    ensures s.ready == Started(old(s.ready), arms, old(Begun(arms)))
    ensures s.timers == old(s.timers) + if deadline == [] then [] else [TQ.Timer(deadline[0], w)]
  {
    w := new Waiter(h);
    ArmEach(arms, w, s);
    if |deadline| == 1 {
      s.AddTimer(deadline[0], w);
    }
  }

  method ArmEach<T>(arms: seq<Arm<T>>, w: Waiter, s: Scheduler)
    requires forall a | a in arms :: !IsReady(a)
    modifies Channels(arms)`waiters, Futures(arms)`scheduled, Futures(arms)`selectWaiter, s`ready
    ensures forall c | c in Channels(arms) :: c.waiters == ParkTimes(old(c.waiters), w, Count(arms, OfChannel(c)))
    ensures forall f | f in Futures(arms) :: f.scheduled && f.selectWaiter == [w]
    ensures s.ready == Started(old(s.ready), arms, old(Begun(arms)))
  {
    ghost var begun := Begun(arms);
    for i := 0 to |arms|
      invariant forall f | f in Futures(arms) && OfFuture(f) in arms[..i] :: f.scheduled && f.selectWaiter == [w]
      invariant forall f | f in Futures(arms) && OfFuture(f) !in arms[..i] :: f.scheduled == old(f.scheduled)
      invariant s.ready == Started(old(s.ready), arms[..i], begun)
      invariant forall c | c in Channels(arms) :: c.waiters == ParkTimes(old(c.waiters), w, Count(arms[..i], OfChannel(c)))
    {
      forall c | c in Channels(arms) { CountNext(arms, i, OfChannel(c)); }
      StartedNext(old(s.ready), arms, i, begun);
      assert arms[i] in arms;
      match arms[i]
      case OfChannel(c) => c.Park(w);
      case OfFuture(f) => f.Arm(w, s);
    }
    assert arms[..|arms|] == arms;
  }

  /** `await_resume` of a select: the waiter is taken out once per channel arm, unfinished futures
      forget it, and the winner is the first ready arm, else the timeout's index. */
  method SelectResume<T>(arms: seq<Arm<T>>, w: Waiter, timeoutIndex: int) returns (winner: int)
    modifies Channels(arms)`waiters, Futures(arms)`selectWaiter
    ensures forall c | c in Channels(arms) :: c.waiters == UnparkTimes(old(c.waiters), w, Count(arms, OfChannel(c)))
    ensures forall f | f in Futures(arms) :: f.selectWaiter == if f.done then old(f.selectWaiter) else []
    ensures (0 <= winner < |arms| && IsReady(arms[winner]) && forall j | 0 <= j < winner :: !IsReady(arms[j]))
            || (winner == timeoutIndex && forall j | 0 <= j < |arms| :: !IsReady(arms[j]))
  {
    for i := 0 to |arms|
      invariant forall c | c in Channels(arms) :: c.waiters == UnparkTimes(old(c.waiters), w, Count(arms[..i], OfChannel(c)))
      invariant forall f | f in Futures(arms) ::
        f.selectWaiter == if !f.done && OfFuture(f) in arms[..i] then [] else old(f.selectWaiter)
    {
      forall c | c in Channels(arms) { CountNext(arms, i, OfChannel(c)); }
      assert arms[..i+1] == arms[..i] + [arms[i]];
      assert arms[i] in arms;
      match arms[i]
      case OfChannel(c) => c.Unpark(w);
      case OfFuture(f) => f.Disarm();
    }
    assert arms[..|arms|] == arms;
    var r := FirstReady(arms);
    return if r >= 0 then r else timeoutIndex;
  }

  /** After a select has resumed, its waiter is parked on no arm, however many arms name the
      same channel and whichever of them woke it. */
  lemma {:induction false} UnparkedEverywhere(ws: seq<Waiter>, w: Waiter, n: nat)
    ensures multiset(UnparkTimes(ws, w, n))[w] == if multiset(ws)[w] < n then 0 else multiset(ws)[w] - n
    ensures forall x | x != w :: multiset(UnparkTimes(ws, w, n))[x] == multiset(ws)[x]
    decreases n
  {
    if n > 0 {
      UnparkedEverywhere(ws, w, n - 1);
      PQ.UnparkEffect(UnparkTimes(ws, w, n - 1), w);
    }
  }

  // --------------------------------------------------------------- futures

  /** A future and the flags of the coroutine it owns. */
  class Future {
    const h: Handle
    var done: bool
    var scheduled: bool
    var selectWaiter: seq<Waiter>  // at most one

    constructor (h: Handle)
      ensures this.h == h && !done && !scheduled && selectWaiter == []
    {
      this.h := h;
      done, scheduled, selectWaiter := false, false, [];
    }

    /** However often it is called, the coroutine is queued once. */
    method EnsureScheduled(s: Scheduler)
      modifies this`scheduled, s`ready
      ensures s.ready == if old(scheduled) || done then old(s.ready) else old(s.ready) + [h]
      ensures scheduled == (old(scheduled) || !done)
    {
      if !done && !scheduled {
        s.Schedule(h);
        scheduled := true;
      }
    }

    method Arm(w: Waiter, s: Scheduler)
      modifies this`scheduled, this`selectWaiter, s`ready, (if done then {w} else {})`fired
      ensures done ==>
        && w.fired && selectWaiter == old(selectWaiter) && scheduled == old(scheduled)
        && s.ready == if old(w.fired) then old(s.ready) else old(s.ready) + [w.h]
      ensures !done ==>
        && w.fired == old(w.fired) && selectWaiter == [w] && scheduled
        && s.ready == if old(scheduled) then old(s.ready) else old(s.ready) + [h]
    {
      if done {
        s.Fire(w);
        return;
      }
      EnsureScheduled(s);
      selectWaiter := [w];
    }

    method Disarm()
      modifies this`selectWaiter
      ensures selectWaiter == if done then old(selectWaiter) else []
    {
      if !done {
        selectWaiter := [];
      }
    }

    /** Completion of the coroutine fires the remembered waiter, if it has not fired. */
    method Complete(s: Scheduler)
      requires |selectWaiter| <= 1
      modifies this`done, s`ready, (set w | w in selectWaiter)`fired
      ensures done && selectWaiter == old(selectWaiter)
      ensures selectWaiter == [] ==> s.ready == old(s.ready)
      ensures selectWaiter != [] ==>
        && selectWaiter[0].fired
        && s.ready == if old(selectWaiter[0].fired) then old(s.ready) else old(s.ready) + [selectWaiter[0].h]
    {
      done := true;
      if selectWaiter != [] {
        s.Fire(selectWaiter[0]);
      }
    }
  }
}
