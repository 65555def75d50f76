/** Runs outside the disciplines of modules Discipline and Streams, and what goes wrong. */
module Counterexamples {
  import opened ParkedQueue
  import opened TimerQueue
  import opened Machine
  import opened Safety
  import opened Wakeups
  import opened Discipline
  import opened Streams
  import opened Fetches

  ghost predicate Busy(s: State) { exists h: nat :: IsTask(s, h) && s.tasks[h] == Running }

  /** One thing at a time: some coroutine runs, and the operation is its own; or none does, and the
      run loop turns. */
  ghost predicate InTurn(s: State, op: Op) {
    if op == RunNext || op == ServiceTimers then !Busy(s) else Busy(s)
  }

  ghost predicate TakesTurns(run: seq<Op>, s: State)
    decreases |run|
  {
    if run == [] then s == Init()
    else
      var op := run[|run| - 1];
      exists p :: (TakesTurns(run[..|run| - 1], p) && WellFormed(p) && Enabled(p, op) && InTurn(p, op) && s == Step(p, op))
  }

  lemma {:induction false} TurnsReach(run: seq<Op>, s: State)
    requires TakesTurns(run, s)
    ensures Reaches(run, s)
    decreases |run|
  {
    if run != [] {
      var op := run[|run| - 1];
      var p :| TakesTurns(run[..|run| - 1], p) && WellFormed(p) && Enabled(p, op) && InTurn(p, op) && s == Step(p, op);
      TurnsReach(run[..|run| - 1], p);
    }
  }

  ghost predicate Reachable(s: State) { exists run :: TakesTurns(run, s) }

  lemma Start()
    ensures Reachable(Init())
  {
    assert TakesTurns([], Init());
  }

  lemma Next(s: State, op: Op)
    requires Reachable(s) && Enabled(s, op) && InTurn(s, op)
    ensures WellFormed(s) && Reachable(Step(s, op))
  {
    var run :| TakesTurns(run, s);
    TurnsReach(run, s);
    ReachableInv(run, s);
    InvWellFormed(s);
    OneTurnMore(run, s, op, Step(s, op));
  }

  lemma OneTurnMore(run: seq<Op>, s: State, op: Op, t: State)
    requires TakesTurns(run, s) && WellFormed(s) && Enabled(s, op) && InTurn(s, op) && t == Step(s, op)
    ensures Reachable(t)
  {
    assert (run + [op])[..|run|] == run;
    assert TakesTurns(run + [op], t);
  }

  lemma Runs(s: State, h: nat)
    requires IsTask(s, h) && s.tasks[h] == Running
    ensures Busy(s)
  {
  }

  // ------------------------------------------------ single steps, in the large

  lemma Open(s: State)
    requires Reachable(s) && Busy(s)
    ensures Reachable(s.(chans := s.chans + [Chan([], [], false, [], [])]))
  {
    Next(s, NewChan);
  }

  lemma Create(s: State)
    requires Reachable(s) && Busy(s)
    ensures Reachable(s.(tasks := s.tasks + [Fresh]))
  {
    Next(s, NewTask);
  }

  lemma Own(s: State, t: nat)
    requires Reachable(s) && Busy(s) && IsTask(s, t) && s.tasks[t] == Fresh && t !in s.futures
    ensures Reachable(s.(futures := s.futures[t := false]))
  {
    Next(s, MakeFuture(t));
  }

  lemma Queue(s: State, t: nat)
    requires Reachable(s) && Busy(s) && IsTask(s, t) && s.tasks[t] == Fresh && t in s.futures && !s.futures[t]
    ensures Reachable(s.(tasks := s.tasks[t := Queued], futures := s.futures[t := true], ready := s.ready + [t]))
  {
    Next(s, EnsureScheduled(t));
  }

  lemma CreateOwned(s: State, h: nat)
    requires Reachable(s) && IsTask(s, h) && s.tasks[h] == Running && |s.tasks| !in s.futures
    ensures Reachable(s.(tasks := s.tasks + [Fresh], futures := s.futures[|s.tasks| := false]))
  {
    Runs(s, h);
    Create(s);
    var s1 := s.(tasks := s.tasks + [Fresh]);
    Runs(s1, h);
    Own(s1, |s.tasks|);
  }

  lemma QueueLast(s: State, h: nat, tasks: seq<Task>, futures: map<nat, bool>)
    requires Reachable(s) && s.tasks == tasks + [Fresh] && h < |tasks| && tasks[h] == Running
    requires |tasks| in s.futures && !s.futures[|tasks|] && futures == s.futures[|tasks| := true]
    ensures Reachable(s.(tasks := tasks + [Queued], futures := futures, ready := s.ready + [|tasks|]))
  {
    Runs(s, h);
    Queue(s, |tasks|);
    assert s.tasks[|tasks| := Queued] == tasks + [Queued];
  }

  lemma Spawn(s: State, h: nat)
    requires Reachable(s) && IsTask(s, h) && s.tasks[h] == Running && |s.tasks| !in s.futures
    ensures var t := |s.tasks|;
      Reachable(s.(tasks := s.tasks + [Queued], futures := s.futures[t := true], ready := s.ready + [t]))
  {
    var t := |s.tasks|;
    CreateOwned(s, h);
    assert s.futures[t := false][t := true] == s.futures[t := true];
    QueueLast(s.(tasks := s.tasks + [Fresh], futures := s.futures[t := false]), h, s.tasks, s.futures[t := true]);
  }

  lemma RunQueued(s: State)
    requires Reachable(s) && !Busy(s) && s.ready != [] && IsTask(s, s.ready[0]) && s.tasks[s.ready[0]] == Queued
    ensures Reachable(s.(tasks := s.tasks[s.ready[0] := Running], ready := s.ready[1..]))
  {
    Next(s, RunNext);
  }

  lemma Block(s: State, h: nat, c: nat)
    requires Reachable(s) && IsTask(s, h) && s.tasks[h] == Running && c < |s.chans| && !s.chans[c].Ready()
    ensures Reachable(s.(tasks := s.tasks[h := Parked(|s.waiters|, Receiving(c))],
                         waiters := s.waiters + [Waiter(h, false, Nobody, 0)],
                         chans := s.chans[c := s.chans[c].(parked := s.chans[c].parked + [|s.waiters|])]))
  {
    Runs(s, h);
    Next(s, Receive(h, c));
    var s1, w := Park(s, h, Receiving(c)), |s.waiters|;
    assert ArmAll(s1, [ChanArm(c)], w) == ArmAll(ArmOne(s1, ChanArm(c), w), [], w);
  }

  lemma NeitherReady(s: State, c: nat, d: nat)
    requires c < |s.chans| && d < |s.chans|
    requires !s.chans[c].Ready() && !s.chans[d].Ready()
    ensures ArmsExist(s, [ChanArm(c), ChanArm(d)]) && FirstReady(s, [ChanArm(c), ChanArm(d)]) == 2
  {
    assert [ChanArm(c), ChanArm(d)][1..] == [ChanArm(d)];
    assert FirstReady(s, [ChanArm(d)]) == 1 + FirstReady(s, []);
  }

  lemma ArmTwo(s: State, c: nat, d: nat, w: nat)
    requires c < |s.chans| && d < |s.chans| && c != d && w < |s.waiters|
    ensures ArmAll(s, [ChanArm(c), ChanArm(d)], w)
      == s.(chans := s.chans[c := s.chans[c].(parked := s.chans[c].parked + [w])]
                            [d := s.chans[d].(parked := s.chans[d].parked + [w])])
  {
    var s1 := ArmOne(s, ChanArm(c), w);
    assert [ChanArm(c), ChanArm(d)][1..] == [ChanArm(d)];
    assert ArmAll(s1, [ChanArm(d)], w) == ArmAll(ArmOne(s1, ChanArm(d), w), [], w);
  }

  lemma BlockOnTwo(s: State, h: nat, c: nat, d: nat)
    requires Reachable(s) && IsTask(s, h) && s.tasks[h] == Running && c < |s.chans| && d < |s.chans|
    requires !s.chans[c].Ready() && !s.chans[d].Ready()
    ensures var arms := [ChanArm(c), ChanArm(d)];
      ArmsExist(s, arms) && Reachable(Suspend(s, h, Selecting(arms, false), Absent))
  {
    NeitherReady(s, c, d);
    Runs(s, h);
    Next(s, Select(h, [ChanArm(c), ChanArm(d)], Absent));
  }

  function SentTo(s: State, c: nat, v: Value, parked: seq<nat>): Chan
    requires c < |s.chans|
  {
    s.chans[c].(q := s.chans[c].q + [v], sent := s.chans[c].sent + [v], parked := parked)
  }

  lemma WakeFirst(s: State, c: nat, v: Value, w: nat)
    requires WellFormed(s) && c < |s.chans| && s.chans[c].parked != [] && s.chans[c].parked[0] == w
    requires w < |s.waiters| && !s.waiters[w].fired
    ensures WakeChan(Enqueue(s, c, v), c, false)
      == Fire(s.(chans := s.chans[c := SentTo(s, c, v, s.chans[c].parked[1..])]), w, ByChan(c))
  {
    var s0 := Enqueue(s, c, v);
    var s1 := s0.(chans := s0.chans[c := s0.chans[c].(parked := s.chans[c].parked[1..])]);
    assert s1.chans == s.chans[c := SentTo(s, c, v, s.chans[c].parked[1..])];
    assert FireAll(s1, [w], ByChan(c)) == FireAll(Fire(s1, w, ByChan(c)), [], ByChan(c));
  }

  /** A send wakes the first sleeper. */
  lemma SendWakes(s: State, c: nat, v: Value, w: nat)
    requires Reachable(s) && Busy(s) && c < |s.chans| && s.chans[c].parked != [] && s.chans[c].parked[0] == w
    requires w < |s.waiters| && !s.waiters[w].fired
    ensures Reachable(Fire(s.(chans := s.chans[c := SentTo(s, c, v, s.chans[c].parked[1..])]), w, ByChan(c)))
  {
    Next(s, Send(c, v));
    WakeFirst(s, c, v, w);
  }

  /** A send wakes nobody when the only waiter parked has fired already. */
  lemma SendIdle(s: State, c: nat, v: Value, w: nat)
    requires Reachable(s) && Busy(s) && c < |s.chans| && s.chans[c].parked == [w] && Fired(s, w)
    ensures Reachable(s.(chans := s.chans[c := SentTo(s, c, v, [])]))
  {
    Next(s, Send(c, v));
    var s0 := Enqueue(s, c, v);
    var ch := s0.chans[c];
    assert WakeOne([w], FiredSet(s0)) == WakeOne([], FiredSet(s0));
    assert s0.chans[c := ch.(parked := [])] == s.chans[c := ch.(parked := [])];
  }

  /** A coroutine that nobody awaits or selects on has finished. */
  lemma End(s: State, h: nat)
    requires Reachable(s) && IsTask(s, h) && s.tasks[h] == Running && h !in s.slot && h !in s.caller
    ensures Reachable(s.(tasks := s.tasks[h := Done]))
  {
    Runs(s, h);
    Next(s, Complete(h));
  }

  // ---------------------------------------------------------- a lost wakeup

  // Coroutine 0 selects on channels 0 and 1, coroutine 1 receives from channel 1, and
  // coroutine 2 sends on channel 1, then on channel 0.

  const Both: seq<Arm> := [ChanArm(0), ChanArm(1)]

  function Empty(parked: seq<nat>): Chan { Chan([], parked, false, [], []) }

  function Spawned(): map<nat, bool> { map[1 := true, 2 := true] }

  /** Two open channels and two spawned coroutines. */
  function Prepared(): State {
    State([1, 2], [], [], [Empty([]), Empty([])], [Running, Queued, Queued], map[], Spawned(), map[])
  }

  lemma TwoChannels()
    ensures Reachable(Init().(chans := [Empty([]), Empty([])]))
  {
    Start();
    Runs(Init(), 0);
    Open(Init());
    var s1 := Init().(chans := [Empty([])]);
    assert Init().chans + [Empty([])] == s1.chans;
    Runs(s1, 0);
    Open(s1);
    assert s1.chans + [Empty([])] == [Empty([]), Empty([])];
  }

  lemma SpawnOne(s: State)
    requires Reachable(s) && s.tasks == [Running] && s.futures == map[] && s.ready == []
    ensures Reachable(s.(tasks := [Running, Queued], futures := map[1 := true], ready := [1]))
  {
    Spawn(s, 0);
    assert s.tasks + [Queued] == [Running, Queued] && s.ready + [1] == [1];
  }

  lemma SpawnTwo(s: State)
    requires Reachable(s) && s.tasks == [Running] && s.futures == map[] && s.ready == []
    ensures Reachable(s.(tasks := [Running, Queued, Queued], futures := map[1 := true, 2 := true], ready := [1, 2]))
  {
    SpawnOne(s);
    var s1 := s.(tasks := [Running, Queued], futures := map[1 := true], ready := [1]);
    Spawn(s1, 0);
    assert s1.tasks + [Queued] == [Running, Queued, Queued] && s1.ready + [2] == [1, 2];
  }

  lemma Prepare()
    ensures Reachable(Prepared())
  {
    TwoChannels();
    SpawnTwo(Init().(chans := [Empty([]), Empty([])]));
  }

  /** The select has parked on both channels. */
  function Selecting0(): State {
    Prepared().(waiters := [Waiter(0, false, Nobody, 0)], chans := [Empty([0]), Empty([0])],
                tasks := [Parked(0, Selecting(Both, false)), Queued, Queued])
  }

  lemma SelectResult()
    ensures ArmsExist(Prepared(), Both)
    ensures Suspend(Prepared(), 0, Selecting(Both, false), Absent) == Selecting0()
  {
    var s := Prepared();
    var s1 := Park(s, 0, Selecting(Both, false));
    ArmTwo(s1, 0, 1, 0);
    assert s1.chans[0 := Empty([0])][1 := Empty([0])] == Selecting0().chans;
    assert s1.waiters == Selecting0().waiters;
    assert s1.tasks == Selecting0().tasks;
    assert [] + [0 as nat] == [0 as nat];
  }

  lemma SelectParks()
    ensures Reachable(Selecting0())
  {
    Prepare();
    SelectResult();
    BlockOnTwo(Prepared(), 0, 0, 1);
  }

  /** The receiver has parked on channel 1, behind the select, and the sender runs. */
  function Sending(): State {
    State([], [], [Waiter(0, false, Nobody, 0), Waiter(1, false, Nobody, 0)],
          [Empty([0]), Empty([0, 1])],
          [Parked(0, Selecting(Both, false)), Parked(1, Receiving(1)), Running], map[], Spawned(), map[])
  }

  /** The receiver runs, and the sender is queued. */
  function ReceiverRuns(): State {
    Selecting0().(ready := [2], tasks := [Parked(0, Selecting(Both, false)), Running, Queued])
  }

  lemma ReceiverStarts()
    ensures Reachable(ReceiverRuns())
  {
    SelectParks();
    var s := Selecting0();
    NobodyRuns(s);
    RunQueued(s);
    assert s.tasks[1 := Running] == ReceiverRuns().tasks && s.ready[1..] == ReceiverRuns().ready;
  }

  lemma NobodyRuns(s: State)
    requires |s.tasks| == 3 && s.tasks[0] != Running && s.tasks[1] != Running && s.tasks[2] != Running
    ensures !Busy(s)
  {
    forall h: nat | IsTask(s, h) ensures s.tasks[h] != Running {
      assert h == 0 || h == 1 || h == 2;
    }
  }

  lemma ReceiverParks()
    ensures Reachable(Sending())
  {
    ReceiverStarts();
    var s1 := ReceiverRuns();
    Block(s1, 1, 1);
    var s2 := Sending().(ready := [2], tasks := [Parked(0, Selecting(Both, false)), Parked(1, Receiving(1)), Queued]);
    assert s1.tasks[1 := Parked(1, Receiving(1))] == s2.tasks;
    assert s1.waiters + [Waiter(1, false, Nobody, 0)] == s2.waiters;
    assert [0 as nat] + [1] == [0 as nat, 1];
    assert s1.chans[1 := Empty([0, 1])] == s2.chans;
    SenderStarts(s2);
  }

  lemma SenderStarts(s: State)
    requires Reachable(s) && s.ready == [2]
    requires s.tasks == [Parked(0, Selecting(Both, false)), Parked(1, Receiving(1)), Queued]
    ensures Reachable(s.(ready := [], tasks := Sending().tasks))
  {
    NobodyRuns(s);
    RunQueued(s);
    assert s.tasks[2 := Running] == Sending().tasks && s.ready[1..] == [];
  }

  /** Both channels hold a value, the select was woken by channel 1, and the sender has finished. */
  function Sent(): State {
    Sending().(ready := [0], waiters := [Waiter(0, true, ByChan(1), 1), Waiter(1, false, Nobody, 0)],
               chans := [Chan([5], [], false, [5], []), Chan([7], [1], false, [7], [])],
               tasks := [Parked(0, Selecting(Both, false)), Parked(1, Receiving(1)), Done])
  }

  lemma OneSent()
    ensures Reachable(Sending().(ready := [0], waiters := Sent().waiters, chans := [Empty([0]), Chan([7], [1], false, [7], [])]))
  {
    ReceiverParks();
    var s := Sending();
    Runs(s, 2);
    SendWakes(s, 1, 7, 0);
    assert s.waiters[0 := Waiter(0, true, ByChan(1), 1)] == Sent().waiters;
    assert [0 as nat, 1][1..] == [1] && [] + [7] == [7] && [] + [0 as nat] == [0];
    assert s.chans[1 := Chan([7], [1], false, [7], [])] == [Empty([0]), Chan([7], [1], false, [7], [])];
  }

  lemma BothSent()
    ensures Reachable(Sent())
  {
    OneSent();
    var s := Sending().(ready := [0], waiters := Sent().waiters, chans := [Empty([0]), Chan([7], [1], false, [7], [])]);
    Runs(s, 2);
    SendIdle(s, 0, 5, 0);
    assert [] + [5] == [5];
    assert s.chans[0 := Chan([5], [], false, [5], [])] == Sent().chans;
    SenderEnds(s.(chans := Sent().chans));
  }

  lemma SenderEnds(s: State)
    requires Reachable(s) && s.tasks == Sending().tasks && s.slot == map[] && s.caller == map[]
    ensures Reachable(s.(tasks := Sent().tasks))
  {
    End(s, 2);
    assert s.tasks[2 := Done] == Sent().tasks;
  }

  /** Nothing is left to run: no handle is ready, no timer is set, and every coroutine has finished
      or sleeps; yet one sleeps on a channel that holds a value. */
  ghost predicate Stranded(t: State) {
    && t.ready == [] && t.timers == []
    && (forall h | 0 <= h < |t.tasks| :: t.tasks[h].Done? || (t.tasks[h].Parked? && !Fired(t, t.tasks[h].w)))
    && exists c: nat, w: nat :: c < |t.chans| && t.chans[c].q != [] && w in t.chans[c].parked && !Fired(t, w)
  }

  /** A channel shared between a select and a receive can lose a wakeup: the select, woken by
      channel 1, takes channel 0 instead and finishes, and the receiver sleeps on for ever although
      channel 1 holds a value. */
  lemma SharedSelectLosesWakeup()
    ensures exists s, t :: LosesThenStrands(s, t)
  {
    BothSent();
    ResumeOther(Sent());
    SentLoses();
    Finishes(Sent());
    assert LosesThenStrands(Sent(), Step(Step(Sent(), RunNext), Complete(0)));
  }

  /** From `s` the run loop resumes coroutine 0, which loses the wakeup of channel 1, finishes, and
      leaves the receiver stranded in `t`. */
  ghost predicate LosesThenStrands(s: State, t: State) {
    && Reachable(s) && WellFormed(s) && Enabled(s, RunNext) && Loses(s, RunNext, 1)
    && WellFormed(Step(s, RunNext)) && Enabled(Step(s, RunNext), Complete(0))
    && t == Step(Step(s, RunNext), Complete(0)) && Reachable(t) && Stranded(t)
  }

  lemma Finishes(s: State)
    requires Reachable(s) && s.ready != [] && !Busy(s) && WellFormed(s)
    requires var s1 := Step(s, RunNext);
      && s1.ready == [] && s1.timers == [] && s1.slot == map[] && s1.caller == map[]
      && s1.tasks == [Running, Parked(1, Receiving(1)), Done] && !Fired(s1, 1)
      && |s1.chans| == 2 && s1.chans[1].q != [] && 1 in s1.chans[1].parked
    ensures WellFormed(Step(s, RunNext)) && Enabled(Step(s, RunNext), Complete(0))
    ensures Reachable(Step(Step(s, RunNext), Complete(0))) && Stranded(Step(Step(s, RunNext), Complete(0)))
  {
    Next(s, RunNext);
    var s1 := Step(s, RunNext);
    Runs(s1, 0);
    Next(s1, Complete(0));
    FinishStrands(s1);
  }

  lemma FinishStrands(s: State)
    requires WellFormed(s) && s.ready == [] && s.timers == [] && s.slot == map[] && s.caller == map[]
    requires s.tasks == [Running, Parked(1, Receiving(1)), Done] && !Fired(s, 1)
    requires |s.chans| == 2 && s.chans[1].q != [] && 1 in s.chans[1].parked
    ensures Stranded(Step(s, Complete(0)))
  {
    var t := Step(s, Complete(0));
    assert t.tasks == [Done, Parked(1, Receiving(1)), Done];
    assert t.chans == s.chans && 1 < |t.chans| && 1 in t.chans[1].parked && !Fired(t, 1);
  }

  lemma SentLoses()
    requires WellFormed(Sent()) && !Wins(Sent(), Selecting(Both, false), 1)
    ensures Loses(Sent(), RunNext, 1)
  {
    var s := Sent();
    assert Pending(s, 1) == {0};
    assert 1 in s.chans[1].parked && !Fired(s, 1);
  }

  lemma ResumeOther(s: State)
    requires s == Sent()
    ensures WellFormed(s) && !Wins(s, Selecting(Both, false), 1)
    ensures !Busy(s)
    ensures var t := Resume(s);
      && t.ready == [] && t.timers == [] && t.slot == map[] && t.caller == map[] && t.waiters == s.waiters
      && t.tasks == [Running, Parked(1, Receiving(1)), Done]
      && |t.chans| == 2 && t.chans[1] == s.chans[1]
  {
    var s1 := DisarmOne(s, ChanArm(0), 0);
    var s2 := DisarmOne(s1, ChanArm(1), 0);
    assert Both[1..] == [ChanArm(1)];
    assert DisarmAll(s1, [ChanArm(1)], 0) == DisarmAll(s2, [], 0);
    assert Unpark([1 as nat], 0) == [1] + Unpark([], 0);
    assert FirstReady(s, Both) == 0 && FirstReady(s2, Both) == 0;
    var t := Resume(s);
    assert t.tasks == s.tasks[0 := Running];
  }

  // ------------------------------------------------------ a premature nil

  function Asleep(): State {
    State([1], [], [Waiter(0, false, Nobody, 0)], [Empty([0])], [Parked(0, Receiving(0)), Queued], map[], map[1 := true], map[])
  }

  /** The receiver has been woken, and the coroutine that sent still runs. */
  function Woken(): State {
    State([0], [], [Waiter(0, true, ByChan(0), 1)], [Chan([7], [], false, [7], [])],
          [Parked(0, Receiving(0)), Running], map[], map[1 := true], map[])
  }

  /** The sender has polled the value away again, and finished. */
  function Emptied(): State {
    State([0], [], [Waiter(0, true, ByChan(0), 1)], [Chan([], [], false, [7], [7])],
          [Parked(0, Receiving(0)), Done], map[], map[1 := true], map[])
  }

  lemma ReceiverSleeps()
    ensures Reachable(Asleep())
  {
    Start();
    Runs(Init(), 0);
    Open(Init());
    var s1 := Init().(chans := [Empty([])]);
    assert Init().chans + [Empty([])] == s1.chans;
    SpawnOne(s1);
    var s2 := s1.(tasks := [Running, Queued], futures := map[1 := true], ready := [1]);
    Block(s2, 0, 0);
    assert s2.tasks[0 := Parked(0, Receiving(0))] == [Parked(0, Receiving(0)), Queued];
    assert [] + [0 as nat] == [0] && s2.chans[0 := Empty([0])] == [Empty([0])];
    assert s2.waiters + [Waiter(0, false, Nobody, 0)] == [Waiter(0, false, Nobody, 0)];
  }

  lemma SendToSleeper(s: State)
    requires s == Asleep().(ready := [], tasks := [Parked(0, Receiving(0)), Running])
    ensures Fire(s.(chans := s.chans[0 := SentTo(s, 0, 7, [])]), 0, ByChan(0)) == Woken()
  {
    assert s.waiters[0 := Waiter(0, true, ByChan(0), 1)] == Woken().waiters;
    assert SentTo(s, 0, 7, []) == Chan([7], [], false, [7], []);
    assert s.chans[0 := Chan([7], [], false, [7], [])] == Woken().chans;
  }

  lemma PollerStarts()
    ensures Reachable(Asleep().(ready := [], tasks := [Parked(0, Receiving(0)), Running]))
  {
    ReceiverSleeps();
    var s := Asleep();
    forall h: nat | IsTask(s, h) ensures s.tasks[h] != Running {
      assert h == 0 || h == 1;
    }
    RunQueued(s);
    assert s.tasks[1 := Running] == [Parked(0, Receiving(0)), Running] && s.ready[1..] == [];
  }

  lemma ReceiverWoken()
    ensures Reachable(Woken())
  {
    PollerStarts();
    var s := Asleep().(ready := [], tasks := [Parked(0, Receiving(0)), Running]);
    Runs(s, 1);
    SendWakes(s, 0, 7, 0);
    assert [0 as nat][1..] == [];
    SendToSleeper(s);
  }

  lemma PollTakes(s: State)
    requires s == Woken()
    ensures Take(s, 0) == s.(chans := [Chan([], [], false, [7], [7])])
  {
    assert [] + [7] == [7] && [7][1..] == [];
    assert s.chans[0 := Chan([], [], false, [7], [7])] == [Chan([], [], false, [7], [7])];
  }

  lemma PolledAway()
    ensures Reachable(Emptied())
  {
    ReceiverWoken();
    Runs(Woken(), 1);
    Next(Woken(), Poll(0));
    PollTakes(Woken());
    PollerEnds(Woken().(chans := [Chan([], [], false, [7], [7])]));
  }

  lemma PollerEnds(s: State)
    requires Reachable(s) && s.tasks == Woken().tasks && s.slot == map[] && s.caller == map[]
    ensures Reachable(s.(tasks := Emptied().tasks))
  {
    End(s, 1);
    assert s.tasks[1 := Done] == Emptied().tasks;
  }

  lemma PollRobs(s: State)
    requires s == Woken() && WellFormed(s)
    ensures Robs(s, Poll(0), 0)
  {
    assert Pending(s, 0) == {0};
  }

  lemma NilOnOpen(s: State)
    requires s == Emptied()
    ensures Enabled(s, RunNext) && InTurn(s, RunNext) && ReceiveReturns(s, RunNext, 0)
    ensures 0 < |s.chans| && s.chans[0].q == [] && !s.chans[0].closed
  {
    forall h: nat | IsTask(s, h) ensures s.tasks[h] != Running {
      assert h == 0 || h == 1;
    }
  }

  /** Coroutine 0 sleeps on an empty channel, a send wakes it, and a poll takes the value away
      before it resumes: the poll robs it, and its receive returns nil although the channel is
      open. */
  lemma PollCausesPrematureNil()
    ensures exists s :: Reachable(s) && WellFormed(s) && Enabled(s, Poll(0)) && Robs(s, Poll(0), 0)
    ensures exists s :: Reachable(s) && Enabled(s, RunNext) && InTurn(s, RunNext) && ReceiveReturns(s, RunNext, 0)
                        && 0 < |s.chans| && s.chans[0].q == [] && !s.chans[0].closed
  {
    ReceiverWoken();
    Runs(Woken(), 1);
    Next(Woken(), Poll(0));
    PollRobs(Woken());
    PolledAway();
    NilOnOpen(Emptied());
  }
}
