/** The scheduler's timers, on values; `W` is the identity of a waiter as in ParkedQueue. */
module TimerQueue {

  datatype Timer<W> = Timer(deadline: int, w: W)

  /** `std::erase_if`: the timers whose waiter has not fired, in order. */
  function Live<W(==)>(ts: seq<Timer<W>>, fired: set<W>): seq<Timer<W>> {
    if ts == [] then []
    else (if ts[0].w in fired then [] else [ts[0]]) + Live(ts[1..], fired)
  }

  /** `std::min_element`: the first timer with the least deadline. */
  function Earliest<W>(ts: seq<Timer<W>>): (i: nat)
    requires ts != []
    ensures i < |ts|
    ensures forall j :: 0 <= j < |ts| ==> ts[i].deadline <= ts[j].deadline
    ensures forall j :: 0 <= j < i ==> ts[i].deadline < ts[j].deadline
  {
    if |ts| == 1 then 0
    else
      var i := 1 + Earliest(ts[1..]);
      if ts[i].deadline < ts[0].deadline then i else 0
  }

  lemma {:induction false} LiveMembers<W>(ts: seq<Timer<W>>, fired: set<W>, t: Timer<W>)
    ensures t in Live(ts, fired) <==> t in ts && t.w !in fired
  {
    if ts != [] {
      LiveMembers(ts[1..], fired, t);
    }
  }

  lemma {:induction false} LiveAppend<W>(ts: seq<Timer<W>>, t: Timer<W>, fired: set<W>)
    ensures Live(ts + [t], fired) == Live(ts, fired) + (if t.w in fired then [] else [t])
  {
    if ts == [] {
      assert (ts + [t])[0] == t && (ts + [t])[1..] == ts;
    } else {
      assert (ts + [t])[1..] == ts[1..] + [t];
      LiveAppend(ts[1..], t, fired);
    }
  }
}
