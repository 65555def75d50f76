/** The queue of parked waiters that every channel holds, on values.

    `W` is the identity of a waiter: a number in the state machine of module Machine,
    an object reference in the classes of module Runtime.  `fired` is the set of waiters
    whose flag is up. */
module ParkedQueue {

  datatype Woken<W> = Woken(rest: seq<W>, scheduled: seq<W>)

  /** `wake_one`: pop until a waiter is found that has not fired. */
  function WakeOne<W(==)>(parked: seq<W>, fired: set<W>): Woken<W> {
    if parked == [] then Woken([], [])
    else if parked[0] in fired then WakeOne(parked[1..], fired)
    else Woken(parked[1..], [parked[0]])
  }

  /** `wake_all`: pop everything, scheduling each waiter the first time it is met. */
  function WakeAll<W(==)>(parked: seq<W>, fired: set<W>): seq<W> {
    if parked == [] then []
    else if parked[0] in fired then WakeAll(parked[1..], fired)
    else [parked[0]] + WakeAll(parked[1..], fired + {parked[0]})
  }

  /** `unpark`: erase the first occurrence of `w`, if there is one. */
  function Unpark<W(==)>(parked: seq<W>, w: W): seq<W> {
    if parked == [] then []
    else if parked[0] == w then parked[1..]
    else [parked[0]] + Unpark(parked[1..], w)
  }

  ghost predicate NoDuplicates<T>(s: seq<T>) {
    forall i, j :: 0 <= i < j < |s| ==> s[i] != s[j]
  }

  /** At most one waiter is scheduled, it is the first one that had not fired, and
      everything ahead of it is dropped because it had. */
  lemma {:induction false} WakeOneEffect<W>(parked: seq<W>, fired: set<W>)
    ensures var r := WakeOne(parked, fired);
      && |r.scheduled| <= 1
      && (r.scheduled == [] ==> r.rest == [] && forall x :: x in parked ==> x in fired)
      && (r.scheduled != [] ==>
            && r.scheduled[0] in parked && r.scheduled[0] !in fired
            && |r.rest| < |parked|
            && r.rest == parked[|parked| - |r.rest|..]
            && parked[|parked| - |r.rest| - 1] == r.scheduled[0]
            && forall i :: 0 <= i < |parked| - |r.rest| - 1 ==> parked[i] in fired)
    ensures forall x :: multiset(WakeOne(parked, fired).rest)[x] <= multiset(parked)[x]
  {
    if parked != [] {
      assert parked == [parked[0]] + parked[1..];
      if parked[0] in fired {
        WakeOneEffect(parked[1..], fired);
      }
    }
  }

  /** Every parked waiter that had not fired is scheduled, each exactly once. */
  lemma {:induction false} WakeAllEffect<W>(parked: seq<W>, fired: set<W>)
    ensures NoDuplicates(WakeAll(parked, fired))
    ensures forall x :: x in WakeAll(parked, fired) <==> x in parked && x !in fired
  {
    if parked != [] {
      if parked[0] in fired {
        WakeAllEffect(parked[1..], fired);
      } else {
        WakeAllEffect(parked[1..], fired + {parked[0]});
      }
    }
  }

  lemma {:induction false} UnparkEffect<W>(parked: seq<W>, w: W)
    ensures multiset(Unpark(parked, w)) == multiset(parked) - multiset{w}
    ensures forall x :: x in Unpark(parked, w) ==> x in parked
  {
    if parked != [] {
      assert parked == [parked[0]] + parked[1..];
      if parked[0] != w {
        UnparkEffect(parked[1..], w);
      }
    }
  }
}
