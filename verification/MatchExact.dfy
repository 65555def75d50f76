/** When a lowered match keeps source order: for any arms at all, an exact condition. */
module MatchExact {
  import opened Wrappers
  import opened MatchLowering

  /** On every declared case, and however the guards turn out, the lowered match selects the arm
      that source order selects. */
  ghost predicate Preserves(arms: seq<Arm>, cases: seq<CaseDecl>) {
    forall d: CaseDecl, truth: nat -> bool | d in cases :: Agree(arms, cases, d.name, truth)
  }

  predicate Agree(arms: seq<Arm>, cases: seq<CaseDecl>, c: string, truth: nat -> bool) {
    Execute(Lower(arms, cases), c, truth).selected == FirstMatch(arms, 0, c, truth).selected
  }

  predicate FirstCatchAll(arms: seq<Arm>, n: nat) {
    n < |arms| && CatchesAll(arms[n]) && forall i | 0 <= i < n :: !CatchesAll(arms[i])
  }

  /** The case is settled before the first arm that catches everything; or that arm has no guard,
      and no later arm names the case or catches everything. */
  predicate Harmless(arms: seq<Arm>, c: string) {
    forall n | 0 <= n < |arms| && FirstCatchAll(arms, n) && !Settled(arms, n, c) ::
      && !arms[n].guarded
      && forall i | n < i < |arms| :: !CatchesAll(arms[i]) && c !in Names(arms[i])
  }

  /** Some unguarded arm of the first `n` names the case. */
  predicate Settled(arms: seq<Arm>, n: nat, c: string)
    requires n <= |arms|
  {
    exists j | 0 <= j < n :: c in Names(arms[j]) && !arms[j].guarded
  }

  // --------------------------------------------------- what is selected

  predicate Takes(arms: seq<Arm>, i: nat, c: string, truth: nat -> bool)
    requires i < |arms|
  {
    c in Names(arms[i]) && (arms[i].guarded ==> truth(i))
  }

  /** The first of `n` arms that names the case and whose guard, if any, holds. */
  function First(arms: seq<Arm>, n: nat, c: string, truth: nat -> bool): Option<nat>
    requires n <= |arms|
  {
    if n == 0 then None
    else
      var before := First(arms, n - 1, c, truth);
      if before.Some? then before else if Takes(arms, n - 1, c, truth) then Some(n - 1) else None
  }

  function Chosen(first: Option<nat>, fallback: Option<nat>): Selected {
    if first.Some? then Body(first.value) else Otherwise(fallback).selected
  }

  lemma {:induction false} FirstIs(arms: seq<Arm>, n: nat, c: string, truth: nat -> bool)
    requires n <= |arms|
    ensures var f := First(arms, n, c, truth);
      && (f.Some? ==> f.value < n && Takes(arms, f.value, c, truth))
      && (forall i | 0 <= i < (if f.Some? then f.value else n) :: !Takes(arms, i, c, truth))
    decreases n
  {
    if n > 0 { FirstIs(arms, n - 1, c, truth); }
  }

  lemma {:induction false} FirstStays(arms: seq<Arm>, k: nat, n: nat, c: string, truth: nat -> bool)
    requires k <= n <= |arms| && First(arms, k, c, truth).Some?
    ensures First(arms, n, c, truth) == First(arms, k, c, truth)
    decreases n - k
  {
    if k < n { FirstStays(arms, k, n - 1, c, truth); }
  }

  lemma {:induction false} SwitchChooses(arms: seq<Arm>, k: nat, c: string, truth: nat -> bool)
    requires k <= |arms| && (forall a | a in arms :: !a.guarded) && First(arms, k, c, truth).None?
    ensures RunSwitch(Clauses(arms, |arms|), k, c, DefaultArm(arms, k)).selected
      == Chosen(First(arms, |arms|, c, truth), DefaultArm(arms, |arms|))
    decreases |arms| - k
  {
    ClausesAt(arms, |arms|);
    if k < |arms| {
      if c in Names(arms[k]) {
        FirstStays(arms, k + 1, |arms|, c, truth);
      } else {
        SwitchChooses(arms, k + 1, c, truth);
      }
    }
  }

  lemma {:induction false} TestsSnoc(ts: seq<Test>, t: Test, k: nat, c: string, truth: nat -> bool, otherwise: Option<nat>)
    requires k <= |ts|
    ensures var r := RunTests(ts, k, c, truth, None).selected;
      RunTests(ts + [t], k, c, truth, otherwise).selected
      == if r.Body? then r
         else if c in t.names && (t.guarded ==> truth(t.arm)) then Body(t.arm) else Otherwise(otherwise).selected
    decreases |ts| - k
  {
    if k < |ts| {
      TestsSnoc(ts, t, k + 1, c, truth, otherwise);
    } else {
      assert RunTests(ts + [t], k + 1, c, truth, otherwise) == Otherwise(otherwise);
    }
  }

  lemma {:induction false} TestsOtherwise(ts: seq<Test>, k: nat, c: string, truth: nat -> bool, otherwise: Option<nat>)
    requires k <= |ts|
    ensures var r := RunTests(ts, k, c, truth, None).selected;
      RunTests(ts, k, c, truth, otherwise).selected == if r.Body? then r else Otherwise(otherwise).selected
    decreases |ts| - k
  {
    if k < |ts| { TestsOtherwise(ts, k + 1, c, truth, otherwise); }
  }

  lemma {:induction false} TestsChoose(arms: seq<Arm>, n: nat, c: string, truth: nat -> bool)
    requires n <= |arms|
    ensures RunTests(Tests(arms, n), 0, c, truth, None).selected == Chosen(First(arms, n, c, truth), None)
    decreases n
  {
    if n > 0 {
      TestsChoose(arms, n - 1, c, truth);
      if !CatchesAll(arms[n - 1]) {
        TestsSnoc(Tests(arms, n - 1), Test(Names(arms[n - 1]), arms[n - 1].guarded, n - 1), 0, c, truth, None);
      }
    }
  }

  lemma {:induction false} ArmsSnoc(rs: seq<ArmRef>, r: ArmRef, truth: nat -> bool, otherwise: Option<nat>)
    ensures var s := RunArms(rs, truth, None).selected;
      RunArms(rs + [r], truth, otherwise).selected
      == if s.Body? then s else if r.guarded ==> truth(r.arm) then Body(r.arm) else Otherwise(otherwise).selected
    decreases rs
  {
    if rs != [] {
      ArmsSnoc(rs[1..], r, truth, otherwise);
      assert (rs + [r])[1..] == rs[1..] + [r];
    } else {
      assert (rs + [r])[1..] == [];
    }
  }

  lemma {:induction false} ArmsOtherwise(rs: seq<ArmRef>, truth: nat -> bool, otherwise: Option<nat>)
    ensures var s := RunArms(rs, truth, None).selected;
      RunArms(rs, truth, otherwise).selected == if s.Body? then s else Otherwise(otherwise).selected
    decreases rs
  {
    if rs != [] { ArmsOtherwise(rs[1..], truth, otherwise); }
  }

  /** An arm joins the group of each case it names, perhaps more than once. */
  lemma {:induction false} CasesChoose(groups: seq<Group>, names: seq<string>, r: ArmRef, c: string, truth: nat -> bool)
    ensures var s := RunArms(Find(groups, c), truth, None).selected;
      RunArms(Find(AddCases(groups, names, r), c), truth, None).selected
      == if s.Body? then s else if c in names && (r.guarded ==> truth(r.arm)) then Body(r.arm) else Unreachable
    decreases names
  {
    ArmsNotRejected(Find(groups, c), truth, None);
    if names != [] {
      var n := |names| - 1;
      var before := AddCases(groups, names[..n], r);
      CasesChoose(groups, names[..n], r, c, truth);
      FindAdded(before, names[n], r, c);
      ArmsSnoc(Find(before, c), r, truth, None);
      assert Find(before, c) + [] == Find(before, c);
      assert c in names <==> c in names[..n] || c == names[n];
    }
  }

  lemma {:induction false} GroupsChoose(arms: seq<Arm>, n: nat, c: string, truth: nat -> bool)
    requires n <= |arms|
    ensures RunArms(Find(Groups(arms, n), c), truth, None).selected == Chosen(First(arms, n, c, truth), None)
    decreases n
  {
    if n > 0 {
      GroupsChoose(arms, n - 1, c, truth);
      CasesChoose(Groups(arms, n - 1), Names(arms[n - 1]), ArmRef(n - 1, arms[n - 1].guarded), c, truth);
    }
  }

  /** What any lowered match that compiles selects: the first arm that names the case and whose
      guard holds, and only when there is none, the last arm that catches everything, whatever its
      guard. */
  lemma LoweredChooses(arms: seq<Arm>, cases: seq<CaseDecl>, c: string, truth: nat -> bool)
    requires Compiles(arms, cases)
    ensures Execute(Lower(arms, cases), c, truth).selected
      == Chosen(First(arms, |arms|, c, truth), DefaultArm(arms, |arms|))
  {
    var fallback := DefaultArm(arms, |arms|);
    if HasPayload(cases) {
      var groups := Groups(arms, |arms|);
      SomeGroup(arms, |arms|);
      VisitRunsGroup(groups, 0, c, truth, fallback);
      assert groups[0..] == groups;
      GroupsChoose(arms, |arms|, c, truth);
      ArmsOtherwise(Find(groups, c), truth, fallback);
    } else if NeedsIfChain(arms) {
      TestsChoose(arms, |arms|, c, truth);
      TestsOtherwise(Tests(arms, |arms|), 0, c, truth, fallback);
    } else {
      SwitchChooses(arms, 0, c, truth);
    }
  }

  // -------------------------------------------------------- source order

  /** Up to the first arm that catches everything, source order takes the same arms. */
  lemma {:induction false} FirstMatchFrom(arms: seq<Arm>, k: nat, n: nat, c: string, truth: nat -> bool)
    requires k <= n <= |arms| && (forall i | k <= i < n :: !CatchesAll(arms[i])) && First(arms, k, c, truth).None?
    ensures var f := First(arms, n, c, truth);
      FirstMatch(arms, k, c, truth).selected == if f.Some? then Body(f.value) else FirstMatch(arms, n, c, truth).selected
    decreases n - k
  {
    if k < n {
      if Takes(arms, k, c, truth) {
        FirstStays(arms, k + 1, n, c, truth);
      } else {
        FirstMatchFrom(arms, k + 1, n, c, truth);
      }
    }
  }

  lemma {:induction false} FirstMatchTakes(arms: seq<Arm>, k: nat, c: string, truth: nat -> bool)
    requires k <= |arms|
    ensures var s := FirstMatch(arms, k, c, truth).selected;
      s.Body? ==> k <= s.arm < |arms| && (arms[s.arm].guarded ==> truth(s.arm))
    decreases |arms| - k
  {
    if k < |arms| { FirstMatchTakes(arms, k + 1, c, truth); }
  }

  lemma {:induction false} DefaultIsLast(arms: seq<Arm>, n: nat)
    requires n <= |arms|
    ensures var d := DefaultArm(arms, n);
      && (d.Some? ==> d.value < n && CatchesAll(arms[d.value]))
      && (forall i | (if d.Some? then d.value + 1 else 0) <= i < n :: !CatchesAll(arms[i]))
    decreases n
  {
    if n > 0 { DefaultIsLast(arms, n - 1); }
  }

  lemma HarmlessAgrees(arms: seq<Arm>, cases: seq<CaseDecl>, c: string, truth: nat -> bool)
    requires Compiles(arms, cases) && Harmless(arms, c)
    ensures Agree(arms, cases, c, truth)
  {
    LoweredChooses(arms, cases, c, truth);
    DefaultIsLast(arms, |arms|);
    var n := FirstCatch(arms, 0);
    FirstMatchFrom(arms, 0, n, c, truth);
    FirstIs(arms, n, c, truth);
    FirstIs(arms, |arms|, c, truth);
    if First(arms, n, c, truth).Some? {
      FirstStays(arms, n, |arms|, c, truth);
    } else if n < |arms| {
      if Settled(arms, n, c) {
        var j :| 0 <= j < n && c in Names(arms[j]) && !arms[j].guarded;
        assert Takes(arms, j, c, truth);
      }
      assert FirstCatchAll(arms, n);
    }
  }

  lemma {:induction false} FirstCatch(arms: seq<Arm>, k: nat) returns (n: nat)
    requires k <= |arms|
    ensures k <= n <= |arms| && (n < |arms| ==> CatchesAll(arms[n]))
    ensures forall i | k <= i < n :: !CatchesAll(arms[i])
    decreases |arms| - k
  {
    if k == |arms| || CatchesAll(arms[k]) { n := k; } else { n := FirstCatch(arms, k + 1); }
  }

  // ----------------------------------------------------------- necessity

  /** Let the guards from the first catch-all on hold, and those before it fail. */
  lemma NothingLater(arms: seq<Arm>, cases: seq<CaseDecl>, c: string, n: nat)
    requires Compiles(arms, cases) && FirstCatchAll(arms, n) && !Settled(arms, n, c)
    requires Agree(arms, cases, c, k => k >= n)
    ensures DefaultArm(arms, |arms|) == Some(n) && forall i | n < i < |arms| :: !CatchesAll(arms[i]) && c !in Names(arms[i])
  {
    var truth: nat -> bool := k => k >= n;
    LoweredChooses(arms, cases, c, truth);
    FirstIs(arms, n, c, truth);
    FirstIs(arms, |arms|, c, truth);
    FirstMatchFrom(arms, 0, n, c, truth);
    DefaultIsLast(arms, |arms|);
    assert First(arms, n, c, truth).None?;
    assert FirstMatch(arms, n, c, truth).selected == Body(n);
    assert !Takes(arms, n, c, truth);
    forall i | n < i < |arms| ensures c !in Names(arms[i]) {
      assert !Takes(arms, i, c, truth);
    }
  }

  /** Let all guards fail. */
  lemma NoGuard(arms: seq<Arm>, cases: seq<CaseDecl>, c: string, n: nat)
    requires Compiles(arms, cases) && FirstCatchAll(arms, n) && !Settled(arms, n, c)
    requires Agree(arms, cases, c, _ => false) && DefaultArm(arms, |arms|) == Some(n)
    requires forall i | n < i < |arms| :: c !in Names(arms[i])
    ensures !arms[n].guarded
  {
    var truth: nat -> bool := _ => false;
    LoweredChooses(arms, cases, c, truth);
    FirstIs(arms, n, c, truth);
    FirstIs(arms, |arms|, c, truth);
    FirstMatchFrom(arms, 0, n, c, truth);
    FirstMatchTakes(arms, n, c, truth);
  }

  lemma HarmlessNeeded(arms: seq<Arm>, cases: seq<CaseDecl>, d: CaseDecl)
    requires Preserves(arms, cases) && Compiles(arms, cases) && d in cases
    ensures Harmless(arms, d.name)
  {
    forall n | 0 <= n < |arms| && FirstCatchAll(arms, n) && !Settled(arms, n, d.name)
      ensures !arms[n].guarded && forall i | n < i < |arms| :: !CatchesAll(arms[i]) && d.name !in Names(arms[i])
    {
      var late: nat -> bool, no: nat -> bool := k => k >= n, _ => false;
      assert Agree(arms, cases, d.name, late) && Agree(arms, cases, d.name, no);
      NothingLater(arms, cases, d.name, n);
      NoGuard(arms, cases, d.name, n);
    }
  }

  /** A match over an enum keeps source order exactly when its code is C++ and every declared case
      is harmless. */
  lemma PreservesIffHarmless(arms: seq<Arm>, cases: seq<CaseDecl>)
    ensures Preserves(arms, cases) <==>
      cases == [] || (Compiles(arms, cases) && forall d | d in cases :: Harmless(arms, d.name))
  {
    if Compiles(arms, cases) && forall d | d in cases :: Harmless(arms, d.name) {
      forall d: CaseDecl, truth: nat -> bool | d in cases ensures Agree(arms, cases, d.name, truth) {
        HarmlessAgrees(arms, cases, d.name, truth);
      }
    }
    if Preserves(arms, cases) && cases != [] {
      var no: nat -> bool := _ => false;
      assert cases[0] in cases && Agree(arms, cases, cases[0].name, no);
      RejectedIff(arms, cases, cases[0].name, no);
      FirstMatchRuns(arms, 0, cases[0].name, no);
      forall d | d in cases ensures Harmless(arms, d.name) {
        HarmlessNeeded(arms, cases, d);
      }
    }
  }

  lemma {:induction false} FirstMatchRuns(arms: seq<Arm>, k: nat, c: string, truth: nat -> bool)
    ensures FirstMatch(arms, k, c, truth).selected != Rejected
    decreases |arms| - k
  {
    if k < |arms| { FirstMatchRuns(arms, k + 1, c, truth); }
  }
}
