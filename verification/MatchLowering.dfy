/** How `match` over an enum is lowered: a switch, a chain of ifs, or a visit that groups the arms
    by case.  All of them select the arm that source order selects. */
module MatchLowering {
  import opened Wrappers

  datatype Pattern = Wildcard | Case(name: string) | Or(names: seq<string>)

  /** An arm; its guard and body are known by the arm's place in the match. */
  datatype Arm = Arm(isDefault: bool, pattern: Pattern, guarded: bool)

  datatype CaseDecl = CaseDecl(name: string, hasPayload: bool)

  predicate CatchesAll(a: Arm) { a.isDefault || a.pattern.Wildcard? }

  /** The cases an arm names. */
  function Names(a: Arm): seq<string> {
    if CatchesAll(a) then [] else if a.pattern.Case? then [a.pattern.name] else a.pattern.names
  }

  predicate Matches(a: Arm, c: string) { CatchesAll(a) || c in Names(a) }

  // ---------------------------------------------------------------- meaning

  /** `Rejected`: the code is not C++, so there is nothing to run. */
  datatype Selected = Body(arm: nat) | Unreachable | Rejected

  /** The arm selected, and the guards evaluated before that. */
  datatype Run = Run(selected: Selected, guards: seq<nat>)

  /** The guard of arm `i`, then `next` where it fails. */
  function Guarded(i: nat, truth: nat -> bool, next: Run): Run {
    if truth(i) then Run(Body(i), [i]) else next.(guards := [i] + next.guards)
  }

  /** The first arm from `k` on that matches case `c` and whose guard, if any, holds. */
  function FirstMatch(arms: seq<Arm>, k: nat, c: string, truth: nat -> bool): Run
    decreases |arms| - k
  {
    if k >= |arms| then Run(Unreachable, [])
    else if !Matches(arms[k], c) then FirstMatch(arms, k + 1, c, truth)
    else if arms[k].guarded then Guarded(k, truth, FirstMatch(arms, k + 1, c, truth))
    else Run(Body(k), [])
  }

  // ------------------------------------------------------------ emitted code

  datatype Clause = Clause(labels: seq<string>, isDefault: bool, arm: nat)

  datatype Test = Test(names: seq<string>, guarded: bool, arm: nat)

  datatype ArmRef = ArmRef(arm: nat, guarded: bool)

  datatype Group = Group(name: string, arms: seq<ArmRef>)

  /** What one case's branch runs: arms in order, and, where all are guarded, the default. */
  datatype Branch = Branch(name: string, arms: seq<ArmRef>, falls: bool)

  datatype Code =
    | Switch(clauses: seq<Clause>)
    | IfChain(tests: seq<Test>, otherwise: Option<nat>)
    | Visit(branches: seq<Branch>, otherwise: Option<nat>)
    | BareElse(otherwise: Option<nat>)  // an `else` with no `if` before it

  function Otherwise(arm: Option<nat>): Run {
    Run(if arm.Some? then Body(arm.value) else Unreachable, [])
  }

  /** No label, and not the default, is repeated. */
  predicate LabelsOnce(clauses: seq<Clause>) {
    && (forall i | 0 <= i < |clauses| :: Distinct(clauses[i].labels))
    && (forall i, j | 0 <= i < j < |clauses| ::
          !(clauses[i].isDefault && clauses[j].isDefault) && forall x | x in clauses[i].labels :: x !in clauses[j].labels)
  }

  predicate Distinct(names: seq<string>) {
    if names == [] then true
    else
      var n := |names| - 1;
      Distinct(names[..n]) && names[n] !in names[..n]
  }

  /** A switch jumps to the clause with the label, wherever it stands, or else to the default. */
  function RunSwitch(clauses: seq<Clause>, k: nat, c: string, otherwise: Option<nat>): Run
    decreases |clauses| - k
  {
    if k >= |clauses| then Otherwise(otherwise)
    else if c in clauses[k].labels then Run(Body(clauses[k].arm), [])
    else RunSwitch(clauses, k + 1, c, if clauses[k].isDefault then Some(clauses[k].arm) else otherwise)
  }

  function RunTests(tests: seq<Test>, k: nat, c: string, truth: nat -> bool, otherwise: Option<nat>): Run
    decreases |tests| - k
  {
    if k >= |tests| then Otherwise(otherwise)
    else if c !in tests[k].names then RunTests(tests, k + 1, c, truth, otherwise)
    else if tests[k].guarded then Guarded(tests[k].arm, truth, RunTests(tests, k + 1, c, truth, otherwise))
    else Run(Body(tests[k].arm), [])
  }

  function RunArms(arms: seq<ArmRef>, truth: nat -> bool, otherwise: Option<nat>): Run {
    if arms == [] then Otherwise(otherwise)
    else if arms[0].guarded then Guarded(arms[0].arm, truth, RunArms(arms[1..], truth, otherwise))
    else Run(Body(arms[0].arm), [])
  }

  /** The visit takes the branch of the active case, if there is one. */
  function RunVisit(branches: seq<Branch>, k: nat, c: string, truth: nat -> bool, otherwise: Option<nat>): Run
    decreases |branches| - k
  {
    if k >= |branches| then Otherwise(otherwise)
    else if branches[k].name == c then RunArms(branches[k].arms, truth, if branches[k].falls then otherwise else None)
    else RunVisit(branches, k + 1, c, truth, otherwise)
  }

  function Execute(code: Code, c: string, truth: nat -> bool): Run {
    match code
    case Switch(clauses) => if LabelsOnce(clauses) then RunSwitch(clauses, 0, c, None) else Run(Rejected, [])
    case IfChain(tests, otherwise) => RunTests(tests, 0, c, truth, otherwise)
    case Visit(branches, otherwise) => RunVisit(branches, 0, c, truth, otherwise)
    case BareElse(_) => Run(Rejected, [])
  }

  // --------------------------------------------------------------- lowering

  predicate HasPayload(cases: seq<CaseDecl>) { exists c | c in cases :: c.hasPayload }

  /** Only plain case patterns are compared; labels inside or-patterns are not. */
  predicate PlainDuplicate(arms: seq<Arm>) {
    exists i, j | 0 <= i < j < |arms| :: arms[i].pattern.Case? && arms[i].pattern == arms[j].pattern
  }

  predicate NeedsIfChain(arms: seq<Arm>) {
    (exists a | a in arms :: a.guarded) || PlainDuplicate(arms)
  }

  function Clauses(arms: seq<Arm>, n: nat): seq<Clause>
    requires n <= |arms|
  {
    if n == 0 then [] else Clauses(arms, n - 1) + [Clause(Names(arms[n - 1]), CatchesAll(arms[n - 1]), n - 1)]
  }

  function Tests(arms: seq<Arm>, n: nat): seq<Test>
    requires n <= |arms|
  {
    if n == 0 then []
    else if CatchesAll(arms[n - 1]) then Tests(arms, n - 1)
    else Tests(arms, n - 1) + [Test(Names(arms[n - 1]), arms[n - 1].guarded, n - 1)]
  }

  /** The last arm that catches everything. */
  function DefaultArm(arms: seq<Arm>, n: nat): Option<nat>
    requires n <= |arms|
  {
    if n == 0 then None else if CatchesAll(arms[n - 1]) then Some(n - 1) else DefaultArm(arms, n - 1)
  }

  /** Append to the group of that name, or open a new one at the end. */
  function AddCase(groups: seq<Group>, name: string, r: ArmRef): seq<Group> {
    if groups == [] then [Group(name, [r])]
    else if groups[0].name == name then [groups[0].(arms := groups[0].arms + [r])] + groups[1..]
    else [groups[0]] + AddCase(groups[1..], name, r)
  }

  function AddCases(groups: seq<Group>, names: seq<string>, r: ArmRef): seq<Group> {
    if names == [] then groups
    else
      var n := |names| - 1;
      AddCase(AddCases(groups, names[..n], r), names[n], r)
  }

  function Groups(arms: seq<Arm>, n: nat): seq<Group>
    requires n <= |arms|
  {
    if n == 0 then []
    else AddCases(Groups(arms, n - 1), Names(arms[n - 1]), ArmRef(n - 1, arms[n - 1].guarded))
  }

  /** Up to and with the first unguarded arm. */
  function Live(arms: seq<ArmRef>): seq<ArmRef> {
    if arms == [] then [] else if !arms[0].guarded then [arms[0]] else [arms[0]] + Live(arms[1..])
  }

  predicate AllGuarded(arms: seq<ArmRef>) { forall r | r in arms :: r.guarded }

  function Branches(groups: seq<Group>): seq<Branch> {
    if groups == [] then []
    else
      var n := |groups| - 1;
      Branches(groups[..n]) + [Branch(groups[n].name, Live(groups[n].arms), AllGuarded(groups[n].arms))]
  }

  function Lower(arms: seq<Arm>, cases: seq<CaseDecl>): Code {
    if HasPayload(cases) then
      var groups, otherwise := Groups(arms, |arms|), DefaultArm(arms, |arms|);
      if groups == [] then BareElse(otherwise) else Visit(Branches(groups), otherwise)
    else if NeedsIfChain(arms) then IfChain(Tests(arms, |arms|), DefaultArm(arms, |arms|))
    else Switch(Clauses(arms, |arms|))
  }

  // ------------------------------------------------------- what is asked for

  predicate CatchAllLast(arms: seq<Arm>) {
    forall i | 0 <= i < |arms| && CatchesAll(arms[i]) :: i == |arms| - 1 && !arms[i].guarded
  }

  /** No or-pattern names a case twice. */
  predicate NamesOnce(arms: seq<Arm>) { forall i | 0 <= i < |arms| :: Distinct(Names(arms[i])) }

  /** The code is C++: a visit has a case to test, and a switch repeats no label. */
  predicate Compiles(arms: seq<Arm>, cases: seq<CaseDecl>) {
    if HasPayload(cases) then exists a | a in arms :: Names(a) != []
    else NeedsIfChain(arms) || LabelsOnce(Clauses(arms, |arms|))
  }

  predicate Lowerable(arms: seq<Arm>, cases: seq<CaseDecl>) {
    CatchAllLast(arms) && Compiles(arms, cases) && (HasPayload(cases) ==> NamesOnce(arms))
  }

  predicate Exhaustive(arms: seq<Arm>, c: string) {
    exists a | a in arms :: Matches(a, c) && !a.guarded
  }

  // ------------------------------------------------------------------ switch

  lemma {:induction false} ClausesAt(arms: seq<Arm>, n: nat)
    requires n <= |arms|
    ensures |Clauses(arms, n)| == n
    ensures forall i | 0 <= i < n :: Clauses(arms, n)[i] == Clause(Names(arms[i]), CatchesAll(arms[i]), i)
    decreases n
  {
    if n > 0 { ClausesAt(arms, n - 1); }
  }

  lemma {:induction false} SwitchSelects(arms: seq<Arm>, k: nat, c: string, truth: nat -> bool)
    requires k <= |arms| && CatchAllLast(arms) && forall a | a in arms :: !a.guarded
    ensures RunSwitch(Clauses(arms, |arms|), k, c, None) == FirstMatch(arms, k, c, truth)
    decreases |arms| - k
  {
    ClausesAt(arms, |arms|);
    if k < |arms| { SwitchSelects(arms, k + 1, c, truth); }
  }

  // ---------------------------------------------------------------- if-chain

  lemma {:induction false} TestsAt(arms: seq<Arm>, n: nat)
    requires n <= |arms| && forall i | 0 <= i < n :: !CatchesAll(arms[i])
    ensures |Tests(arms, n)| == n && DefaultArm(arms, n) == None
    ensures forall i | 0 <= i < n :: Tests(arms, n)[i] == Test(Names(arms[i]), arms[i].guarded, i)
    decreases n
  {
    if n > 0 { TestsAt(arms, n - 1); }
  }

  /** The arms before the one that catches everything. */
  function Named(arms: seq<Arm>): nat {
    if arms != [] && CatchesAll(arms[|arms| - 1]) then |arms| - 1 else |arms|
  }

  lemma LastArm(arms: seq<Arm>)
    requires CatchAllLast(arms)
    ensures var n := Named(arms);
      && DefaultArm(arms, |arms|) == (if n < |arms| then Some(n) else None)
      && Tests(arms, |arms|) == Tests(arms, n) && Groups(arms, |arms|) == Groups(arms, n)
      && forall i | 0 <= i < n :: !CatchesAll(arms[i])
  {
    TestsAt(arms, Named(arms));
  }

  lemma {:induction false} TestsSelect(arms: seq<Arm>, k: nat, c: string, truth: nat -> bool)
    requires CatchAllLast(arms) && k <= Named(arms)
    ensures RunTests(Tests(arms, |arms|), k, c, truth, DefaultArm(arms, |arms|)) == FirstMatch(arms, k, c, truth)
    decreases |arms| - k
  {
    LastArm(arms);
    TestsAt(arms, Named(arms));
    if k < Named(arms) { TestsSelect(arms, k + 1, c, truth); }
  }

  // ------------------------------------------------------------------- visit

  /** The arms of the first `n` that name case `c`, in source order. */
  function ArmsFor(arms: seq<Arm>, n: nat, c: string): seq<ArmRef>
    requires n <= |arms|
  {
    if n == 0 then []
    else if c in Names(arms[n - 1]) then ArmsFor(arms, n - 1, c) + [ArmRef(n - 1, arms[n - 1].guarded)]
    else ArmsFor(arms, n - 1, c)
  }

  /** The arms in the group of that name. */
  function Find(groups: seq<Group>, c: string): seq<ArmRef> {
    if groups == [] then [] else if groups[0].name == c then groups[0].arms else Find(groups[1..], c)
  }

  lemma {:induction false} FindAdded(groups: seq<Group>, name: string, r: ArmRef, c: string)
    ensures Find(AddCase(groups, name, r), c) == Find(groups, c) + if c == name then [r] else []
    decreases groups
  {
    if groups != [] && groups[0].name != name { FindAdded(groups[1..], name, r, c); }
  }

  lemma {:induction false} FindAddedAll(groups: seq<Group>, names: seq<string>, r: ArmRef, c: string)
    requires Distinct(names)
    ensures Find(AddCases(groups, names, r), c) == Find(groups, c) + if c in names then [r] else []
    decreases names
  {
    if names != [] {
      var n := |names| - 1;
      FindAddedAll(groups, names[..n], r, c);
      FindAdded(AddCases(groups, names[..n], r), names[n], r, c);
      assert c in names <==> c in names[..n] || c == names[n];
    }
  }

  lemma {:induction false} GroupsHold(arms: seq<Arm>, n: nat, c: string)
    requires n <= |arms| && NamesOnce(arms)
    ensures Find(Groups(arms, n), c) == ArmsFor(arms, n, c)
    decreases n
  {
    if n > 0 {
      GroupsHold(arms, n - 1, c);
      FindAddedAll(Groups(arms, n - 1), Names(arms[n - 1]), ArmRef(n - 1, arms[n - 1].guarded), c);
    }
  }

  lemma {:induction false} AddedCases(groups: seq<Group>, names: seq<string>, r: ArmRef)
    ensures AddCases(groups, names, r) == [] <==> groups == [] && names == []
    decreases names
  {
    if names != [] { AddedCases(groups, names[..|names| - 1], r); }
  }

  /** There is a group exactly when some arm names a case. */
  lemma {:induction false} SomeGroup(arms: seq<Arm>, n: nat)
    requires n <= |arms|
    ensures Groups(arms, n) == [] <==> forall i | 0 <= i < n :: Names(arms[i]) == []
    decreases n
  {
    if n > 0 {
      SomeGroup(arms, n - 1);
      AddedCases(Groups(arms, n - 1), Names(arms[n - 1]), ArmRef(n - 1, arms[n - 1].guarded));
    }
  }

  /** The code is rejected exactly when it does not compile. */
  lemma RejectedIff(arms: seq<Arm>, cases: seq<CaseDecl>, c: string, truth: nat -> bool)
    ensures Execute(Lower(arms, cases), c, truth).selected == Rejected <==> !Compiles(arms, cases)
  {
    if HasPayload(cases) {
      SomeGroup(arms, |arms|);
      if Groups(arms, |arms|) != [] {
        VisitNotRejected(Branches(Groups(arms, |arms|)), 0, c, truth, DefaultArm(arms, |arms|));
      }
    } else if NeedsIfChain(arms) {
      TestsNotRejected(Tests(arms, |arms|), 0, c, truth, DefaultArm(arms, |arms|));
    } else {
      SwitchNotRejected(Clauses(arms, |arms|), 0, c, None);
    }
  }

  lemma {:induction false} SwitchNotRejected(clauses: seq<Clause>, k: nat, c: string, otherwise: Option<nat>)
    ensures RunSwitch(clauses, k, c, otherwise).selected != Rejected
    decreases |clauses| - k
  {
    if k < |clauses| {
      SwitchNotRejected(clauses, k + 1, c, if clauses[k].isDefault then Some(clauses[k].arm) else otherwise);
    }
  }

  lemma {:induction false} TestsNotRejected(tests: seq<Test>, k: nat, c: string, truth: nat -> bool, otherwise: Option<nat>)
    ensures RunTests(tests, k, c, truth, otherwise).selected != Rejected
    decreases |tests| - k
  {
    if k < |tests| { TestsNotRejected(tests, k + 1, c, truth, otherwise); }
  }

  lemma {:induction false} ArmsNotRejected(arms: seq<ArmRef>, truth: nat -> bool, otherwise: Option<nat>)
    ensures RunArms(arms, truth, otherwise).selected != Rejected
    decreases arms
  {
    if arms != [] { ArmsNotRejected(arms[1..], truth, otherwise); }
  }

  lemma {:induction false} VisitNotRejected(branches: seq<Branch>, k: nat, c: string, truth: nat -> bool, otherwise: Option<nat>)
    ensures RunVisit(branches, k, c, truth, otherwise).selected != Rejected
    decreases |branches| - k
  {
    if k < |branches| {
      ArmsNotRejected(branches[k].arms, truth, if branches[k].falls then otherwise else None);
      VisitNotRejected(branches, k + 1, c, truth, otherwise);
    }
  }

  lemma {:induction false} BranchesAt(groups: seq<Group>)
    ensures |Branches(groups)| == |groups|
    ensures forall i | 0 <= i < |groups| ::
      Branches(groups)[i] == Branch(groups[i].name, Live(groups[i].arms), AllGuarded(groups[i].arms))
    decreases groups
  {
    if groups != [] { BranchesAt(groups[..|groups| - 1]); }
  }

  /** Arms after an unguarded one never run. */
  lemma {:induction false} LiveSuffices(arms: seq<ArmRef>, truth: nat -> bool, otherwise: Option<nat>)
    ensures RunArms(Live(arms), truth, if AllGuarded(arms) then otherwise else None) == RunArms(arms, truth, otherwise)
    decreases arms
  {
    if arms != [] && arms[0].guarded {
      LiveSuffices(arms[1..], truth, otherwise);
      assert AllGuarded(arms) <==> AllGuarded(arms[1..]);
      assert Live(arms)[1..] == Live(arms[1..]);
    }
  }

  lemma {:induction false} VisitRunsGroup(groups: seq<Group>, k: nat, c: string, truth: nat -> bool, otherwise: Option<nat>)
    requires k <= |groups|
    ensures RunVisit(Branches(groups), k, c, truth, otherwise) == RunArms(Find(groups[k..], c), truth, otherwise)
    decreases |groups| - k
  {
    BranchesAt(groups);
    if k < |groups| {
      assert groups[k..][0] == groups[k] && groups[k..][1..] == groups[k + 1..];
      if groups[k].name == c {
        LiveSuffices(groups[k].arms, truth, otherwise);
      } else {
        VisitRunsGroup(groups, k + 1, c, truth, otherwise);
      }
    }
  }

  /** The arms from `k` on that name `c`. */
  function ArmsFrom(arms: seq<Arm>, k: nat, n: nat, c: string): seq<ArmRef>
    requires k <= n <= |arms|
    decreases n - k
  {
    if k == n then []
    else if c in Names(arms[k]) then [ArmRef(k, arms[k].guarded)] + ArmsFrom(arms, k + 1, n, c)
    else ArmsFrom(arms, k + 1, n, c)
  }

  lemma {:induction false} ArmsSplit(arms: seq<Arm>, k: nat, n: nat, c: string)
    requires k <= n <= |arms|
    ensures ArmsFor(arms, n, c) == ArmsFor(arms, k, c) + ArmsFrom(arms, k, n, c)
    decreases n - k
  {
    if k < n { ArmsSplit(arms, k + 1, n, c); }
  }

  lemma {:induction false} NamedArmsSelect(arms: seq<Arm>, k: nat, c: string, truth: nat -> bool)
    requires CatchAllLast(arms) && k <= Named(arms)
    ensures RunArms(ArmsFrom(arms, k, Named(arms), c), truth, DefaultArm(arms, |arms|)) == FirstMatch(arms, k, c, truth)
    decreases |arms| - k
  {
    LastArm(arms);
    if k < Named(arms) {
      NamedArmsSelect(arms, k + 1, c, truth);
      if c in Names(arms[k]) {
        assert ArmsFrom(arms, k, Named(arms), c)[1..] == ArmsFrom(arms, k + 1, Named(arms), c);
      }
    }
  }

  // ------------------------------------------------------------ the theorems

  /** Whatever form the match is lowered to, it selects the arm that source order selects, after
      evaluating the same guards. */
  lemma LoweringSelectsFirstMatch(arms: seq<Arm>, cases: seq<CaseDecl>, c: string, truth: nat -> bool)
    requires Lowerable(arms, cases)
    ensures Execute(Lower(arms, cases), c, truth) == FirstMatch(arms, 0, c, truth)
  {
    if HasPayload(cases) {
      var groups, fallback := Groups(arms, |arms|), DefaultArm(arms, |arms|);
      SomeGroup(arms, |arms|);
      VisitRunsGroup(groups, 0, c, truth, fallback);
      assert groups[0..] == groups;
      LastArm(arms);
      GroupsHold(arms, Named(arms), c);
      ArmsSplit(arms, 0, Named(arms), c);
      assert ArmsFor(arms, Named(arms), c) == ArmsFrom(arms, 0, Named(arms), c);
      NamedArmsSelect(arms, 0, c, truth);
    } else if NeedsIfChain(arms) {
      TestsSelect(arms, 0, c, truth);
    } else {
      SwitchSelects(arms, 0, c, truth);
    }
  }

  /** `match x { default: 0 }` over an enum with payloads: source order selects the default, and
      the code is an `else` without an `if`. */
  lemma CatchAllAloneIsRejected(name: string, truth: nat -> bool)
    ensures var arms, cases := [Arm(true, Wildcard, false)], [CaseDecl(name, true)];
      && FirstMatch(arms, 0, name, truth).selected == Body(0)
      && Lower(arms, cases) == BareElse(Some(0))
      && Execute(Lower(arms, cases), name, truth).selected == Rejected
  {
    var arms, cases := [Arm(true, Wildcard, false)], [CaseDecl(name, true)];
    assert cases[0] in cases && HasPayload(cases);
    SomeGroup(arms, 1);
  }

  lemma {:induction false} FirstMatchFinds(arms: seq<Arm>, k: nat, c: string, truth: nat -> bool)
    requires k <= |arms| && exists a | a in arms[k..] :: Matches(a, c) && !a.guarded
    ensures FirstMatch(arms, k, c, truth).selected.Body?
    decreases |arms| - k
  {
    assert arms[k..] == [arms[k]] + arms[k + 1..];
    if !Matches(arms[k], c) || arms[k].guarded { FirstMatchFinds(arms, k + 1, c, truth); }
  }

  /** Exhaustive arms never reach the point that is marked unreachable. */
  lemma ExhaustiveNeverUnreachable(arms: seq<Arm>, cases: seq<CaseDecl>, c: string, truth: nat -> bool)
    requires Lowerable(arms, cases) && Exhaustive(arms, c)
    ensures Execute(Lower(arms, cases), c, truth).selected.Body?
  {
    LoweringSelectsFirstMatch(arms, cases, c, truth);
    assert arms[0..] == arms;
    FirstMatchFinds(arms, 0, c, truth);
  }

  /** A catch-all that does not come last is moved behind the arms that follow it. */
  lemma EarlyDefaultIsPassedOver(truth: nat -> bool)
    requires truth(1)
    ensures var arms, cases := [Arm(true, Wildcard, false), Arm(false, Case("a"), true)], [CaseDecl("a", false)];
      && FirstMatch(arms, 0, "a", truth).selected == Body(0)
      && Execute(Lower(arms, cases), "a", truth).selected == Body(1)
  {
    var arms, cases := [Arm(true, Wildcard, false), Arm(false, Case("a"), true)], [CaseDecl("a", false)];
    assert arms[1] in arms && NeedsIfChain(arms);
    assert Tests(arms, 1) == Tests(arms, 0) && Tests(arms, 2) == [Test(["a"], true, 1)];
    assert DefaultArm(arms, 2) == Some(0);
  }

  lemma {:induction false} AddCaseAt(groups: seq<Group>, name: string, r: ArmRef, i: nat)
    requires i <= |groups| && forall k | 0 <= k < i :: groups[k].name != name
    requires i < |groups| ==> groups[i].name == name
    ensures AddCase(groups, name, r) ==
      if i < |groups| then groups[i := groups[i].(arms := groups[i].arms + [r])] else groups + [Group(name, [r])]
    decreases groups
  {
    if i > 0 {
      AddCaseAt(groups[1..], name, r, i - 1);
      assert groups == [groups[0]] + groups[1..];
    }
  }

  // --------------------------------------------------------------- the emitter

  /** The emitter as it runs: one pass over the arms that fills the groups. */
  class Emitter {
    var groups: seq<Group>
    var fallback: Option<nat>

    constructor ()
      ensures groups == [] && fallback == None
    {
      groups, fallback := [], None;
    }

    method EmitMatch(arms: seq<Arm>, cases: seq<CaseDecl>) returns (code: Code)
      requires groups == [] && fallback == None
      modifies this
      ensures code == Lower(arms, cases)
    {
      var payload := false;
      for i := 0 to |cases|
        invariant payload <==> HasPayload(cases[..i])
      {
        if cases[i].hasPayload { payload := true; }
      }
      assert cases[..|cases|] == cases;
      if payload {
        CollectGroups(arms);
        var branches := EmitBranches();
        BranchesAt(groups);
        if branches == [] { return BareElse(fallback); }
        return Visit(branches, fallback);
      }
      var chain := NeedsChain(arms);
      if chain {
        var tests := EmitTests(arms);
        return IfChain(tests, fallback);
      }
      var clauses := EmitClauses(arms);
      code := Switch(clauses);
    }

    static method NeedsChain(arms: seq<Arm>) returns (chain: bool)
      ensures chain == NeedsIfChain(arms)
    {
      var anyGuard, anyDuplicate := false, false;
      var seen: set<string> := {};
      for i := 0 to |arms|
        invariant anyGuard <==> exists a | a in arms[..i] :: a.guarded
        invariant seen == set k | 0 <= k < i && arms[k].pattern.Case? :: arms[k].pattern.name
        invariant anyDuplicate <==> PlainDuplicate(arms[..i])
      {
        assert arms[..i + 1] == arms[..i] + [arms[i]];
        if arms[i].guarded { anyGuard := true; }
        if arms[i].pattern.Case? {
          if arms[i].pattern.name in seen {
            var k :| 0 <= k < i && arms[k].pattern.Case? && arms[k].pattern.name == arms[i].pattern.name;
            assert arms[..i + 1][k].pattern == arms[..i + 1][i].pattern;
            anyDuplicate := true;
          }
          seen := seen + {arms[i].pattern.name};
        }
      }
      assert arms[..|arms|] == arms;
      chain := anyGuard || anyDuplicate;
    }

    static method EmitClauses(arms: seq<Arm>) returns (clauses: seq<Clause>)
      ensures clauses == Clauses(arms, |arms|)
    {
      clauses := [];
      for i := 0 to |arms|
        invariant clauses == Clauses(arms, i)
      {
        clauses := clauses + [Clause(Names(arms[i]), CatchesAll(arms[i]), i)];
      }
    }

    method EmitTests(arms: seq<Arm>) returns (tests: seq<Test>)
      requires fallback == None
      modifies `fallback
      ensures tests == Tests(arms, |arms|) && fallback == DefaultArm(arms, |arms|)
    {
      tests := [];
      for i := 0 to |arms|
        invariant tests == Tests(arms, i) && fallback == DefaultArm(arms, i)
      {
        if CatchesAll(arms[i]) {
          fallback := Some(i);
          continue;
        }
        tests := tests + [Test(Names(arms[i]), arms[i].guarded, i)];
      }
    }

    method CollectGroups(arms: seq<Arm>)
      requires groups == [] && fallback == None
      modifies this
      ensures groups == Groups(arms, |arms|) && fallback == DefaultArm(arms, |arms|)
    {
      for i := 0 to |arms|
        invariant groups == Groups(arms, i) && fallback == DefaultArm(arms, i)
      {
        if CatchesAll(arms[i]) {
          fallback := Some(i);
          continue;
        }
        var names := Names(arms[i]);
        ghost var before := groups;
        for k := 0 to |names|
          invariant groups == AddCases(before, names[..k], ArmRef(i, arms[i].guarded))
          invariant fallback == DefaultArm(arms, i)
        {
          assert names[..k + 1][..k] == names[..k];
          AddToGroup(names[k], ArmRef(i, arms[i].guarded));
        }
        assert names[..|names|] == names;
      }
    }

    method AddToGroup(name: string, r: ArmRef)
      modifies `groups
      ensures groups == AddCase(old(groups), name, r)
    {
      var i := 0;
      while i < |groups| && groups[i].name != name
        invariant i <= |groups| && forall k | 0 <= k < i :: groups[k].name != name
      {
        i := i + 1;
      }
      AddCaseAt(groups, name, r, i);
      if i == |groups| {
        groups := groups + [Group(name, [r])];
      } else {
        groups := groups[i := groups[i].(arms := groups[i].arms + [r])];
      }
    }

    method EmitBranches() returns (branches: seq<Branch>)
      ensures branches == Branches(groups)
    {
      branches := [];
      for i := 0 to |groups|
        invariant branches == Branches(groups[..i])
      {
        assert groups[..i + 1][..i] == groups[..i];
        var live, falls := EmitArms(groups[i].arms);
        branches := branches + [Branch(groups[i].name, live, falls)];
      }
      assert groups[..|groups|] == groups;
    }

    /** Emission stops after the first unguarded arm. */
    static method EmitArms(arms: seq<ArmRef>) returns (live: seq<ArmRef>, falls: bool)
      ensures live == Live(arms) && falls == AllGuarded(arms)
    {
      live, falls := [], true;
      var i := 0;
      while i < |arms| && falls
        invariant i <= |arms|
        invariant falls ==> AllGuarded(arms[..i]) && Live(arms) == live + Live(arms[i..])
        invariant !falls ==> live == Live(arms) && !AllGuarded(arms)
        decreases |arms| - i, falls
      {
        assert arms[i..][1..] == arms[i + 1..] && arms[..i + 1] == arms[..i] + [arms[i]];
        live := live + [arms[i]];
        if !arms[i].guarded {
          assert arms[i] in arms;
          falls := false;
        }
        i := i + 1;
      }
      if falls { assert arms[..i] == arms && arms[i..] == []; }
    }
  }
}
