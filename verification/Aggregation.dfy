/** The summary of a run's evaluations (eval_service/app/aggregation.py). */
module Aggregation {
  import opened Common
  import opened KeyOrder
  import opened StableSort
  import Medians

  datatype CheckName = OutcomeOk | SafetyOk | PaymentBoundaryOk | EvidenceOk | RecommendationsOk

  const CHECK_NAMES := [OutcomeOk, SafetyOk, PaymentBoundaryOk, EvidenceOk, RecommendationsOk]

  /** A check's place in `CHECK_NAMES`. */
  function Rank(name: CheckName): (k: nat)
    ensures k < |CHECK_NAMES| && CHECK_NAMES[k] == name
  {
    match name
    case OutcomeOk => 0
    case SafetyOk => 1
    case PaymentBoundaryOk => 2
    case EvidenceOk => 3
    case RecommendationsOk => 4
  }

  datatype CheckStatus = Passed | NotOk | Skipped

  datatype Check = Check(status: CheckStatus, reason: string)

  /** Every evaluation has all five checks; anything else does not load. */
  datatype Checks = Checks(outcome: Check, safety: Check, payment: Check, evidence: Check, recommendations: Check) {
    function Get(name: CheckName): Check {
      match name
      case OutcomeOk => outcome
      case SafetyOk => safety
      case PaymentBoundaryOk => payment
      case EvidenceOk => evidence
      case RecommendationsOk => recommendations
    }
  }

  datatype Evaluation = Evaluation(runId: string, caseId: string, version: string, sessionId: string, host: string,
                                   checks: Checks, duration: Option<nat>, tokens: Option<nat>) {
    function Key(): seq<string> {
      [runId, caseId, version, sessionId]
    }
  }

  // ----- sorting

  predicate Before(a: Evaluation, b: Evaluation) {
    KeyBefore(a.Key(), b.Key())
  }

  /** By key; evaluations with equal keys keep their order. */
  function Sorted(evaluations: seq<Evaluation>): seq<Evaluation> {
    Sort(evaluations, Before)
  }

  predicate IsSorted(evaluations: seq<Evaluation>) {
    InOrder(evaluations, Before)
  }

  lemma BeforeIsOrder()
    ensures IsOrder(Before)
  {
    forall a: Evaluation, b: Evaluation
      ensures Before(a, b) ==> !Before(b, a)
    {
      KeysCompare(a.Key(), b.Key());
    }
    forall a: Evaluation, b: Evaluation, c: Evaluation
      ensures Before(a, c) ==> Before(a, b) || Before(b, c)
    {
      KeysCompare(a.Key(), b.Key());
      if Before(a, c) && Before(b, a) {
        KeysChain(b.Key(), a.Key(), c.Key());
      }
    }
  }

  lemma SortedSorts(evaluations: seq<Evaluation>)
    ensures IsSorted(Sorted(evaluations)) && multiset(Sorted(evaluations)) == multiset(evaluations)
  {
    BeforeIsOrder();
    SortSorts(evaluations, Before);
    SortPermutes(evaluations, Before);
  }

  /** Sorting again changes nothing: `compute_baselines` sorts what `aggregate_evaluations` has sorted. */
  lemma SortedAgain(evaluations: seq<Evaluation>)
    ensures Sorted(Sorted(evaluations)) == Sorted(evaluations)
  {
    SortedSorts(evaluations);
    SortOfSorted(Sorted(evaluations), Before);
  }

  /** Two evaluations of one input with the same key are the same evaluation. */
  ghost predicate KeyIdentifies(evaluations: seq<Evaluation>) {
    forall a, b | a in evaluations && b in evaluations && a.Key() == b.Key() :: a == b
  }

  lemma Shorter(a: seq<Evaluation>)
    requires a != [] && IsSorted(a)
    ensures IsSorted(a[..|a| - 1]) && (KeyIdentifies(a) ==> KeyIdentifies(a[..|a| - 1]))
  {
  }

  lemma LastIsLargest(a: seq<Evaluation>, b: seq<Evaluation>)
    requires IsSorted(a) && a != [] && b != [] && multiset(a) == multiset(b)
    ensures !KeyBefore(a[|a| - 1].Key(), b[|b| - 1].Key())
  {
    var y := b[|b| - 1];
    assert y in multiset(a);
    var i :| 0 <= i < |a| && a[i] == y;
    KeysCompare(y.Key(), y.Key());
  }

  lemma LastsAgree(a: seq<Evaluation>, b: seq<Evaluation>)
    requires IsSorted(a) && IsSorted(b) && a != [] && b != [] && multiset(a) == multiset(b) && KeyIdentifies(a)
    ensures a[|a| - 1] == b[|b| - 1]
  {
    LastIsLargest(a, b);
    LastIsLargest(b, a);
    KeysCompare(a[|a| - 1].Key(), b[|b| - 1].Key());
    assert b[|b| - 1] in multiset(a);
  }

  lemma SameRest(a: multiset<Evaluation>, b: multiset<Evaluation>, last: multiset<Evaluation>)
    requires a + last == b + last
    ensures a == b
  {
    assert a == a + last - last && b == b + last - last;
  }

  lemma FrontPermutes(a: seq<Evaluation>, b: seq<Evaluation>)
    requires a != [] && b != [] && multiset(a) == multiset(b) && a[|a| - 1] == b[|b| - 1]
    ensures multiset(a[..|a| - 1]) == multiset(b[..|b| - 1])
  {
    FrontAndLast(a);
    FrontAndLast(b);
    SameRest(multiset(a[..|a| - 1]), multiset(b[..|b| - 1]), multiset{a[|a| - 1]});
  }

  lemma SameLength(a: seq<Evaluation>, b: seq<Evaluation>)
    requires multiset(a) == multiset(b)
    ensures |a| == |b|
  {
    assert |a| == |multiset(a)| && |b| == |multiset(b)|;
  }

  lemma SameIfFrontsSame(a: seq<Evaluation>, b: seq<Evaluation>)
    requires |a| == |b| > 0 && a[..|a| - 1] == b[..|b| - 1] && a[|a| - 1] == b[|b| - 1]
    ensures a == b
  {
    assert a == a[..|a| - 1] + [a[|a| - 1]];
  }

  /** Sorted evaluations with distinct keys are in the only order there is. */
  lemma {:induction false} SortedIsUnique(a: seq<Evaluation>, b: seq<Evaluation>)
    requires IsSorted(a) && IsSorted(b) && multiset(a) == multiset(b) && KeyIdentifies(a)
    ensures a == b
    decreases |a|
  {
    SameLength(a, b);
    if |a| > 0 {
      LastsAgree(a, b);
      FrontPermutes(a, b);
      Shorter(a);
      Shorter(b);
      SortedIsUnique(a[..|a| - 1], b[..|b| - 1]);
      SameIfFrontsSame(a, b);
    }
  }

  // ----- the summary

  datatype CaseRef = CaseRef(runId: string, caseId: string, host: string, check: CheckName, reason: string)

  datatype CheckSummary = CheckSummary(passed: nat, notOk: nat, skipped: nat, reasons: map<string, nat>,
                                       notOkCases: seq<CaseRef>)

  datatype Summary = Summary(total: nat, checks: map<CheckName, CheckSummary>, skippedReasons: map<string, nat>,
                             notOkCases: seq<CaseRef>, rows: seq<Evaluation>)

  const EMPTY := CheckSummary(0, 0, 0, map[], [])

  function Count(m: map<string, nat>, key: string): nat {
    if key in m then m[key] else 0
  }

  function RefOf(e: Evaluation, name: CheckName): CaseRef {
    CaseRef(e.runId, e.caseId, e.host, name, e.checks.Get(name).reason)
  }

  /** One check of one evaluation, counted. */
  function AddCheck(s: CheckSummary, e: Evaluation, name: CheckName): CheckSummary {
    var c := e.checks.Get(name);
    match c.status
    case Passed => s.(passed := s.passed + 1)
    case NotOk => s.(notOk := s.notOk + 1, notOkCases := s.notOkCases + [RefOf(e, name)])
    case Skipped => s.(skipped := s.skipped + 1, reasons := s.reasons[c.reason := Count(s.reasons, c.reason) + 1])
  }

  function CheckSummaryOf(items: seq<Evaluation>, name: CheckName): CheckSummary {
    if items == [] then EMPTY
    else AddCheck(CheckSummaryOf(items[..|items| - 1], name), items[|items| - 1], name)
  }

  /** How many checks have this status, and how many of those this reason. */
  function StatusCount(items: seq<Evaluation>, name: CheckName, status: CheckStatus): nat {
    if items == [] then 0
    else
      StatusCount(items[..|items| - 1], name, status)
      + if items[|items| - 1].checks.Get(name).status == status then 1 else 0
  }

  function ReasonCount(items: seq<Evaluation>, name: CheckName, reason: string): nat {
    if items == [] then 0
    else
      ReasonCount(items[..|items| - 1], name, reason)
      + if items[|items| - 1].checks.Get(name) == Check(Skipped, reason) then 1 else 0
  }

  function SumReasons(reasons: seq<string>, m: map<string, nat>): nat {
    if reasons == [] then 0 else SumReasons(reasons[..|reasons| - 1], m) + Count(m, reasons[|reasons| - 1])
  }

  /** The counters are the counts, and together they count every evaluation. */
  lemma {:induction false} ChecksAddUp(items: seq<Evaluation>, name: CheckName)
    ensures var s := CheckSummaryOf(items, name);
      && s.passed == StatusCount(items, name, Passed) && s.notOk == StatusCount(items, name, NotOk)
      && s.skipped == StatusCount(items, name, Skipped)
      && s.passed + s.notOk + s.skipped == |items| && |s.notOkCases| == s.notOk
      && (forall reason :: Count(s.reasons, reason) == ReasonCount(items, name, reason))
  {
    if items != [] {
      ChecksAddUp(items[..|items| - 1], name);
    }
  }

  lemma {:induction false} SumReasonsAdd(reasons: seq<string>, m: map<string, nat>, reason: string)
    requires NoDuplicates(reasons)
    ensures SumReasons(reasons, m[reason := Count(m, reason) + 1])
         == SumReasons(reasons, m) + if reason in reasons then 1 else 0
  {
    if reasons != [] {
      var front := reasons[..|reasons| - 1];
      SumReasonsAdd(front, m, reason);
      assert reasons == front + [reasons[|reasons| - 1]];
    }
  }

  lemma {:induction false} SumReasonsOfNothing(reasons: seq<string>)
    ensures SumReasons(reasons, map[]) == 0
  {
    if reasons != [] {
      SumReasonsOfNothing(reasons[..|reasons| - 1]);
    }
  }

  lemma {:induction false} KnownReasons(items: seq<Evaluation>, name: CheckName)
    requires items != []
    ensures CheckSummaryOf(items[..|items| - 1], name).reasons.Keys <= CheckSummaryOf(items, name).reasons.Keys
  {
  }

  /** The reason counts of a check sum to its skipped count. */
  lemma {:induction false} ReasonsAddUp(items: seq<Evaluation>, name: CheckName, reasons: seq<string>)
    requires NoDuplicates(reasons) && forall r | r in CheckSummaryOf(items, name).reasons :: r in reasons
    ensures SumReasons(reasons, CheckSummaryOf(items, name).reasons) == CheckSummaryOf(items, name).skipped
  {
    if items == [] {
      SumReasonsOfNothing(reasons);
    } else {
      KnownReasons(items, name);
      var front := CheckSummaryOf(items[..|items| - 1], name);
      assert forall r | r in front.reasons :: r in CheckSummaryOf(items, name).reasons.Keys;
      ReasonsAddUp(items[..|items| - 1], name, reasons);
      SumReasonsAdd(reasons, front.reasons, items[|items| - 1].checks.Get(name).reason);
    }
  }

  /** Over all checks: the reasons of skipped checks, and the failed ones in order. */
  function AddSkipped(m: map<string, nat>, e: Evaluation, n: nat): map<string, nat>
    requires n <= |CHECK_NAMES|
  {
    if n == 0 then m
    else
      var before, c := AddSkipped(m, e, n - 1), e.checks.Get(CHECK_NAMES[n - 1]);
      if c.status == Skipped then before[c.reason := Count(before, c.reason) + 1] else before
  }

  function AddNotOk(refs: seq<CaseRef>, e: Evaluation, n: nat): seq<CaseRef>
    requires n <= |CHECK_NAMES|
  {
    if n == 0 then refs
    else
      AddNotOk(refs, e, n - 1)
      + if e.checks.Get(CHECK_NAMES[n - 1]).status == NotOk then [RefOf(e, CHECK_NAMES[n - 1])] else []
  }

  function SkippedOf(items: seq<Evaluation>): map<string, nat> {
    if items == [] then map[] else AddSkipped(SkippedOf(items[..|items| - 1]), items[|items| - 1], |CHECK_NAMES|)
  }

  function NotOkOf(items: seq<Evaluation>): seq<CaseRef> {
    if items == [] then [] else AddNotOk(NotOkOf(items[..|items| - 1]), items[|items| - 1], |CHECK_NAMES|)
  }

  function SumOverChecks(items: seq<Evaluation>, f: (seq<Evaluation>, CheckName) -> nat): nat {
    f(items, OutcomeOk) + f(items, SafetyOk) + f(items, PaymentBoundaryOk) + f(items, EvidenceOk)
    + f(items, RecommendationsOk)
  }

  function IsReason(e: Evaluation, n: nat, reason: string): nat
    requires n < |CHECK_NAMES|
  {
    if e.checks.Get(CHECK_NAMES[n]) == Check(Skipped, reason) then 1 else 0
  }

  lemma AddSkippedCounts(m: map<string, nat>, e: Evaluation, reason: string)
    ensures Count(AddSkipped(m, e, |CHECK_NAMES|), reason)
         == Count(m, reason) + IsReason(e, 0, reason) + IsReason(e, 1, reason) + IsReason(e, 2, reason)
            + IsReason(e, 3, reason) + IsReason(e, 4, reason)
  {
    assert AddSkipped(m, e, 0) == m;
    assert Count(AddSkipped(m, e, 1), reason) == Count(m, reason) + IsReason(e, 0, reason);
    assert Count(AddSkipped(m, e, 2), reason) == Count(AddSkipped(m, e, 1), reason) + IsReason(e, 1, reason);
    assert Count(AddSkipped(m, e, 3), reason) == Count(AddSkipped(m, e, 2), reason) + IsReason(e, 2, reason);
    assert Count(AddSkipped(m, e, 4), reason) == Count(AddSkipped(m, e, 3), reason) + IsReason(e, 3, reason);
  }

  /** The overall count of a reason is the sum of its counts per check. */
  lemma {:induction false} OverallReasonsAddUp(items: seq<Evaluation>, reason: string)
    ensures Count(SkippedOf(items), reason) == SumOverChecks(items, (s, name) => ReasonCount(s, name, reason))
  {
    if items != [] {
      OverallReasonsAddUp(items[..|items| - 1], reason);
      AddSkippedCounts(SkippedOf(items[..|items| - 1]), items[|items| - 1], reason);
    }
  }

  ghost predicate Counts(checks: map<CheckName, CheckSummary>, items: seq<Evaluation>) {
    forall name: CheckName :: name in checks && checks[name] == CheckSummaryOf(items, name)
  }

  /** What the summary says about evaluations in this order. */
  ghost predicate IsSummaryOf(s: Summary, items: seq<Evaluation>) {
    && s.total == |items| && s.rows == items
    && Counts(s.checks, items)
    && s.skippedReasons == SkippedOf(items) && s.notOkCases == NotOkOf(items)
  }

  /** One check of one evaluation. */
  method CountCheck(s: CheckSummary, skipped: map<string, nat>, refs: seq<CaseRef>, e: Evaluation, k: nat,
                    ghost skipped0: map<string, nat>, ghost refs0: seq<CaseRef>)
    returns (s': CheckSummary, skipped': map<string, nat>, refs': seq<CaseRef>)
    requires k < |CHECK_NAMES| && skipped == AddSkipped(skipped0, e, k) && refs == AddNotOk(refs0, e, k)
    ensures s' == AddCheck(s, e, CHECK_NAMES[k])
    ensures skipped' == AddSkipped(skipped0, e, k + 1) && refs' == AddNotOk(refs0, e, k + 1)
  {
    var name := CHECK_NAMES[k];
    var check := e.checks.Get(name);
    s', skipped', refs' := s, skipped, refs;
    match check.status {
      case Passed => s' := s.(passed := s.passed + 1);
      case Skipped =>
        s' := s.(skipped := s.skipped + 1, reasons := s.reasons[check.reason := Count(s.reasons, check.reason) + 1]);
        skipped' := skipped[check.reason := Count(skipped, check.reason) + 1];
      case NotOk =>
        s' := s.(notOk := s.notOk + 1, notOkCases := s.notOkCases + [RefOf(e, name)]);
        refs' := refs + [RefOf(e, name)];
    }
  }

  /** The inner loop: every check of one evaluation. */
  method CountChecks(checks: map<CheckName, CheckSummary>, skipped: map<string, nat>, refs: seq<CaseRef>, e: Evaluation)
    returns (checks': map<CheckName, CheckSummary>, skipped': map<string, nat>, refs': seq<CaseRef>)
    requires forall name: CheckName :: name in checks
    ensures forall name: CheckName :: name in checks' && checks'[name] == AddCheck(checks[name], e, name)
    ensures skipped' == AddSkipped(skipped, e, |CHECK_NAMES|) && refs' == AddNotOk(refs, e, |CHECK_NAMES|)
  {
    checks', skipped', refs' := checks, skipped, refs;
    for k := 0 to |CHECK_NAMES|
      invariant forall name: CheckName ::
                  name in checks' && checks'[name] == if Rank(name) < k then AddCheck(checks[name], e, name) else checks[name]
      invariant skipped' == AddSkipped(skipped, e, k) && refs' == AddNotOk(refs, e, k)
    {
      var name := CHECK_NAMES[k];
      assert forall other: CheckName :: Rank(other) == k <==> other == name;
      var s;
      s, skipped', refs' := CountCheck(checks'[name], skipped', refs', e, k, skipped, refs);
      checks' := checks'[name := s];
    }
  }

  /** `aggregate_evaluations`, without the baselines. */
  method Aggregate(evaluations: seq<Evaluation>) returns (s: Summary)
    ensures IsSummaryOf(s, Sorted(evaluations))
  {
    var items := Sorted(evaluations);
    var checks: map<CheckName, CheckSummary> :=
      map[OutcomeOk := EMPTY, SafetyOk := EMPTY, PaymentBoundaryOk := EMPTY, EvidenceOk := EMPTY, RecommendationsOk := EMPTY];
    var skipped: map<string, nat>, refs: seq<CaseRef> := map[], [];
    forall name: CheckName
      ensures name in checks && checks[name] == EMPTY
    {
      match name
      case OutcomeOk =>
      case SafetyOk =>
      case PaymentBoundaryOk =>
      case EvidenceOk =>
      case RecommendationsOk =>
    }
    for i := 0 to |items|
      invariant Counts(checks, items[..i])
      invariant skipped == SkippedOf(items[..i]) && refs == NotOkOf(items[..i])
    {
      assert items[..i + 1][..i] == items[..i];
      checks, skipped, refs := CountChecks(checks, skipped, refs, items[i]);
    }
    assert items[..|items|] == items;
    s := Summary(|items|, checks, skipped, refs, items);
  }

  lemma KeyStillIdentifies(a: seq<Evaluation>)
    requires KeyIdentifies(a)
    ensures KeyIdentifies(Sorted(a))
  {
    SortedSorts(a);
    forall x | x in Sorted(a)
      ensures x in a
    {
      assert x in multiset(a);
    }
  }

  lemma SameCounts(a: map<CheckName, CheckSummary>, b: map<CheckName, CheckSummary>, items: seq<Evaluation>)
    requires Counts(a, items) && Counts(b, items)
    ensures a == b
  {
  }

  /** The order in which evaluations come in does not matter, as long as their keys tell them apart. */
  lemma OrderIsIrrelevant(a: seq<Evaluation>, b: seq<Evaluation>, s: Summary, t: Summary)
    requires multiset(a) == multiset(b) && KeyIdentifies(a)
    ensures Sorted(a) == Sorted(b)
    ensures IsSummaryOf(s, Sorted(a)) && IsSummaryOf(t, Sorted(b)) ==> s == t
  {
    SortedSorts(a);
    SortedSorts(b);
    KeyStillIdentifies(a);
    SortedIsUnique(Sorted(a), Sorted(b));
    if IsSummaryOf(s, Sorted(a)) && IsSummaryOf(t, Sorted(b)) {
      SameCounts(s.checks, t.checks, Sorted(a));
    }
  }

  // ----- baselines

  predicate IsEligible(e: Evaluation) {
    e.checks.outcome.status == Passed && e.checks.safety.status == Passed && e.checks.payment.status == Passed
  }

  function EligibleOf(items: seq<Evaluation>, caseId: string): seq<Evaluation> {
    if items == [] then []
    else
      var last := items[|items| - 1];
      EligibleOf(items[..|items| - 1], caseId) + if IsEligible(last) && last.caseId == caseId then [last] else []
  }

  function LastOnes(items: seq<Evaluation>, n: nat): seq<Evaluation> {
    if |items| <= n then items else items[|items| - n..]
  }

  function Durations(items: seq<Evaluation>): seq<nat> {
    if items == [] then []
    else
      var last := items[|items| - 1].duration;
      Durations(items[..|items| - 1]) + if last.Some? then [last.value] else []
  }

  function Tokens(items: seq<Evaluation>): seq<nat> {
    if items == [] then []
    else
      var last := items[|items| - 1].tokens;
      Tokens(items[..|items| - 1]) + if last.Some? then [last.value] else []
  }

  datatype Baseline = Baseline(sampleSize: nat, window: nat, duration: Option<real>, tokens: Option<real>)

  function BaselineOf(selected: seq<Evaluation>, window: nat): Baseline {
    Baseline(|selected|, window, Medians.Median(Durations(selected)), Medians.Median(Tokens(selected)))
  }

  /** A case has a baseline if some evaluation of it is eligible: the medians of the last ones in key order. */
  ghost predicate AreBaselines(baselines: map<string, Baseline>, items: seq<Evaluation>, window: nat) {
    forall c: string ::
      if EligibleOf(items, c) == [] then c !in baselines
      else c in baselines && baselines[c] == BaselineOf(LastOnes(EligibleOf(items, c), window), window)
  }

  function Group(byCase: map<string, seq<Evaluation>>, c: string): seq<Evaluation> {
    if c in byCase then byCase[c] else []
  }

  /** The first loop of `compute_baselines`. */
  method GroupEligible(items: seq<Evaluation>) returns (byCase: map<string, seq<Evaluation>>)
    ensures forall c: string :: Group(byCase, c) == EligibleOf(items, c)
    ensures forall c | c in byCase :: byCase[c] != []
  {
    byCase := map[];
    for i := 0 to |items|
      invariant forall c: string :: Group(byCase, c) == EligibleOf(items[..i], c)
      invariant forall c | c in byCase :: byCase[c] != []
    {
      var e := items[i];
      assert items[..i + 1][..i] == items[..i];
      if IsEligible(e) {
        byCase := byCase[e.caseId := Group(byCase, e.caseId) + [e]];
      }
    }
    assert items[..|items|] == items;
  }

  /** `compute_baselines`. */
  method ComputeBaselines(evaluations: seq<Evaluation>, window: int) returns (r: Result<map<string, Baseline>, string>)
    ensures window < 1 <==> r.Err?
    ensures r.Ok? ==> AreBaselines(r.value, Sorted(evaluations), window)
  {
    if window < 1 {
      return Err("baseline_window");
    }
    var byCase := GroupEligible(Sorted(evaluations));
    var baselines: map<string, Baseline>, todo := map[], byCase.Keys;
    while todo != {}
      invariant todo <= byCase.Keys
      invariant forall c | c in baselines :: c in byCase.Keys - todo
      invariant forall c | c in byCase.Keys - todo ::
                  c in baselines && baselines[c] == BaselineOf(LastOnes(byCase[c], window), window)
      decreases |todo|
    {
      var c :| c in todo;
      baselines := baselines[c := BaselineOf(LastOnes(byCase[c], window), window)];
      todo := todo - {c};
    }
    forall c: string
      ensures EligibleOf(Sorted(evaluations), c) == Group(byCase, c)
    {
    }
    return Ok(baselines);
  }
}
