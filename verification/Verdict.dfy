/** The verdict over constraint records, and what a panel's estimate contributes to it. */
module Verdict {

  import opened Prelude
  import opened Estimates

  datatype Kind = Harness | Correctness | Guard | Cost | Improvement | Completeness

  datatype Result = Passed | Failed | PassedOnRerun | Unresolved | NotEvaluated

  datatype Subject = EvolvedSubject | ReferenceSubject

  datatype Record = Record(id: string, kind: Kind, result: Result, subject: Subject)

  datatype Decision = PASS | NO_IMPROVEMENT | CONSTRAINT_VIOLATION | INCONCLUSIVE | ERROR

  const SUFFIX := "/improvement"

  predicate Names(id: string) {
    |id| >= |SUFFIX| && id[|id| - |SUFFIX|..] == SUFFIX
  }

  /** Neither the required identifiers nor the records are malformed; a kind, a result or a
      subject outside its enumeration cannot be written here. */
  predicate Wellformed(records: seq<Record>, required: seq<string>) {
    && required != [] && Distinct(required)
    && (forall i, j | 0 <= i < j < |records| :: records[i].id != records[j].id)
    && (exists i | 0 <= i < |required| :: Names(required[i]))
    && (forall i, k | 0 <= i < |required| && 0 <= k < |records| ::
          Names(required[i]) && records[k].id == required[i] ==> records[k].kind == Improvement)
    && (forall k | 0 <= k < |records| :: records[k].result == PassedOnRerun ==> records[k].kind == Cost)
  }

  predicate Satisfied(records: seq<Record>, id: string) {
    exists k | 0 <= k < |records| :: records[k].id == id && records[k].result in {Passed, PassedOnRerun}
  }

  predicate HarnessFailed(records: seq<Record>) {
    exists k | 0 <= k < |records| :: records[k].result == Failed && records[k].kind == Harness
  }

  predicate ConstraintFailed(records: seq<Record>) {
    exists k | 0 <= k < |records| ::
      records[k].result == Failed && records[k].subject == EvolvedSubject && records[k].kind != Improvement
  }

  predicate ReferenceFailed(records: seq<Record>) {
    exists k | 0 <= k < |records| :: records[k].result == Failed && records[k].subject == ReferenceSubject
  }

  predicate ObjectiveFailed(records: seq<Record>) {
    exists k | 0 <= k < |records| :: records[k].result == Failed && records[k].kind == Improvement
  }

  /** `verdict`; `None` when it raises an error. The order of the tests is the order of severity. */
  function Judge(records: seq<Record>, required: seq<string>): Option<Decision> {
    if !Wellformed(records, required) then None
    else if HarnessFailed(records) then Some(ERROR)
    else if ConstraintFailed(records) then Some(CONSTRAINT_VIOLATION)
    else if ReferenceFailed(records) then Some(INCONCLUSIVE)
    else if ObjectiveFailed(records) then Some(NO_IMPROVEMENT)
    else if forall i | 0 <= i < |required| :: Satisfied(records, required[i]) then Some(PASS)
    else Some(INCONCLUSIVE)
  }

  /** PASS means that nothing at all failed, required or not, and that every required record is
      there and passed: the tests leave no kind and no subject of failure out. */
  lemma PassMeansAllPassed(records: seq<Record>, required: seq<string>)
    requires Wellformed(records, required)
    ensures Judge(records, required) == Some(PASS) <==>
              && (forall k | 0 <= k < |records| :: records[k].result != Failed)
              && (forall i | 0 <= i < |required| :: Satisfied(records, required[i]))
  {
    forall k | 0 <= k < |records| && records[k].result == Failed
      ensures ConstraintFailed(records) || ReferenceFailed(records) || ObjectiveFailed(records)
    {
      match records[k].subject
      case EvolvedSubject => assert ConstraintFailed(records) || ObjectiveFailed(records);
      case ReferenceSubject => assert ReferenceFailed(records);
    }
  }

  // ----- What the inputs of a verdict must be

  ghost predicate Ends(id: string) {
    exists prefix :: id == prefix + SUFFIX
  }

  /** Required identifiers are there, none twice, one of them an improvement's; records have
      different identifiers, required improvement records are of that kind, and only cost records
      pass on a rerun. */
  ghost predicate Proper(records: seq<Record>, required: seq<string>) {
    && |required| > 0
    && (forall i, j | 0 <= i < |required| && 0 <= j < |required| && i != j :: required[i] != required[j])
    && (forall i, j | 0 <= i < |records| && 0 <= j < |records| && i != j :: records[i].id != records[j].id)
    && (exists id | id in required :: Ends(id))
    && (forall r | r in records :: r.id in required && Ends(r.id) ==> r.kind == Improvement)
    && (forall r | r in records :: r.result == PassedOnRerun ==> r.kind == Cost)
  }

  lemma NamesEnds(id: string)
    ensures Names(id) <==> Ends(id)
  {
    if Names(id) { assert id == id[..|id| - |SUFFIX|] + SUFFIX; }
  }

  lemma WellformedExactly(records: seq<Record>, required: seq<string>)
    ensures Wellformed(records, required) <==> Proper(records, required)
  {
    forall id ensures Names(id) <==> Ends(id) {
      NamesEnds(id);
    }
    if Wellformed(records, required) {
      forall r | r in records
        ensures r.id in required && Ends(r.id) ==> r.kind == Improvement
        ensures r.result == PassedOnRerun ==> r.kind == Cost
      {
        var k :| 0 <= k < |records| && records[k] == r;
        if r.id in required {
          var i :| 0 <= i < |required| && required[i] == r.id;
        }
      }
    }
    if Proper(records, required) {
      var id :| id in required && Ends(id);
      var i :| 0 <= i < |required| && required[i] == id;
      assert Names(required[i]);
    }
  }

  // ----- The worst record decides

  /** How grave a record is: a failure of the harness, of the candidate, of the reference, or of
      the objective, or none. */
  function Severity(r: Record): nat {
    if r.result != Failed then 0
    else if r.kind == Harness then 4
    else if r.kind == Improvement then if r.subject == ReferenceSubject then 2 else 1
    else if r.subject == EvolvedSubject then 3
    else 2
  }

  ghost predicate Worst(records: seq<Record>, worst: nat) {
    && (forall r | r in records :: Severity(r) <= worst)
    && (worst > 0 ==> exists r | r in records :: Severity(r) == worst)
  }

  /** Every required identifier has a record that passed, at once or on a rerun. */
  ghost predicate AllPassed(records: seq<Record>, required: seq<string>) {
    forall id | id in required :: exists r | r in records :: r.id == id && (r.result == Passed || r.result == PassedOnRerun)
  }

  lemma SeverityTests(records: seq<Record>)
    ensures HarnessFailed(records) <==> exists r | r in records :: Severity(r) == 4
    ensures !HarnessFailed(records) ==> (ConstraintFailed(records) <==> exists r | r in records :: Severity(r) == 3)
    ensures !HarnessFailed(records) ==> (ReferenceFailed(records) <==> exists r | r in records :: Severity(r) == 2)
    ensures ObjectiveFailed(records) ==> exists r | r in records :: Severity(r) in {1, 2}
    ensures (exists r | r in records :: Severity(r) == 1) ==> ObjectiveFailed(records)
  {
    forall k | 0 <= k < |records| ensures records[k] in records {
    }
    forall r | r in records ensures exists k :: 0 <= k < |records| && records[k] == r {
    }
  }

  lemma AllSatisfied(records: seq<Record>, required: seq<string>)
    ensures (forall i | 0 <= i < |required| :: Satisfied(records, required[i])) <==> AllPassed(records, required)
  {
    forall id
      ensures Satisfied(records, id) <==> exists r | r in records :: r.id == id && (r.result == Passed || r.result == PassedOnRerun)
    {
      if r :| r in records && r.id == id && (r.result == Passed || r.result == PassedOnRerun) {
        var k :| 0 <= k < |records| && records[k] == r;
      }
      if Satisfied(records, id) {
        var k :| 0 <= k < |records| && records[k].id == id && records[k].result in {Passed, PassedOnRerun};
        assert records[k] in records;
      }
    }
    if forall i | 0 <= i < |required| :: Satisfied(records, required[i]) {
      forall id | id in required ensures Satisfied(records, id) {
        var i :| 0 <= i < |required| && required[i] == id;
      }
    }
    if AllPassed(records, required) {
      forall i | 0 <= i < |required| ensures Satisfied(records, required[i]) {
        assert required[i] in required;
      }
    }
  }

  /** The verdict is refused exactly for improper inputs, and is otherwise that of the gravest
      record; without a failure it rests on the required records alone. */
  lemma WorstRecordDecides(records: seq<Record>, required: seq<string>, worst: nat)
    requires Worst(records, worst)
    ensures Judge(records, required).None? <==> !Proper(records, required)
    ensures Proper(records, required) ==>
              Judge(records, required)
              == Some(if worst == 4 then ERROR
                      else if worst == 3 then CONSTRAINT_VIOLATION
                      else if worst == 2 then INCONCLUSIVE
                      else if worst == 1 then NO_IMPROVEMENT
                      else if AllPassed(records, required) then PASS
                      else INCONCLUSIVE)
  {
    WellformedExactly(records, required);
    SeverityTests(records);
    AllSatisfied(records, required);
  }

  // ----- A panel's record

  datatype Policy = Policy(practicalRatio: real, improvementMultiplier: real, guardMultiplier: real)

  /** The result of a panel's record: the objective must improve beyond the practical ratio with
      its margin, a guard must not be worse beyond its margin. */
  function PanelResult(m: Math, policy: Policy, improvement: bool, outcome: Outcome): Result {
    match outcome
    case Graded(p) =>
      var score, se := p.overall.lnScore, p.overall.se;
      if improvement then
        if score + policy.improvementMultiplier * se < m.ln(policy.practicalRatio) then Passed else Failed
      else if score <= policy.guardMultiplier * se then Passed
      else Failed
    case _ => Unresolved
  }

  lemma ScaledError(multiplier: real, small: real, large: real)
    requires multiplier >= 0.0 && small <= large
    ensures multiplier * small <= multiplier * large
  {
    assert multiplier * (large - small) >= 0.0;
  }

  /** A lower score never turns a pass into a failure. With a larger error a failed objective does
      not pass, and a passed guard does not fail. */
  lemma ResultMoves(m: Math, policy: Policy, improvement: bool, p: Panel, p': Panel)
    requires policy.improvementMultiplier >= 0.0 && policy.guardMultiplier >= 0.0
    ensures var before, after := PanelResult(m, policy, improvement, Graded(p)), PanelResult(m, policy, improvement, Graded(p'));
            && before in {Passed, Failed}
            && (p'.overall.lnScore <= p.overall.lnScore && p'.overall.se == p.overall.se && before == Passed ==> after == Passed)
            && (p'.overall.lnScore == p.overall.lnScore && p'.overall.se >= p.overall.se ==>
                  && (improvement && before == Failed ==> after == Failed)
                  && (!improvement && before == Passed ==> after == Passed))
  {
    if p'.overall.se >= p.overall.se {
      ScaledError(policy.improvementMultiplier, p.overall.se, p'.overall.se);
      ScaledError(policy.guardMultiplier, p.overall.se, p'.overall.se);
    }
  }

  /** Without error the objective passes exactly below the logarithm of the practical ratio, and a
      guard exactly when the score is not positive. */
  lemma ResultWithoutError(m: Math, policy: Policy, p: Panel)
    requires p.overall.se == 0.0
    ensures PanelResult(m, policy, true, Graded(p)) == Passed <==> p.overall.lnScore < m.ln(policy.practicalRatio)
    ensures PanelResult(m, policy, false, Graded(p)) == Passed <==> p.overall.lnScore <= 0.0
  {
    assert policy.improvementMultiplier * 0.0 == 0.0 && policy.guardMultiplier * 0.0 == 0.0;
  }

  /** On equal metrics the guards pass, and the objective passes exactly under a practical ratio
      above one. */
  lemma EqualArmsResults(m: Math, policy: Policy, cases: seq<string>, obs: Metrics, seeds: seq<int>,
                         weight: string -> real, p: Panel)
    requires m.Sane() && policy.practicalRatio > 0.0
    requires |seeds| >= 2 && Weighted(cases, weight) && IsGrade(m, cases, obs, seeds, weight, p)
    requires EqualArms(obs, cases, seeds)
    ensures PanelResult(m, policy, false, Graded(p)) == Passed
    ensures PanelResult(m, policy, true, Graded(p)) == if policy.practicalRatio > 1.0 then Passed else Failed
  {
    EqualArmsNoEffect(m, cases, obs, seeds, weight, p);
    assert policy.improvementMultiplier * 0.0 == 0.0 && policy.guardMultiplier * 0.0 == 0.0;
    var r := policy.practicalRatio;
    if r > 1.0 {
      assert m.ln(1.0) < m.ln(r);
    } else if r < 1.0 {
      assert m.ln(r) < m.ln(1.0);
    }
  }

  /** What the objective of a panel with equal metrics can come to: a grade, or, without complete
      evidence, none. Improper weights raise an error before any record is written. */
  ghost predicate ObjectiveOf(m: Math, cases: seq<string>, obs: Metrics, seeds: seq<int>, weight: string -> real,
                              outcome: Outcome) {
    match outcome
    case Graded(p) => |seeds| >= 2 && Weighted(cases, weight) && IsGrade(m, cases, obs, seeds, weight, p)
    case Incomplete => true
    case BadWeights => false
  }

  /** So a comparison whose metrics are equal is never PASS under a practical ratio of at most
      one, which is what the policy schema allows, whatever the other records say: its required
      improvement record failed, or is unresolved. */
  lemma EqualArmsNeverPass(m: Math, policy: Policy, cases: seq<string>, obs: Metrics, seeds: seq<int>,
                           weight: string -> real, outcome: Outcome, records: seq<Record>, required: seq<string>, k: nat)
    requires m.Sane() && 0.0 < policy.practicalRatio <= 1.0
    requires EqualArms(obs, cases, seeds) && ObjectiveOf(m, cases, obs, seeds, weight, outcome)
    requires k < |records| && records[k].result == PanelResult(m, policy, true, outcome) && records[k].id in required
    ensures Judge(records, required) != Some(PASS)
  {
    if outcome.Graded? { EqualArmsResults(m, policy, cases, obs, seeds, weight, outcome.panel); }
    if Wellformed(records, required) {
      PassMeansAllPassed(records, required);
      assert Judge(records, required) == Some(PASS) ==> Satisfied(records, records[k].id);
    }
  }
}
