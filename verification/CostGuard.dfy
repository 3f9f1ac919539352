/** The two-arm cost guard: what a regime bundle must be, and what its samples say against the
    policy's fixed thresholds. Times and sizes are reals; logarithm and median are parameters. */
module CostGuard {

  import opened Prelude

  datatype Estimator = Timing | Companion | Memory

  datatype Regime = Screen | Normal | Rerun

  const COMPANION_SEEDS: nat := 20

  datatype Protocol = Protocol(screenRounds: int, timingRounds: int, companionRounds: int, memoryProcesses: int, multiplier: int)

  datatype Fixed = Fixed(panelRatio: real, screenFraction: real, caseRatio: real, floorNs: real, floorBytes: real)

  /** The policy schema bounds the ratios and the fraction. */
  datatype Policy = Policy(fixed: Fixed, protocol: Protocol)
  {
    predicate Legal() {
      fixed.panelRatio > 1.0 && fixed.caseRatio > 1.0 && 0.0 < fixed.screenFraction <= 1.0
    }
  }

  /** What the guard needs of real functions. */
  datatype Math = Math(ln: real -> real, median: seq<real> -> real)
  {
    ghost predicate Sane() {
      && ln(1.0) == 0.0
      && (forall x, y :: 0.0 < x < y ==> ln(x) < ln(y))
      && (forall s: seq<real> :: s != [] && (forall i :: 0 <= i < |s| ==> s[i] > 0.0) ==> median(s) > 0.0)
    }
  }

  /** One value per round, one list of calls per round, or such lists for each seed. */
  datatype Samples = Values(values: seq<real>) | Rounds(rounds: seq<seq<real>>) | PerSeed(seeds: map<nat, seq<seq<real>>>)

  datatype Arm = Arm(id: nat, session: nat, build: string, samples: map<string, Samples>)

  datatype Bundle = Bundle(
    regime: Regime, session: nat, runId: string, complete: bool, estimator: Estimator, arms: map<string, Arm>,
    thresholds: Fixed, caseHashes: map<string, string>)

  datatype Weight = Weight(case_: string, share: real)

  /** What a panel's bundles are judged by; `evidence` is the session's required evidence check. */
  datatype Panel = Panel(
    math: Math, policy: Policy, estimator: Estimator, weights: seq<Weight>, runId: string, evidence: Bundle -> bool)

  const BASELINE := "baseline"
  const EVOLVED := "evolved"

  // ----- Regimes

  /** How many rounds each regime has; `None` when the protocol is invalid. */
  function RegimeCounts(e: Estimator, p: Protocol): Option<map<Regime, int>> {
    var screen := if e.Timing? then p.screenRounds else 0;
    var normal := match e case Timing => p.timingRounds case Companion => p.companionRounds case Memory => p.memoryProcesses;
    var rerun := normal * p.multiplier;
    if !(0 <= screen < normal < rerun) then None
    else if screen == 0 then Some(map[Normal := normal, Rerun := rerun])
    else Some(map[Screen := screen, Normal := normal, Rerun := rerun])
  }

  datatype Threshold = Threshold(count: int, noisePanel: real, caseRatio: real, floor: real)

  function Thresholds(m: Math, policy: Policy, e: Estimator, regime: Regime): Option<Threshold> {
    match RegimeCounts(e, policy.protocol)
    case None => None
    case Some(counts) =>
      if regime !in counts then None
      else
        var fixed := policy.fixed;
        var noise := m.ln(fixed.panelRatio);
        Some(Threshold(
               counts[regime], if regime.Screen? then noise * fixed.screenFraction else noise, fixed.caseRatio,
               if e.Memory? then fixed.floorBytes else fixed.floorNs))
  }

  // ----- Estimates

  function Positive(m: Math, values: seq<real>): Option<real> {
    if exists i | 0 <= i < |values| :: values[i] <= 0.0 then None else Some(m.median(values))
  }

  function TimingEstimate(m: Math, rounds: seq<seq<real>>): Option<real> {
    if rounds == [] || [] in rounds then None
    else Positive(m, seq(|rounds|, i requires 0 <= i < |rounds| => m.median(rounds[i])))
  }

  /** The sum of the estimates of the seeds below `n`. */
  function SeedSum(m: Math, seeds: map<nat, seq<seq<real>>>, n: nat): Option<real> {
    if n == 0 then Some(0.0)
    else if n - 1 !in seeds then None
    else
      match SeedSum(m, seeds, n - 1)
      case None => None
      case Some(sum) =>
        match TimingEstimate(m, seeds[n - 1])
        case None => None
        case Some(x) => Some(sum + x)
  }

  /** `None` for missing, empty or non-positive samples. */
  function Estimate(m: Math, s: Samples): Option<real> {
    match s
    case Values(values) => if values == [] then None else Positive(m, values)
    case Rounds(rounds) => TimingEstimate(m, rounds)
    case PerSeed(seeds) =>
      if |seeds| != COMPANION_SEEDS then None
      else
        match SeedSum(m, seeds, COMPANION_SEEDS)
        case None => None
        case Some(sum) => Some(sum / COMPANION_SEEDS as real)
  }

  function ArmEstimate(m: Math, arm: Arm, c: string): Option<real> {
    if c in arm.samples then Estimate(m, arm.samples[c]) else None
  }

  predicate Estimated(m: Math, arm: Arm, weights: seq<Weight>) {
    forall i | 0 <= i < |weights| :: ArmEstimate(m, arm, weights[i].case_).Some?
  }

  // ----- Breaches

  function Ratio(a: real, b: real): real {
    if b == 0.0 then 0.0 else a / b
  }

  function Value(m: Math, arm: Arm, c: string): real {
    match ArmEstimate(m, arm, c) case None => 0.0 case Some(x) => x
  }

  /** The weighted log ratio of the panel. */
  function LnPanel(m: Math, evolved: Arm, baseline: Arm, weights: seq<Weight>): real {
    if weights == [] then 0.0
    else
      var c := weights[0].case_;
      weights[0].share * m.ln(Ratio(Value(m, evolved, c), Value(m, baseline, c))) + LnPanel(m, evolved, baseline, weights[1..])
  }

  /** A case breaches only when its ratio and its absolute difference are both too large. */
  predicate CaseBreached(m: Math, evolved: Arm, baseline: Arm, c: string, th: Threshold) {
    var after, before := Value(m, evolved, c), Value(m, baseline, c);
    Ratio(after, before) > th.caseRatio && after - before > th.floor
  }

  predicate Breached(m: Math, evolved: Arm, baseline: Arm, weights: seq<Weight>, th: Threshold) {
    || (exists i | 0 <= i < |weights| :: CaseBreached(m, evolved, baseline, weights[i].case_, th))
    || LnPanel(m, evolved, baseline, weights) > th.noisePanel
  }

  // ----- Bundles

  datatype Check = Fine | Inadmissible | Malformed

  predicate CountsRight(s: Samples, count: int) {
    match s
    case Values(values) => |values| == count
    case Rounds(rounds) => |rounds| == count
    case PerSeed(seeds) => forall k | k in seeds :: |seeds[k]| == count
  }

  predicate ArmComplete(arm: Arm, weights: seq<Weight>, count: int) {
    && arm.samples.Keys == (set i | 0 <= i < |weights| :: weights[i].case_)
    && forall c | c in arm.samples :: CountsRight(arm.samples[c], count)
  }

  /** Whether a bundle may be reused or judged. */
  function Validate(p: Panel, b: Bundle): Check {
    if !b.complete || b.arms.Keys != {BASELINE, EVOLVED} then Inadmissible
    else if b.runId != p.runId then Inadmissible
    else
      var base, evolved := b.arms[BASELINE], b.arms[EVOLVED];
      if base.id == evolved.id then Malformed
      else if base.session != b.session || evolved.session != b.session then Malformed
      else if b.thresholds != p.policy.fixed || b.estimator != p.estimator then Inadmissible
      else if RegimeCounts(p.estimator, p.policy.protocol).None? then Malformed
      else
        match Thresholds(p.math, p.policy, p.estimator, b.regime)
        case None => Inadmissible
        case Some(th) =>
          if !ArmComplete(base, p.weights, th.count) || !ArmComplete(evolved, p.weights, th.count) then Inadmissible
          else if !p.evidence(b) then Inadmissible
          else Fine
  }

  datatype Verdict = Passed | Unresolved | PassedOnRerun | Failed

  datatype Result = Result(
    verdict: Verdict, regime: Regime, count: int, breached: bool, lnPanel: real, needsFull: bool, needsRerun: bool)

  /** A judged bundle, or the kind of error that is raised. */
  datatype Judged = Judged(result: Result) | Incomplete | Broken

  function Guard(p: Panel, b: Bundle): (j: Judged)
    ensures j.Judged? ==> Validate(p, b) == Fine && j.result.regime == b.regime
  {
    match Validate(p, b)
    case Inadmissible => Incomplete
    case Malformed => Broken
    case Fine =>
      var th := Thresholds(p.math, p.policy, p.estimator, b.regime).value;
      var base, evolved := b.arms[BASELINE], b.arms[EVOLVED];
      if !Estimated(p.math, base, p.weights) || !Estimated(p.math, evolved, p.weights) then Incomplete
      else
        var breached := Breached(p.math, evolved, base, p.weights, th);
        var verdict :=
          if b.regime.Rerun? then if breached then Failed else PassedOnRerun
          else if breached then Unresolved
          else Passed;
        Judged(Result(
                 verdict, b.regime, th.count, breached, LnPanel(p.math, evolved, base, p.weights),
                 b.regime.Screen? && verdict != Passed, breached && b.regime.Normal?))
  }

  // ----- What the guard means

  lemma PositiveEstimate(m: Math, rounds: seq<seq<real>>)
    requires m.Sane() && TimingEstimate(m, rounds).Some?
    ensures TimingEstimate(m, rounds).value > 0.0
  {
  }

  lemma {:induction false} PositiveSum(m: Math, seeds: map<nat, seq<seq<real>>>, n: nat)
    requires m.Sane() && SeedSum(m, seeds, n).Some?
    ensures SeedSum(m, seeds, n).value >= 0.0 && (n > 0 ==> SeedSum(m, seeds, n).value > 0.0)
  {
    if n > 0 {
      PositiveSum(m, seeds, n - 1);
      PositiveEstimate(m, seeds[n - 1]);
    }
  }

  /** An estimate is always positive, so ratios are defined. */
  lemma EstimatePositive(m: Math, s: Samples)
    requires m.Sane() && Estimate(m, s).Some?
    ensures Estimate(m, s).value > 0.0
  {
    match s
    case Values(values) =>
    case Rounds(rounds) => PositiveEstimate(m, rounds);
    case PerSeed(seeds) => PositiveSum(m, seeds, COMPANION_SEEDS);
  }

  lemma SelfRatio(x: real)
    ensures Ratio(x, x) == 0.0 || Ratio(x, x) == 1.0
    ensures x > 0.0 ==> Ratio(x, x) == 1.0
  {
    if x != 0.0 {
      var q := x / x;
      assert q * x == x;
      assert (q - 1.0) * x == 0.0;
    }
  }

  lemma {:induction false} EqualArmsLnZero(m: Math, evolved: Arm, baseline: Arm, weights: seq<Weight>)
    requires m.Sane() && evolved.samples == baseline.samples
    requires Estimated(m, baseline, weights)
    ensures LnPanel(m, evolved, baseline, weights) == 0.0
  {
    if weights != [] {
      var c := weights[0].case_;
      EstimatePositive(m, baseline.samples[c]);
      SelfRatio(Value(m, baseline, c));
      forall i | 0 <= i < |weights[1..]|
        ensures ArmEstimate(m, baseline, weights[1..][i].case_).Some?
      {
        assert weights[1..][i] == weights[i + 1];
      }
      EqualArmsLnZero(m, evolved, baseline, weights[1..]);
    }
  }

  lemma EqualArmsWithin(m: Math, evolved: Arm, baseline: Arm, weights: seq<Weight>, th: Threshold)
    requires m.Sane() && evolved.samples == baseline.samples && Estimated(m, baseline, weights)
    requires th.noisePanel >= 0.0 && th.caseRatio >= 1.0
    ensures !Breached(m, evolved, baseline, weights, th)
  {
    EqualArmsLnZero(m, evolved, baseline, weights);
    forall i | 0 <= i < |weights|
      ensures !CaseBreached(m, evolved, baseline, weights[i].case_, th)
    {
      SelfRatio(Value(m, baseline, weights[i].case_));
    }
  }

  lemma BandPositive(m: Math, policy: Policy, e: Estimator, regime: Regime)
    requires m.Sane() && policy.Legal() && Thresholds(m, policy, e, regime).Some?
    ensures Thresholds(m, policy, e, regime).value.noisePanel > 0.0
  {
    assert m.ln(1.0) < m.ln(policy.fixed.panelRatio);
  }

  /** Equal measurements in both arms never breach, in any regime of any legal policy. */
  lemma EqualArmsNeverBreach(p: Panel, b: Bundle)
    requires p.math.Sane() && p.policy.Legal() && Guard(p, b).Judged?
    requires b.arms[BASELINE].samples == b.arms[EVOLVED].samples
    ensures !Guard(p, b).result.breached && Guard(p, b).result.verdict == if b.regime.Rerun? then PassedOnRerun else Passed
  {
    BandPositive(p.math, p.policy, p.estimator, b.regime);
    EqualArmsWithin(
      p.math, b.arms[EVOLVED], b.arms[BASELINE], p.weights, Thresholds(p.math, p.policy, p.estimator, b.regime).value);
  }

  lemma Scaled(x: real, f: real)
    requires x >= 0.0 && f <= 1.0
    ensures x * f <= x
  {
    assert x * (1.0 - f) >= 0.0;
  }

  lemma TighterBreaches(m: Math, evolved: Arm, baseline: Arm, weights: seq<Weight>, tight: Threshold, loose: Threshold)
    requires tight.noisePanel <= loose.noisePanel && tight.caseRatio == loose.caseRatio && tight.floor == loose.floor
    requires Breached(m, evolved, baseline, weights, loose)
    ensures Breached(m, evolved, baseline, weights, tight)
  {
    if exists i | 0 <= i < |weights| :: CaseBreached(m, evolved, baseline, weights[i].case_, loose) {
      var i :| 0 <= i < |weights| && CaseBreached(m, evolved, baseline, weights[i].case_, loose);
      assert CaseBreached(m, evolved, baseline, weights[i].case_, tight);
    }
  }

  /** The screen is stricter: measurements that breach the full band also miss the screen's. */
  lemma ScreenIsStricter(p: Panel, evolved: Arm, baseline: Arm, screen: Threshold, normal: Threshold)
    requires p.math.Sane() && p.policy.Legal()
    requires Thresholds(p.math, p.policy, p.estimator, Screen) == Some(screen)
    requires Thresholds(p.math, p.policy, p.estimator, Normal) == Some(normal)
    requires Breached(p.math, evolved, baseline, p.weights, normal)
    ensures Breached(p.math, evolved, baseline, p.weights, screen)
  {
    BandPositive(p.math, p.policy, p.estimator, Normal);
    Scaled(p.math.ln(p.policy.fixed.panelRatio), p.policy.fixed.screenFraction);
    TighterBreaches(p.math, evolved, baseline, p.weights, screen, normal);
  }
}
