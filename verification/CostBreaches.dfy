/** What a judged bundle says about the estimates of its two arms. */
module CostBreaches {

  import opened Prelude
  import opened CostGuard
  import opened Sums

  // ----- When a bundle is judged

  /** How many values the protocol asks for, per case and, for the companion, per seed. */
  function RoundsOf(p: Protocol, e: Estimator, regime: Regime): int {
    var full := match e case Timing => p.timingRounds case Companion => p.companionRounds case Memory => p.memoryProcesses;
    match regime
    case Screen => p.screenRounds
    case Normal => full
    case Rerun => full * p.multiplier
  }

  ghost predicate Sampled(s: Samples, count: int) {
    && (s.Values? ==> |s.values| == count)
    && (s.Rounds? ==> |s.rounds| == count)
    && (s.PerSeed? ==> forall k | k in s.seeds :: |s.seeds[k]| == count)
  }

  /** The panel's cases, and no others, with as many values as the regime asks for. */
  ghost predicate SampledArm(p: Panel, arm: Arm, regime: Regime) {
    && (forall c :: c in arm.samples <==> exists i | 0 <= i < |p.weights| :: p.weights[i].case_ == c)
    && (forall c | c in arm.samples :: Sampled(arm.samples[c], RoundsOf(p.policy.protocol, p.estimator, regime)))
  }

  /** Two arms of one session and of this run, measured under these thresholds, complete. */
  ghost predicate Presented(p: Panel, b: Bundle) {
    && b.complete && b.arms.Keys == {BASELINE, EVOLVED} && b.runId == p.runId
    && b.arms[BASELINE].id != b.arms[EVOLVED].id
    && b.arms[BASELINE].session == b.session == b.arms[EVOLVED].session
    && b.thresholds == p.policy.fixed && b.estimator == p.estimator
    && (b.regime.Screen? ==> p.estimator.Timing? && p.policy.protocol.screenRounds > 0)
    && SampledArm(p, b.arms[BASELINE], b.regime) && SampledArm(p, b.arms[EVOLVED], b.regime)
  }

  /** The protocol measures a panel more and more thoroughly; only timing has a screen. */
  predicate Escalates(p: Protocol, e: Estimator) {
    0 <= (if e.Timing? then p.screenRounds else 0) < RoundsOf(p, e, Normal) < RoundsOf(p, e, Rerun)
  }

  ghost predicate Estimable(p: Panel, arm: Arm) {
    forall c | c in arm.samples :: Estimate(p.math, arm.samples[c]).Some?
  }

  lemma CompleteExactly(p: Panel, arm: Arm, regime: Regime)
    ensures ArmComplete(arm, p.weights, RoundsOf(p.policy.protocol, p.estimator, regime)) <==> SampledArm(p, arm, regime)
  {
    var cases := set i | 0 <= i < |p.weights| :: p.weights[i].case_;
    if SampledArm(p, arm, regime) {
      forall c ensures c in arm.samples.Keys <==> c in cases {
      }
    }
    forall c
      ensures c in arm.samples <==> c in arm.samples.Keys
    {
    }
  }

  lemma CountsExactly(p: Panel, regime: Regime)
    ensures RegimeCounts(p.estimator, p.policy.protocol).Some? <==> Escalates(p.policy.protocol, p.estimator)
    ensures var th := Thresholds(p.math, p.policy, p.estimator, regime);
            && (th.Some? <==> Escalates(p.policy.protocol, p.estimator)
                              && (regime.Screen? ==> p.estimator.Timing? && p.policy.protocol.screenRounds > 0))
            && (th.Some? ==> th.value.count == RoundsOf(p.policy.protocol, p.estimator, regime))
  {
  }

  lemma EstimatedExactly(p: Panel, arm: Arm, regime: Regime)
    requires SampledArm(p, arm, regime)
    ensures Estimated(p.math, arm, p.weights) <==> Estimable(p, arm)
  {
    if Estimated(p.math, arm, p.weights) {
      forall c | c in arm.samples ensures Estimate(p.math, arm.samples[c]).Some? {
        var i :| 0 <= i < |p.weights| && p.weights[i].case_ == c;
        assert ArmEstimate(p.math, arm, p.weights[i].case_).Some?;
      }
    }
  }

  lemma FineExactly(p: Panel, b: Bundle)
    ensures Validate(p, b) == Fine <==> Presented(p, b) && Escalates(p.policy.protocol, p.estimator) && p.evidence(b)
  {
    CountsExactly(p, b.regime);
    if b.arms.Keys == {BASELINE, EVOLVED} {
      CompleteExactly(p, b.arms[BASELINE], b.regime);
      CompleteExactly(p, b.arms[EVOLVED], b.regime);
    }
  }

  /** A bundle is judged exactly when it is complete evidence of this run under this policy and
      all samples can be estimated; then the result names its regime and its number of rounds. */
  lemma JudgedExactly(p: Panel, b: Bundle)
    ensures Guard(p, b).Judged? <==>
              && Presented(p, b) && Escalates(p.policy.protocol, p.estimator) && p.evidence(b)
              && Estimable(p, b.arms[BASELINE]) && Estimable(p, b.arms[EVOLVED])
    ensures Guard(p, b).Judged? ==>
              Guard(p, b).result.regime == b.regime && Guard(p, b).result.count == RoundsOf(p.policy.protocol, p.estimator, b.regime)
  {
    FineExactly(p, b);
    CountsExactly(p, b.regime);
    if Presented(p, b) {
      EstimatedExactly(p, b.arms[BASELINE], b.regime);
      EstimatedExactly(p, b.arms[EVOLVED], b.regime);
    }
  }

  // ----- Estimates

  ghost predicate Measurable(m: Math, rounds: seq<seq<real>>) {
    rounds != [] && forall i | 0 <= i < |rounds| :: rounds[i] != [] && m.median(rounds[i]) > 0.0
  }

  lemma TimingExactly(m: Math, rounds: seq<seq<real>>)
    ensures TimingEstimate(m, rounds).Some? <==> Measurable(m, rounds)
  {
    if rounds != [] && [] !in rounds {
      var medians := seq(|rounds|, i requires 0 <= i < |rounds| => m.median(rounds[i]));
      forall i | 0 <= i < |rounds| ensures rounds[i] != [] && medians[i] == m.median(rounds[i]) {
        assert rounds[i] in rounds;
      }
    }
    if [] in rounds {
      var i :| 0 <= i < |rounds| && rounds[i] == [];
    }
  }

  lemma {:induction false} SeedSumExactly(m: Math, seeds: map<nat, seq<seq<real>>>, n: nat)
    ensures SeedSum(m, seeds, n).Some? <==> forall k: nat | k < n :: k in seeds && Measurable(m, seeds[k])
  {
    if n > 0 {
      SeedSumExactly(m, seeds, n - 1);
      if n - 1 in seeds { TimingExactly(m, seeds[n - 1]); }
    }
  }

  function Below(n: nat): set<nat> {
    if n == 0 then {} else Below(n - 1) + {n - 1}
  }

  lemma {:induction false} BelowSize(n: nat)
    ensures |Below(n)| == n && forall k: nat :: k in Below(n) <==> k < n
  {
    if n > 0 { BelowSize(n - 1); }
  }

  lemma ExactlyTheSeeds(keys: set<nat>, n: nat)
    requires forall k: nat | k < n :: k in keys
    ensures |keys| == n <==> forall k | k in keys :: k < n
  {
    BelowSize(n);
    assert keys == Below(n) + (keys - Below(n));
    if |keys| == n { assert keys - Below(n) == {}; }
    if forall k | k in keys :: k < n { assert keys == Below(n); }
  }

  /** Every seed of the companion and no other. */
  ghost predicate AllSeeds(seeds: map<nat, seq<seq<real>>>) {
    forall k: nat :: k in seeds <==> k < COMPANION_SEEDS
  }

  /** Samples have an estimate exactly when there are some, none is empty, all (or their medians)
      are positive, and a companion has every seed from 0 to 19 and no other. */
  lemma EstimateExactly(m: Math, s: Samples)
    ensures Estimate(m, s).Some? <==>
              match s
              case Values(values) => values != [] && forall i | 0 <= i < |values| :: values[i] > 0.0
              case Rounds(rounds) => Measurable(m, rounds)
              case PerSeed(seeds) => AllSeeds(seeds) && forall k | k in seeds :: Measurable(m, seeds[k])
  {
    match s
    case Values(_) =>
    case Rounds(rounds) => TimingExactly(m, rounds);
    case PerSeed(seeds) =>
      SeedSumExactly(m, seeds, COMPANION_SEEDS);
      if forall k: nat | k < COMPANION_SEEDS :: k in seeds.Keys {
        ExactlyTheSeeds(seeds.Keys, COMPANION_SEEDS);
        assert |seeds| == |seeds.Keys|;
      }
  }

  /** A median of equal values is that value. */
  ghost predicate Centred(m: Math) {
    forall s, x :: Only(s, x) ==> m.median(s) == x
  }

  predicate Only(s: seq<real>, x: real) {
    s != [] && forall i | 0 <= i < |s| :: s[i] == x
  }

  ghost predicate Uniform(rounds: seq<seq<real>>, x: real) {
    rounds != [] && forall i | 0 <= i < |rounds| :: Only(rounds[i], x)
  }

  ghost predicate AllEqual(s: Samples, x: real) {
    match s
    case Values(values) => Only(values, x)
    case Rounds(rounds) => Uniform(rounds, x)
    case PerSeed(seeds) => AllSeeds(seeds) && forall k | k in seeds :: Uniform(seeds[k], x)
  }

  lemma UniformEstimate(m: Math, rounds: seq<seq<real>>, x: real)
    requires Centred(m) && x > 0.0 && Uniform(rounds, x)
    ensures TimingEstimate(m, rounds) == Some(x)
  {
    var medians := seq(|rounds|, i requires 0 <= i < |rounds| => m.median(rounds[i]));
    forall i | 0 <= i < |rounds| ensures rounds[i] != [] && medians[i] == x {
      assert Only(rounds[i], x);
    }
    assert [] !in rounds;
    assert Only(medians, x);
  }

  lemma {:induction false} UniformSum(m: Math, seeds: map<nat, seq<seq<real>>>, n: nat, x: real)
    requires Centred(m) && x > 0.0 && forall k: nat | k < n :: k in seeds && Uniform(seeds[k], x)
    ensures SeedSum(m, seeds, n) == Some(Product(n as real, x))
  {
    if n > 0 {
      UniformSum(m, seeds, n - 1, x);
      UniformEstimate(m, seeds[n - 1], x);
      OneMore(n, x);
      var sum := SeedSum(m, seeds, n - 1).value;
      assert SeedSum(m, seeds, n) == Some(sum + x);
    } else {
      assert Product(0.0, x) == 0.0;
    }
  }

  lemma OneMore(n: nat, x: real)
    requires n > 0
    ensures Product((n - 1) as real, x) + x == Product(n as real, x)
  {
    assert (n - 1) as real == n as real - 1.0;
  }

  lemma TimesOver(n: real, x: real)
    requires n != 0.0
    ensures Product(n, x) / n == x
  {
    var q := Product(n, x) / n;
    assert (q - x) * n == 0.0;
  }

  /** Samples that are all equal are estimated at that value, whatever their shape. */
  lemma EqualSamples(m: Math, s: Samples, x: real)
    requires Centred(m) && x > 0.0 && AllEqual(s, x)
    ensures Estimate(m, s) == Some(x)
  {
    match s
    case Values(_) =>
    case Rounds(rounds) => UniformEstimate(m, rounds, x);
    case PerSeed(seeds) =>
      UniformSum(m, seeds, COMPANION_SEEDS, x);
      ExactlyTheSeeds(seeds.Keys, COMPANION_SEEDS);
      assert |seeds| == |seeds.Keys|;
      TimesOver(COMPANION_SEEDS as real, x);
  }

  // ----- Breaches

  /** The estimate of a case in one arm of a judged bundle. */
  ghost predicate Estimates(p: Panel, b: Bundle, arm: string, c: string, x: real) {
    arm in b.arms && c in b.arms[arm].samples && Estimate(p.math, b.arms[arm].samples[c]) == Some(x)
  }

  ghost predicate NoNegativeShare(weights: seq<Weight>) {
    forall i | 0 <= i < |weights| :: weights[i].share >= 0.0
  }

  /** Every case of the panel, with its two estimates. */
  ghost predicate Ordered(p: Panel, b: Bundle, values: seq<(real, real)>) {
    && |values| == |p.weights|
    && forall i | 0 <= i < |values| ::
         && Estimates(p, b, EVOLVED, p.weights[i].case_, values[i].0) && values[i].0 > 0.0
         && Estimates(p, b, BASELINE, p.weights[i].case_, values[i].1) && values[i].1 > 0.0
  }

  /** A judged bundle has positive estimates of all the panel's cases in both arms. */
  lemma JudgedIsEstimated(p: Panel, b: Bundle) returns (values: seq<(real, real)>)
    requires p.math.Sane() && Guard(p, b).Judged?
    ensures Ordered(p, b, values)
  {
    var evolved, base := b.arms[EVOLVED], b.arms[BASELINE];
    values := seq(|p.weights|, i requires 0 <= i < |p.weights| =>
      (Value(p.math, evolved, p.weights[i].case_), Value(p.math, base, p.weights[i].case_)));
    forall i | 0 <= i < |values|
      ensures Estimates(p, b, EVOLVED, p.weights[i].case_, values[i].0) && values[i].0 > 0.0
      ensures Estimates(p, b, BASELINE, p.weights[i].case_, values[i].1) && values[i].1 > 0.0
    {
      assert ArmEstimate(p.math, evolved, p.weights[i].case_).Some? && ArmEstimate(p.math, base, p.weights[i].case_).Some?;
      EstimatePositive(p.math, evolved.samples[p.weights[i].case_]);
      EstimatePositive(p.math, base.samples[p.weights[i].case_]);
    }
  }

  /** A case's part of the panel: its share of the logarithm of evolved over baseline. */
  function Part(m: Math, w: Weight, value: (real, real)): real
    requires value.1 > 0.0
  {
    w.share * m.ln(value.0 / value.1)
  }

  function Parts(m: Math, weights: seq<Weight>, values: seq<(real, real)>): (parts: seq<real>)
    requires |weights| == |values| && forall i | 0 <= i < |values| :: values[i].1 > 0.0
    ensures |parts| == |weights| && forall i | 0 <= i < |parts| :: parts[i] == Part(m, weights[i], values[i])
  {
    seq(|weights|, i requires 0 <= i < |weights| => Part(m, weights[i], values[i]))
  }

  /** Both relatively and absolutely too slow, or too large: in bytes for memory, else in time. */
  predicate Capped(p: Panel, value: (real, real)) {
    && value.0 > p.policy.fixed.caseRatio * value.1
    && value.0 - value.1 > if p.estimator.Memory? then p.policy.fixed.floorBytes else p.policy.fixed.floorNs
  }

  ghost predicate SomeCap(p: Panel, values: seq<(real, real)>) {
    exists i | 0 <= i < |values| :: Capped(p, values[i])
  }

  /** What the panel may lose: its band, of which a screen has to clear a fraction. */
  function Band(p: Panel, regime: Regime): real {
    if regime.Screen? then Product(p.math.ln(p.policy.fixed.panelRatio), p.policy.fixed.screenFraction)
    else p.math.ln(p.policy.fixed.panelRatio)
  }

  lemma RatioExceeds(a: real, b: real, r: real)
    requires b > 0.0
    ensures Ratio(a, b) == a / b && (a / b > r <==> a > r * b)
  {
    var q := a / b;
    assert q * b == a;
    assert a - r * b == (q - r) * b;
    assert (q - r) * b > 0.0 <==> q - r > 0.0;
  }

  ghost predicate ValuesOf(m: Math, evolved: Arm, baseline: Arm, weights: seq<Weight>, values: seq<(real, real)>) {
    && |values| == |weights|
    && forall i | 0 <= i < |values| ::
         && values[i].0 == Value(m, evolved, weights[i].case_) && values[i].1 == Value(m, baseline, weights[i].case_)
         && values[i].1 > 0.0
  }

  lemma PanelStep(m: Math, evolved: Arm, baseline: Arm, weights: seq<Weight>, values: seq<(real, real)>)
    requires weights != [] && ValuesOf(m, evolved, baseline, weights, values)
    ensures LnPanel(m, evolved, baseline, weights) == Part(m, weights[0], values[0]) + LnPanel(m, evolved, baseline, weights[1..])
  {
  }

  lemma {:induction false} PanelIsSum(m: Math, evolved: Arm, baseline: Arm, weights: seq<Weight>, values: seq<(real, real)>)
    requires ValuesOf(m, evolved, baseline, weights, values)
    ensures LnPanel(m, evolved, baseline, weights) == Sum(Parts(m, weights, values))
    decreases |weights|
  {
    if weights != [] {
      PanelIsSum(m, evolved, baseline, weights[1..], values[1..]);
      SumCons(Parts(m, weights, values));
      assert Parts(m, weights, values)[1..] == Parts(m, weights[1..], values[1..]);
      PanelStep(m, evolved, baseline, weights, values);
    }
  }

  lemma OrderedValues(p: Panel, b: Bundle, values: seq<(real, real)>)
    requires Ordered(p, b, values) && EVOLVED in b.arms && BASELINE in b.arms
    ensures ValuesOf(p.math, b.arms[EVOLVED], b.arms[BASELINE], p.weights, values)
  {
  }

  /** A judged bundle is breached exactly when some case of the evolved arm exceeds both the case
      ratio and the floor of its estimator, or the weighted log ratios of evolved to baseline
      exceed the regime's band. */
  lemma BreachedExactly(p: Panel, b: Bundle, values: seq<(real, real)>)
    requires Guard(p, b).Judged? && Ordered(p, b, values)
    ensures Guard(p, b).result.lnPanel == Sum(Parts(p.math, p.weights, values))
    ensures Guard(p, b).result.breached <==> SomeCap(p, values) || Sum(Parts(p.math, p.weights, values)) > Band(p, b.regime)
  {
    var evolved, base := b.arms[EVOLVED], b.arms[BASELINE];
    var th := Thresholds(p.math, p.policy, p.estimator, b.regime).value;
    OrderedValues(p, b, values);
    PanelIsSum(p.math, evolved, base, p.weights, values);
    CapsExactly(p, evolved, base, values, th);
    GuardBreached(p, b, th);
    BandExactly(p, b.regime, th);
  }

  lemma BandExactly(p: Panel, regime: Regime, th: Threshold)
    requires Some(th) == Thresholds(p.math, p.policy, p.estimator, regime)
    ensures th.noisePanel == Band(p, regime)
  {
  }

  lemma GuardBreached(p: Panel, b: Bundle, th: Threshold)
    requires Guard(p, b).Judged? && Some(th) == Thresholds(p.math, p.policy, p.estimator, b.regime)
    ensures var evolved, base := b.arms[EVOLVED], b.arms[BASELINE];
            && Guard(p, b).result.lnPanel == LnPanel(p.math, evolved, base, p.weights)
            && (Guard(p, b).result.breached <==> Breached(p.math, evolved, base, p.weights, th))
  {
  }

  lemma CapsExactly(p: Panel, evolved: Arm, base: Arm, values: seq<(real, real)>, th: Threshold)
    requires ValuesOf(p.math, evolved, base, p.weights, values)
    requires th.caseRatio == p.policy.fixed.caseRatio
    requires th.floor == if p.estimator.Memory? then p.policy.fixed.floorBytes else p.policy.fixed.floorNs
    ensures SomeCap(p, values) <==>
            exists i | 0 <= i < |p.weights| :: CaseBreached(p.math, evolved, base, p.weights[i].case_, th)
  {
    forall i | 0 <= i < |values|
      ensures CaseBreached(p.math, evolved, base, p.weights[i].case_, th)
         <==> Capped(p, values[i])
    {
      RatioExceeds(values[i].0, values[i].1, th.caseRatio);
    }
  }

  // ----- The direction of the guard

  lemma LnAtMost(m: Math, x: real, y: real)
    requires m.Sane() && 0.0 < x <= y
    ensures m.ln(x) <= m.ln(y) && (x < y ==> m.ln(x) < m.ln(y))
  {
  }

  lemma Times(x: real, y: real, b: real)
    requires x <= y && b >= 0.0
    ensures x * b <= y * b
  {
    assert (y - x) * b >= 0.0;
  }

  lemma QuotientAtMost(a: real, b: real, r: real)
    requires b > 0.0 && a <= r * b
    ensures a / b <= r
  {
    RatioExceeds(a, b, r);
  }

  lemma QuotientGrows(a: real, b: real, a': real, b': real)
    requires 0.0 < a <= a' && 0.0 < b' <= b
    ensures 0.0 < a / b <= a' / b'
  {
    RatioExceeds(a, b, 0.0);
    RatioExceeds(a', b', 0.0);
    var q' := a' / b';
    assert q' * b' == a';
    Times(b', b, q');
    QuotientAtMost(a, b, q');
  }

  lemma PartGrows(m: Math, w: Weight, before: (real, real), after: (real, real))
    requires m.Sane() && w.share >= 0.0 && 0.0 < before.0 <= after.0 && 0.0 < after.1 <= before.1
    ensures Part(m, w, before) <= Part(m, w, after)
  {
    QuotientGrows(before.0, before.1, after.0, after.1);
    var x, y := before.0 / before.1, after.0 / after.1;
    LnAtMost(m, x, y);
    Times(m.ln(x), m.ln(y), w.share);
  }

  /** The first estimates of the pairs are no smaller and the second no larger. */
  ghost predicate Slower(before: seq<(real, real)>, after: seq<(real, real)>) {
    && |before| == |after|
    && forall i | 0 <= i < |before| :: 0.0 < before[i].0 <= after[i].0 && 0.0 < after[i].1 <= before[i].1
  }

  lemma PartsGrow(m: Math, weights: seq<Weight>, before: seq<(real, real)>, after: seq<(real, real)>)
    requires m.Sane() && NoNegativeShare(weights) && |before| == |weights| && Slower(before, after)
    ensures Sum(Parts(m, weights, before)) <= Sum(Parts(m, weights, after))
  {
    var xs, ys := Parts(m, weights, before), Parts(m, weights, after);
    forall i | 0 <= i < |xs| ensures xs[i] <= ys[i] {
      PartGrows(m, weights[i], before[i], after[i]);
    }
    SumGrows(xs, ys);
  }

  lemma CapsGrow(p: Panel, before: seq<(real, real)>, after: seq<(real, real)>)
    requires p.policy.Legal() && Slower(before, after) && SomeCap(p, before)
    ensures SomeCap(p, after)
  {
    var i :| 0 <= i < |before| && Capped(p, before[i]);
    CapGrows(p, before[i], after[i]);
  }

  lemma CapGrows(p: Panel, before: (real, real), after: (real, real))
    requires p.policy.Legal() && Capped(p, before) && before.0 <= after.0 && after.1 <= before.1
    ensures Capped(p, after)
  {
    StillOver(before.0, before.1, after.0, after.1, p.policy.fixed.caseRatio);
  }

  lemma StillOver(a: real, b: real, a': real, b': real, r: real)
    requires r > 0.0 && a > r * b && a <= a' && b' <= b
    ensures a' > r * b'
  {
    assert r * (b - b') >= 0.0;
    assert r * b == r * (b - b') + r * b';
  }

  /** Raising evolved estimates, or lowering baseline ones, never turns a breach into a pass. */
  lemma SlowerStaysBreached(p: Panel, b: Bundle, b': Bundle, before: seq<(real, real)>, after: seq<(real, real)>)
    requires p.math.Sane() && p.policy.Legal() && NoNegativeShare(p.weights) && b.regime == b'.regime
    requires Guard(p, b).Judged? && Ordered(p, b, before) && Guard(p, b').Judged? && Ordered(p, b', after)
    requires Slower(before, after)
    ensures Guard(p, b).result.breached ==> Guard(p, b').result.breached
    ensures Guard(p, b).result.lnPanel <= Guard(p, b').result.lnPanel
  {
    BreachedExactly(p, b, before);
    BreachedExactly(p, b', after);
    PartsGrow(p.math, p.weights, before, after);
    if SomeCap(p, before) { CapsGrow(p, before, after); }
  }

  lemma PartOfEqual(m: Math, w: Weight, x: real)
    requires m.Sane() && x > 0.0
    ensures Part(m, w, (x, x)) == 0.0
  {
    SelfRatio(x);
  }

  lemma PartsOfFaster(m: Math, weights: seq<Weight>, values: seq<(real, real)>)
    requires m.Sane() && NoNegativeShare(weights) && |values| == |weights|
    requires forall i | 0 <= i < |values| :: 0.0 < values[i].0 <= values[i].1
    ensures Sum(Parts(m, weights, values)) <= 0.0
  {
    var xs, zeros := Parts(m, weights, values), seq(|weights|, i => 0.0);
    forall i | 0 <= i < |xs| ensures xs[i] <= zeros[i] {
      PartGrows(m, weights[i], values[i], (values[i].1, values[i].1));
      PartOfEqual(m, weights[i], values[i].1);
    }
    SumGrows(xs, zeros);
    SumZero(zeros);
  }

  lemma ProductPositive(x: real, y: real)
    requires x > 0.0 && y > 0.0
    ensures x * y > 0.0
  {
  }

  lemma Fraction(x: real, f: real)
    requires x > 0.0 && 0.0 < f <= 1.0
    ensures 0.0 < Product(x, f) <= x
  {
    Scaled(x, f);
    ProductPositive(x, f);
  }

  lemma BandIsPositive(p: Panel, regime: Regime)
    requires p.math.Sane() && p.policy.Legal()
    ensures 0.0 < Band(p, regime) <= p.math.ln(p.policy.fixed.panelRatio)
  {
    var band, part := p.math.ln(p.policy.fixed.panelRatio), p.policy.fixed.screenFraction;
    assert p.math.ln(1.0) < band;
    Fraction(band, part);
    assert Band(p, regime) == if regime.Screen? then Product(band, part) else band;
  }

  lemma FasterHasNoCap(p: Panel, values: seq<(real, real)>)
    requires p.policy.Legal() && forall i | 0 <= i < |values| :: 0.0 < values[i].0 <= values[i].1
    ensures !SomeCap(p, values)
  {
    forall i | 0 <= i < |values| ensures !Capped(p, values[i]) {
      Times(1.0, p.policy.fixed.caseRatio, values[i].1);
    }
  }

  /** A candidate that is no slower, and no larger, in any case never breaches. */
  lemma NoSlowerNeverBreaches(p: Panel, b: Bundle, values: seq<(real, real)>)
    requires p.math.Sane() && p.policy.Legal() && NoNegativeShare(p.weights)
    requires Guard(p, b).Judged? && Ordered(p, b, values) && forall i | 0 <= i < |values| :: values[i].0 <= values[i].1
    ensures !Guard(p, b).result.breached
  {
    BreachedExactly(p, b, values);
    PartsOfFaster(p.math, p.weights, values);
    BandIsPositive(p, b.regime);
    FasterHasNoCap(p, values);
  }

  /** One case that is too slow, or too large, both relatively and absolutely breaches. */
  lemma CaseTooSlowBreaches(p: Panel, b: Bundle, values: seq<(real, real)>, i: nat)
    requires Guard(p, b).Judged? && Ordered(p, b, values) && i < |values|
    requires values[i].0 > p.policy.fixed.caseRatio * values[i].1
    requires values[i].0 - values[i].1 > if p.estimator.Memory? then p.policy.fixed.floorBytes else p.policy.fixed.floorNs
    ensures Guard(p, b).result.breached
  {
    BreachedExactly(p, b, values);
    assert Capped(p, values[i]);
  }

  function SharesOf(weights: seq<Weight>): (shares: seq<real>)
    ensures |shares| == |weights| && forall i | 0 <= i < |shares| :: shares[i] == weights[i].share
  {
    seq(|weights|, i requires 0 <= i < |weights| => weights[i].share)
  }

  predicate Above(value: (real, real), ratio: real) {
    value.1 > 0.0 && value.0 > ratio * value.1
  }

  /** A case's part when its ratio is exactly `ratio`. */
  function Least(m: Math, w: Weight, ratio: real): real {
    Product(m.ln(ratio), w.share)
  }

  lemma PartAbove(m: Math, w: Weight, value: (real, real), ratio: real)
    requires m.Sane() && w.share >= 0.0 && ratio > 0.0 && Above(value, ratio)
    ensures Least(m, w, ratio) <= Part(m, w, value) && (w.share > 0.0 ==> Least(m, w, ratio) < Part(m, w, value))
  {
    RatioExceeds(value.0, value.1, ratio);
    LnAtMost(m, ratio, value.0 / value.1);
    var x, y := m.ln(ratio), m.ln(value.0 / value.1);
    Times(x, y, w.share);
    if w.share > 0.0 { ProductPositive(y - x, w.share); }
  }

  function Leasts(m: Math, weights: seq<Weight>, ratio: real): (least: seq<real>)
    ensures |least| == |weights| && forall i | 0 <= i < |least| :: least[i] == Least(m, weights[i], ratio)
  {
    seq(|weights|, i requires 0 <= i < |weights| => Least(m, weights[i], ratio))
  }

  lemma LeastsSum(m: Math, weights: seq<Weight>, ratio: real)
    requires Sum(SharesOf(weights)) == 1.0
    ensures Sum(Leasts(m, weights, ratio)) == m.ln(ratio)
  {
    var shares, least := SharesOf(weights), Leasts(m, weights, ratio);
    forall i | 0 <= i < |shares| ensures least[i] == Product(m.ln(ratio), shares[i]) {
      assert least[i] == Least(m, weights[i], ratio);
    }
    SumScaled(shares, m.ln(ratio), least);
  }

  lemma PartsAbove(m: Math, weights: seq<Weight>, values: seq<(real, real)>, ratio: real)
    requires m.Sane() && NoNegativeShare(weights) && Sum(SharesOf(weights)) == 1.0 && |values| == |weights| && ratio > 0.0
    requires forall i | 0 <= i < |values| :: values[i].1 > 0.0 && Above(values[i], ratio)
    ensures Sum(Parts(m, weights, values)) > m.ln(ratio)
  {
    var parts, least := Parts(m, weights, values), Leasts(m, weights, ratio);
    LeastsSum(m, weights, ratio);
    var k := PositiveTerm(SharesOf(weights));
    AboveAll(m, weights, values, ratio, k);
    SumGrows(least, parts);
  }

  lemma AboveAll(m: Math, weights: seq<Weight>, values: seq<(real, real)>, ratio: real, k: nat)
    requires m.Sane() && NoNegativeShare(weights) && |values| == |weights| && ratio > 0.0
    requires forall i | 0 <= i < |values| :: values[i].1 > 0.0 && Above(values[i], ratio)
    requires k < |weights| && weights[k].share > 0.0
    ensures forall i | 0 <= i < |weights| :: Leasts(m, weights, ratio)[i] <= Parts(m, weights, values)[i]
    ensures Leasts(m, weights, ratio)[k] < Parts(m, weights, values)[k]
  {
    forall i | 0 <= i < |weights| ensures Least(m, weights[i], ratio) <= Part(m, weights[i], values[i]) {
      PartAbove(m, weights[i], values[i], ratio);
    }
    PartAbove(m, weights[k], values[k], ratio);
  }

  /** A panel all of whose cases exceed the panel ratio breaches, whatever the caps say. */
  lemma PanelTooSlowBreaches(p: Panel, b: Bundle, values: seq<(real, real)>)
    requires p.math.Sane() && p.policy.Legal() && NoNegativeShare(p.weights) && Sum(SharesOf(p.weights)) == 1.0
    requires Guard(p, b).Judged? && Ordered(p, b, values)
    requires forall i | 0 <= i < |values| :: Above(values[i], p.policy.fixed.panelRatio)
    ensures Guard(p, b).result.breached
  {
    BreachedExactly(p, b, values);
    PartsAbove(p.math, p.weights, values, p.policy.fixed.panelRatio);
    BandIsPositive(p, b.regime);
  }

  // ----- A judged bundle

  /** A logarithm and a median as far as the guard needs them. */
  const SIMPLE: Math := Math(x => x - 1.0, s => if s == [] then 0.0 else s[0])

  const FIXED: Fixed := Fixed(1.1, 0.5, 1.2, 0.0, 0.0)

  /** Memory of one case, measured once and twice as often in a rerun. */
  const PANEL: Panel :=
    Panel(SIMPLE, Policy(FIXED, Protocol(0, 0, 0, 1, 2)), Memory, [Weight("adder", 1.0)], "run", _ => true)

  function Measured(baseline: real, evolved: real): Bundle {
    Bundle(Normal, 1, "run", true, Memory,
           map[BASELINE := Arm(1, 1, "old", map["adder" := Values([baseline])]),
               EVOLVED := Arm(2, 1, "new", map["adder" := Values([evolved])])],
           FIXED, map[])
  }

  lemma MeasuredIsPresented(baseline: real, evolved: real)
    ensures Presented(PANEL, Measured(baseline, evolved))
  {
    var b := Measured(baseline, evolved);
    assert b.arms.Keys == {BASELINE, EVOLVED};
    assert PANEL.weights[0].case_ == "adder";
  }

  lemma MeasuredIsOrdered(baseline: real, evolved: real)
    requires baseline > 0.0 && evolved > 0.0
    ensures Ordered(PANEL, Measured(baseline, evolved), [(evolved, baseline)])
  {
  }

  lemma MeasuredIsJudged(baseline: real, evolved: real)
    requires baseline > 0.0 && evolved > 0.0
    ensures SIMPLE.Sane() && PANEL.policy.Legal() && Guard(PANEL, Measured(baseline, evolved)).Judged?
  {
    MeasuredIsPresented(baseline, evolved);
    MeasuredIsOrdered(baseline, evolved);
    JudgedExactly(PANEL, Measured(baseline, evolved));
  }

  /** Ten times the memory is a breach that asks for a rerun. */
  lemma TenfoldExample()
    ensures Guard(PANEL, Measured(1.0, 10.0)).Judged? && Guard(PANEL, Measured(1.0, 10.0)).result.needsRerun
  {
    MeasuredIsJudged(1.0, 10.0);
    MeasuredIsOrdered(1.0, 10.0);
    CaseTooSlowBreaches(PANEL, Measured(1.0, 10.0), [(10.0, 1.0)], 0);
  }

  /** A tenth of the memory passes. */
  lemma TenthExample()
    ensures Guard(PANEL, Measured(10.0, 1.0)).Judged? && Guard(PANEL, Measured(10.0, 1.0)).result.verdict == Passed
  {
    MeasuredIsJudged(10.0, 1.0);
    MeasuredIsOrdered(10.0, 1.0);
    NoSlowerNeverBreaches(PANEL, Measured(10.0, 1.0), [(1.0, 10.0)]);
  }
}
