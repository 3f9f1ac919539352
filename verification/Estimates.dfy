/** The paired estimators of a quality panel, over the reals: the weighted log ratios of evolved
    to baseline, seed by seed. Logarithm and square root are parameters. */
module Estimates {

  import opened Prelude
  import opened Sums

  datatype Math = Math(ln: real -> real, sqrt: real -> real)
  {
    ghost predicate Sane() {
      && ln(1.0) == 0.0
      && (forall x, y :: 0.0 < x < y ==> ln(x) < ln(y))
      && sqrt(0.0) == 0.0
      && (forall x :: x > 0.0 ==> sqrt(x) > 0.0)
    }
  }

  datatype Estimate = Estimate(lnScore: real, se: real, deltas: seq<real>)

  function Mean(xs: seq<real>): real
    requires xs != []
  {
    Sum(xs) / |xs| as real
  }

  function SquaredErrors(xs: seq<real>, mean: real): real {
    if xs == [] then 0.0
    else
      var e := xs[|xs| - 1] - mean;
      SquaredErrors(xs[..|xs| - 1], mean) + e * e
  }

  /** The sample standard deviation over the root of the number of seeds. */
  function StandardError(m: Math, xs: seq<real>): real
    requires |xs| >= 2
  {
    var n := |xs| as real;
    var root := m.sqrt(n);
    if root == 0.0 then 0.0 else m.sqrt(SquaredErrors(xs, Mean(xs)) / (n - 1.0)) / root
  }

  function EstimateOf(m: Math, deltas: seq<real>): Option<Estimate> {
    if |deltas| < 2 then None else Some(Estimate(Mean(deltas), StandardError(m, deltas), deltas))
  }

  // ----- A panel

  datatype Revision = Baseline | Evolved

  datatype Key = Key(case_: string, revision: Revision, seed: int)

  type Metrics = map<Key, real>

  /** A panel's estimate and those of its cases, in order. */
  datatype Panel = Panel(overall: Estimate, cases: seq<Estimate>)

  datatype Outcome = Graded(panel: Panel) | Incomplete | BadWeights

  /** Both revisions are observed, with positive metrics. */
  predicate Observed(obs: Metrics, c: string, seed: int) {
    && Key(c, Baseline, seed) in obs && obs[Key(c, Baseline, seed)] > 0.0
    && Key(c, Evolved, seed) in obs && obs[Key(c, Evolved, seed)] > 0.0
  }

  predicate CaseObserved(obs: Metrics, c: string, seeds: seq<int>) {
    forall i | 0 <= i < |seeds| :: Observed(obs, c, seeds[i])
  }

  predicate AllObserved(obs: Metrics, cases: seq<string>, seeds: seq<int>) {
    forall k | 0 <= k < |cases| :: CaseObserved(obs, cases[k], seeds)
  }

  lemma ObservedNext(obs: Metrics, cases: seq<string>, k: nat, seeds: seq<int>)
    requires k < |cases|
    ensures AllObserved(obs, cases[..k + 1], seeds) <==> AllObserved(obs, cases[..k], seeds) && CaseObserved(obs, cases[k], seeds)
    ensures AllObserved(obs, cases, seeds) ==> CaseObserved(obs, cases[k], seeds)
  {
    var more := cases[..k + 1];
    assert more[k] == cases[k] && forall i | 0 <= i < k :: more[i] == cases[..k][i];
  }

  function Difference(m: Math, obs: Metrics, c: string, seed: int): real {
    if Observed(obs, c, seed) then m.ln(obs[Key(c, Evolved, seed)]) - m.ln(obs[Key(c, Baseline, seed)]) else 0.0
  }

  function Differences(m: Math, obs: Metrics, c: string, seeds: seq<int>): seq<real> {
    seq(|seeds|, i requires 0 <= i < |seeds| => Difference(m, obs, c, seeds[i]))
  }

  function TotalWeight(cases: seq<string>, weight: string -> real): real {
    if cases == [] then 0.0 else TotalWeight(cases[..|cases| - 1], weight) + weight(cases[|cases| - 1])
  }

  predicate Weighted(cases: seq<string>, weight: string -> real) {
    TotalWeight(cases, weight) > 0.0 && forall i | 0 <= i < |cases| :: weight(cases[i]) > 0.0
  }

  // ----- Sums of weighted differences

  function AddScaled(deltas: seq<real>, share: real, diffs: seq<real>): seq<real>
    requires |deltas| == |diffs|
  {
    seq(|deltas|, i requires 0 <= i < |deltas| => deltas[i] + share * diffs[i])
  }

  /** Seed by seed, the weighted sum over the cases. */
  function Combined(m: Math, obs: Metrics, cases: seq<string>, seeds: seq<int>, share: string -> real): (deltas: seq<real>)
    ensures |deltas| == |seeds|
  {
    if cases == [] then seq(|seeds|, i => 0.0)
    else
      var n := |cases| - 1;
      AddScaled(Combined(m, obs, cases[..n], seeds, share), share(cases[n]), Differences(m, obs, cases[n], seeds))
  }

  /** The weighted mean of the cases' own means. */
  function MeanOfCases(m: Math, obs: Metrics, cases: seq<string>, seeds: seq<int>, share: string -> real): real
    requires seeds != []
  {
    if cases == [] then 0.0
    else
      var n := |cases| - 1;
      MeanOfCases(m, obs, cases[..n], seeds, share) + share(cases[n]) * Mean(Differences(m, obs, cases[n], seeds))
  }

  /** A case's part of the total weight. */
  function Shares(cases: seq<string>, weight: string -> real): string -> real
    requires TotalWeight(cases, weight) > 0.0
  {
    var total := TotalWeight(cases, weight);
    c => weight(c) / total
  }

  lemma Distribute(share: real, a: real, b: real)
    ensures share * (a + b) == share * a + share * b
  {
  }

  lemma {:induction false} SumAddScaled(deltas: seq<real>, share: real, diffs: seq<real>)
    requires |deltas| == |diffs|
    ensures Sum(AddScaled(deltas, share, diffs)) == Sum(deltas) + share * Sum(diffs)
  {
    if deltas != [] {
      var n := |deltas| - 1;
      var all, fewer := AddScaled(deltas, share, diffs), AddScaled(deltas[..n], share, diffs[..n]);
      assert |all| == n + 1 && |fewer| == n;
      forall i | 0 <= i < n
        ensures all[..n][i] == fewer[i]
      {
      }
      assert all[..n] == fewer;
      SumAddScaled(deltas[..n], share, diffs[..n]);
      Distribute(share, Sum(diffs[..n]), diffs[n]);
    }
  }

  lemma MeanAddScaled(deltas: seq<real>, share: real, diffs: seq<real>)
    requires |deltas| == |diffs| > 0
    ensures Mean(AddScaled(deltas, share, diffs)) == Mean(deltas) + share * Mean(diffs)
  {
    SumAddScaled(deltas, share, diffs);
    var n := |deltas| as real;
    DivideSum(Sum(deltas), share, Sum(diffs), n);
  }

  lemma DivideSum(a: real, share: real, b: real, n: real)
    requires n > 0.0
    ensures (a + share * b) / n == a / n + share * (b / n)
  {
    var x, y := a / n, b / n;
    assert a == x * n && b == y * n;
    assert share * b == (share * y) * n;
    assert a + share * b == (x + share * y) * n;
  }

  lemma {:induction false} NoErrors(xs: seq<real>)
    requires forall i :: 0 <= i < |xs| ==> xs[i] == 0.0
    ensures Sum(xs) == 0.0 && SquaredErrors(xs, 0.0) == 0.0
  {
    if xs != [] { NoErrors(xs[..|xs| - 1]); }
  }

  lemma ZeroOver(x: real)
    requires x != 0.0
    ensures 0.0 / x == 0.0
  {
  }

  lemma ZeroDeltas(m: Math, xs: seq<real>)
    requires m.Sane() && |xs| >= 2 && forall i :: 0 <= i < |xs| ==> xs[i] == 0.0
    ensures Mean(xs) == 0.0 && StandardError(m, xs) == 0.0
  {
    NoErrors(xs);
    ZeroOver(|xs| as real);
    ZeroOver(|xs| as real - 1.0);
    var root := m.sqrt(|xs| as real);
    if root != 0.0 { ZeroOver(root); }
  }

  /** The panel's score is the weighted mean of its cases' scores. */
  lemma {:induction false} ScoreIsWeightedMean(m: Math, obs: Metrics, cases: seq<string>, seeds: seq<int>, share: string -> real)
    requires seeds != []
    ensures Mean(Combined(m, obs, cases, seeds, share)) == MeanOfCases(m, obs, cases, seeds, share)
  {
    if cases == [] {
      NoErrors(Combined(m, obs, cases, seeds, share));
      ZeroOver(|seeds| as real);
    } else {
      var n := |cases| - 1;
      ScoreIsWeightedMean(m, obs, cases[..n], seeds, share);
      MeanAddScaled(Combined(m, obs, cases[..n], seeds, share), share(cases[n]), Differences(m, obs, cases[n], seeds));
    }
  }

  // ----- The loops

  /** The differences of one case; `None` when an observation is missing or not positive. */
  method CaseDifferences(m: Math, obs: Metrics, c: string, seeds: seq<int>) returns (diffs: Option<seq<real>>)
    ensures diffs.Some? <==> CaseObserved(obs, c, seeds)
    ensures diffs.Some? ==> diffs.value == Differences(m, obs, c, seeds)
  {
    var found: seq<real> := [];
    for i := 0 to |seeds|
      invariant found == Differences(m, obs, c, seeds[..i]) && CaseObserved(obs, c, seeds[..i])
    {
      if !Observed(obs, c, seeds[i]) { return None; }
      found := found + [m.ln(obs[Key(c, Evolved, seeds[i])]) - m.ln(obs[Key(c, Baseline, seeds[i])])];
    }
    assert seeds[..|seeds|] == seeds;
    return Some(found);
  }

  /** The cases' own estimates, and the seeds' weighted sums; `None` for a missing observation. */
  method GradeCases(m: Math, cases: seq<string>, obs: Metrics, seeds: seq<int>, share: string -> real)
    returns (graded: Option<(seq<real>, seq<Estimate>)>)
    requires |seeds| >= 2
    ensures graded.Some? <==> AllObserved(obs, cases, seeds)
    ensures graded.Some? ==> graded.value.0 == Combined(m, obs, cases, seeds, share)
    ensures graded.Some? ==> CaseEstimates(m, obs, cases, seeds, graded.value.1)
  {
    var deltas := new real[|seeds|](_ => 0.0);
    ghost var sums := deltas[..];
    assert sums == Combined(m, obs, cases[..0], seeds, share);
    var perCase: seq<Estimate> := [];
    for k := 0 to |cases|
      invariant deltas[..] == sums == Combined(m, obs, cases[..k], seeds, share)
      invariant CaseEstimates(m, obs, cases[..k], seeds, perCase)
      invariant AllObserved(obs, cases[..k], seeds)
    {
      var diffs := CaseDifferences(m, obs, cases[k], seeds);
      ObservedNext(obs, cases, k, seeds);
      if diffs.None? { return None; }
      perCase := AppendEstimate(m, obs, cases, k, seeds, diffs.value, perCase);
      AddCase(deltas, share(cases[k]), diffs.value);
      sums := AddScaled(sums, share(cases[k]), diffs.value);
      CombinedNext(m, obs, cases, k, seeds, share);
    }
    assert cases[..|cases|] == cases;
    return Some((deltas[..], perCase));
  }

  method AppendEstimate(m: Math, ghost obs: Metrics, ghost cases: seq<string>, ghost k: nat, ghost seeds: seq<int>,
                        diffs: seq<real>, perCase: seq<Estimate>) returns (more: seq<Estimate>)
    requires |seeds| >= 2 && k < |cases| && CaseEstimates(m, obs, cases[..k], seeds, perCase)
    requires diffs == Differences(m, obs, cases[k], seeds)
    ensures CaseEstimates(m, obs, cases[..k + 1], seeds, more)
  {
    more := perCase + [EstimateOf(m, diffs).value];
    CaseEstimatesNext(m, obs, cases, k, seeds, perCase);
  }

  ghost predicate CaseEstimates(m: Math, obs: Metrics, cases: seq<string>, seeds: seq<int>, perCase: seq<Estimate>) {
    && |perCase| == |cases|
    && forall k :: 0 <= k < |cases| ==> Some(perCase[k]) == EstimateOf(m, Differences(m, obs, cases[k], seeds))
  }

  lemma CaseEstimatesNext(m: Math, obs: Metrics, cases: seq<string>, k: nat, seeds: seq<int>, perCase: seq<Estimate>)
    requires |seeds| >= 2 && k < |cases| && CaseEstimates(m, obs, cases[..k], seeds, perCase)
    ensures EstimateOf(m, Differences(m, obs, cases[k], seeds)).Some?
    ensures CaseEstimates(
              m, obs, cases[..k + 1], seeds, perCase + [EstimateOf(m, Differences(m, obs, cases[k], seeds)).value])
  {
    assert forall j :: 0 <= j < k ==> cases[..k + 1][j] == cases[..k][j];
  }

  /** Grades exactly the panels with cases, at least two different seeds, positive weights and
      complete positive observations; the score is the weighted mean of the cases' scores. */
  method PairedPanel(m: Math, cases: seq<string>, obs: Metrics, seeds: seq<int>, weight: string -> real)
    returns (outcome: Outcome)
    ensures outcome == BadWeights <==>
            cases != [] && |seeds| >= 2 && Distinct(seeds) && !Weighted(cases, weight)
    ensures outcome.Graded? <==>
            && cases != [] && |seeds| >= 2 && Distinct(seeds) && Weighted(cases, weight)
            && AllObserved(obs, cases, seeds)
    ensures outcome.Graded? ==> IsGrade(m, cases, obs, seeds, weight, outcome.panel)
  {
    if cases == [] || |seeds| < 2 || !Distinct(seeds) { return Incomplete; }
    if !Weighted(cases, weight) { return BadWeights; }
    var graded := GradeCases(m, cases, obs, seeds, Shares(cases, weight));
    if graded.None? { return Incomplete; }
    ScoreIsWeightedMean(m, obs, cases, seeds, Shares(cases, weight));
    return Graded(Panel(EstimateOf(m, graded.value.0).value, graded.value.1));
  }

  lemma CombinedNext(m: Math, obs: Metrics, cases: seq<string>, k: nat, seeds: seq<int>, share: string -> real)
    requires k < |cases|
    ensures Combined(m, obs, cases[..k + 1], seeds, share)
         == AddScaled(Combined(m, obs, cases[..k], seeds, share), share(cases[k]), Differences(m, obs, cases[k], seeds))
  {
    assert cases[..k + 1][..k] == cases[..k];
  }

  /** Adds the scaled differences of one case, in place. */
  method AddCase(deltas: array<real>, share: real, diffs: seq<real>)
    requires deltas.Length == |diffs|
    modifies deltas
    ensures deltas[..] == AddScaled(old(deltas[..]), share, diffs)
  {
    for i := 0 to |diffs|
      invariant forall j :: 0 <= j < i ==> deltas[j] == old(deltas[j]) + share * diffs[j]
      invariant forall j :: i <= j < |diffs| ==> deltas[j] == old(deltas[j])
    {
      deltas[i] := deltas[i] + share * diffs[i];
    }
    ghost var all := AddScaled(old(deltas[..]), share, diffs);
    forall j | 0 <= j < |diffs|
      ensures deltas[..][j] == all[j]
    {
      assert old(deltas[..])[j] == old(deltas[j]);
    }
  }

  ghost predicate IsGrade(m: Math, cases: seq<string>, obs: Metrics, seeds: seq<int>, weight: string -> real, p: Panel)
    requires |seeds| >= 2 && Weighted(cases, weight)
  {
    var share := Shares(cases, weight);
    && Some(p.overall) == EstimateOf(m, Combined(m, obs, cases, seeds, share))
    && p.overall.lnScore == MeanOfCases(m, obs, cases, seeds, share)
    && CaseEstimates(m, obs, cases, seeds, p.cases)
  }

  // ----- Equal arms

  ghost predicate EqualArms(obs: Metrics, cases: seq<string>, seeds: seq<int>) {
    forall c, s :: c in cases && s in seeds && Observed(obs, c, s) ==> obs[Key(c, Evolved, s)] == obs[Key(c, Baseline, s)]
  }

  lemma {:induction false} EqualArmsCombine(m: Math, obs: Metrics, cases: seq<string>, seeds: seq<int>, share: string -> real)
    requires EqualArms(obs, cases, seeds)
    ensures forall i :: 0 <= i < |seeds| ==> Combined(m, obs, cases, seeds, share)[i] == 0.0
  {
    if cases != [] {
      var n := |cases| - 1;
      EqualArmsCombine(m, obs, cases[..n], seeds, share);
      var diffs := Differences(m, obs, cases[n], seeds);
      forall i | 0 <= i < |seeds|
        ensures diffs[i] == 0.0
      {
        assert cases[n] in cases && seeds[i] in seeds;
      }
      assert share(cases[n]) * 0.0 == 0.0;
    }
  }

  /** Equal metrics in both arms have effect zero with standard error zero. */
  lemma EqualArmsNoEffect(m: Math, cases: seq<string>, obs: Metrics, seeds: seq<int>, weight: string -> real, p: Panel)
    requires |seeds| >= 2 && Weighted(cases, weight)
    ensures m.Sane() && IsGrade(m, cases, obs, seeds, weight, p) && EqualArms(obs, cases, seeds) ==>
              p.overall.lnScore == 0.0 && p.overall.se == 0.0
  {
    if m.Sane() && IsGrade(m, cases, obs, seeds, weight, p) && EqualArms(obs, cases, seeds) {
      EqualArmsCombine(m, obs, cases, seeds, Shares(cases, weight));
      ZeroDeltas(m, Combined(m, obs, cases, seeds, Shares(cases, weight)));
    }
  }
}
