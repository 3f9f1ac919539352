/** What a graded panel says about the observed metrics: the direction of its score, how the score
    moves with a metric, and what the standard error measures. */
module EstimateLaws {

  import opened Prelude
  import opened Sums
  import opened Estimates

  // ----- The terms of a grade

  /** The logarithm of evolved over baseline, of one case under one seed. */
  function LogRatio(m: Math, obs: Metrics, c: string, seed: int): real
    requires Observed(obs, c, seed)
  {
    m.ln(obs[Key(c, Evolved, seed)]) - m.ln(obs[Key(c, Baseline, seed)])
  }

  lemma ObservedAt(obs: Metrics, cases: seq<string>, seeds: seq<int>, k: nat, i: nat)
    requires AllObserved(obs, cases, seeds) && k < |cases| && i < |seeds|
    ensures Observed(obs, cases[k], seeds[i])
  {
    assert CaseObserved(obs, cases[k], seeds);
  }

  function LogRatios(m: Math, obs: Metrics, c: string, seeds: seq<int>): (ratios: seq<real>)
    requires CaseObserved(obs, c, seeds)
    ensures |ratios| == |seeds| && forall i | 0 <= i < |seeds| :: ratios[i] == LogRatio(m, obs, c, seeds[i])
  {
    seq(|seeds|, i requires 0 <= i < |seeds| => LogRatio(m, obs, c, seeds[i]))
  }

  lemma DifferencesAreRatios(m: Math, obs: Metrics, c: string, seeds: seq<int>)
    requires CaseObserved(obs, c, seeds)
    ensures Differences(m, obs, c, seeds) == LogRatios(m, obs, c, seeds)
  {
  }

  /** A seed's terms: every case's share of its log ratio. */
  function Terms(m: Math, obs: Metrics, cases: seq<string>, share: string -> real, seed: int): (terms: seq<real>)
    requires forall k | 0 <= k < |cases| :: Observed(obs, cases[k], seed)
    ensures |terms| == |cases|
    ensures forall k | 0 <= k < |cases| :: terms[k] == Product(share(cases[k]), LogRatio(m, obs, cases[k], seed))
  {
    seq(|cases|, k requires 0 <= k < |cases| => Product(share(cases[k]), LogRatio(m, obs, cases[k], seed)))
  }

  lemma {:induction false} CombinedIsSum(m: Math, obs: Metrics, cases: seq<string>, seeds: seq<int>, share: string -> real, i: nat)
    requires i < |seeds| && forall k | 0 <= k < |cases| :: Observed(obs, cases[k], seeds[i])
    ensures Combined(m, obs, cases, seeds, share)[i] == Sum(Terms(m, obs, cases, share, seeds[i]))
    decreases |cases|
  {
    if cases != [] {
      var n := |cases| - 1;
      CombinedIsSum(m, obs, cases[..n], seeds, share, i);
      assert Terms(m, obs, cases, share, seeds[i])[..n] == Terms(m, obs, cases[..n], share, seeds[i]);
      assert Differences(m, obs, cases[n], seeds)[i] == LogRatio(m, obs, cases[n], seeds[i]);
    }
  }

  // ----- Shares

  function SharesOf(cases: seq<string>, share: string -> real): (shares: seq<real>)
    ensures |shares| == |cases| && forall k | 0 <= k < |cases| :: shares[k] == share(cases[k])
  {
    seq(|cases|, k requires 0 <= k < |cases| => share(cases[k]))
  }

  lemma {:induction false} TotalIsSum(cases: seq<string>, weight: string -> real)
    ensures TotalWeight(cases, weight) == Sum(SharesOf(cases, weight))
    decreases |cases|
  {
    if cases != [] {
      var n := |cases| - 1;
      TotalIsSum(cases[..n], weight);
      assert SharesOf(cases, weight)[..n] == SharesOf(cases[..n], weight);
    }
  }

  lemma Quotient(x: real, y: real)
    requires y > 0.0
    ensures Product(x / y, y) == x && (x > 0.0 ==> x / y > 0.0) && y / y == 1.0
  {
    var q := x / y;
    assert q * y == x;
    var one := y / y;
    assert (one - 1.0) * y == 0.0;
  }

  lemma ShareOf(cases: seq<string>, weight: string -> real, c: string)
    requires TotalWeight(cases, weight) > 0.0
    ensures var share := Shares(cases, weight);
            Product(share(c), TotalWeight(cases, weight)) == weight(c) && (weight(c) > 0.0 ==> share(c) > 0.0)
  {
    Quotient(weight(c), TotalWeight(cases, weight));
  }

  /** Shares are proportional to the weights, positive, and add up to one. */
  lemma SharesAddUp(cases: seq<string>, weight: string -> real)
    requires Weighted(cases, weight)
    ensures var share := Shares(cases, weight);
            && Sum(SharesOf(cases, share)) == 1.0
            && (forall k | 0 <= k < |cases| :: share(cases[k]) > 0.0)
            && (forall c :: Product(share(c), Sum(SharesOf(cases, weight))) == weight(c))
  {
    var share := Shares(cases, weight);
    TotalIsSum(cases, weight);
    forall c ensures Product(share(c), TotalWeight(cases, weight)) == weight(c) && (weight(c) > 0.0 ==> share(c) > 0.0) {
      ShareOf(cases, weight, c);
    }
    SharesAreOne(cases, weight, TotalWeight(cases, weight));
  }

  lemma SharesAreOne(cases: seq<string>, weight: string -> real, total: real)
    requires total > 0.0 && total == TotalWeight(cases, weight) == Sum(SharesOf(cases, weight))
    ensures Sum(SharesOf(cases, Shares(cases, weight))) == 1.0
  {
    var weights, shares := SharesOf(cases, weight), SharesOf(cases, Shares(cases, weight));
    forall k | 0 <= k < |cases| ensures shares[k] == Product(1.0 / total, weights[k]) {
      OverTotal(weight(cases[k]), total);
    }
    SumScaled(weights, 1.0 / total, shares);
    OverTotal(total, total);
    Quotient(total, total);
  }

  lemma OverTotal(x: real, total: real)
    requires total > 0.0
    ensures x / total == Product(1.0 / total, x)
  {
    var inverse := 1.0 / total;
    assert inverse * total == 1.0;
    assert (inverse * x) * total == x;
  }

  // ----- The score and its standard error

  /** A square root. */
  ghost predicate Rooted(m: Math) {
    forall x :: x >= 0.0 ==> m.sqrt(x) >= 0.0 && Product(m.sqrt(x), m.sqrt(x)) == x
  }

  function Squares(xs: seq<real>, mean: real): (squares: seq<real>)
    ensures |squares| == |xs| && forall i | 0 <= i < |xs| :: squares[i] == Product(xs[i] - mean, xs[i] - mean)
  {
    seq(|xs|, i requires 0 <= i < |xs| => Product(xs[i] - mean, xs[i] - mean))
  }

  lemma {:induction false} ErrorsAreSum(xs: seq<real>, mean: real)
    ensures SquaredErrors(xs, mean) == Sum(Squares(xs, mean)) && SquaredErrors(xs, mean) >= 0.0
  {
    if xs != [] {
      var n := |xs| - 1;
      ErrorsAreSum(xs[..n], mean);
      assert Squares(xs, mean)[..n] == Squares(xs[..n], mean);
    }
  }

  lemma SquareOfQuotient(a: real, b: real, n: real, s: real)
    requires b > 0.0 && b * b == n && a >= 0.0 && a * a == s
    ensures a / b >= 0.0 && (a / b) * (a / b) * n == s
  {
    var q := a / b;
    assert q * b == a;
    assert q * q * n == (q * b) * (q * b);
    assert q < 0.0 ==> q * b < 0.0;
  }

  lemma OverDegrees(s: real, d: real, x: real)
    requires d > 0.0 && x == s / d
    ensures x * d == s
  {
  }

  /** What an estimate of these differences is: their mean, and an error whose square, times the
      number of differences and that number less one, is the sum of the squared deviations. */
  ghost predicate Measures(e: Estimate, deltas: seq<real>) {
    && e.deltas == deltas
    && Product(e.lnScore, |deltas| as real) == Sum(deltas)
    && e.se >= 0.0
    && Product(Product(Product(e.se, e.se), |deltas| as real), |deltas| as real - 1.0) == Sum(Squares(deltas, e.lnScore))
  }

  lemma EstimateMeaning(m: Math, deltas: seq<real>, e: Estimate)
    requires Rooted(m) && EstimateOf(m, deltas) == Some(e)
    ensures Measures(e, deltas)
  {
    var n := |deltas| as real;
    Quotient(Sum(deltas), n);
    ErrorsAreSum(deltas, e.lnScore);
    ErrorMeaning(m, SquaredErrors(deltas, e.lnScore), n, e.se);
  }

  lemma ErrorMeaning(m: Math, squares: real, n: real, se: real)
    requires Rooted(m) && n >= 2.0 && squares >= 0.0
    requires se == if m.sqrt(n) == 0.0 then 0.0 else m.sqrt(squares / (n - 1.0)) / m.sqrt(n)
    ensures se >= 0.0 && Product(Product(Product(se, se), n), n - 1.0) == squares
  {
    var x := squares / (n - 1.0);
    OverDegrees(squares, n - 1.0, x);
    NotNegative(squares, n - 1.0);
    assert Product(m.sqrt(n), m.sqrt(n)) == n;
    assert Product(m.sqrt(x), m.sqrt(x)) == x;
    SquareOfQuotient(m.sqrt(x), m.sqrt(n), n, x);
  }

  lemma NotNegative(s: real, d: real)
    requires s >= 0.0 && d > 0.0
    ensures s / d >= 0.0
  {
    var q := s / d;
    assert q * d == s;
    assert q < 0.0 ==> q * d < 0.0;
  }

  /** A graded panel, in terms of the observed metrics: per seed the shares of the cases' log
      ratios are added up, the score is the mean over the seeds, each case is estimated from its
      own log ratios, and the errors measure the spread. */
  lemma GradeMeaning(m: Math, cases: seq<string>, obs: Metrics, seeds: seq<int>, weight: string -> real, p: Panel)
    requires Rooted(m) && |seeds| >= 2 && Weighted(cases, weight) && AllObserved(obs, cases, seeds)
    requires IsGrade(m, cases, obs, seeds, weight, p)
    ensures |p.overall.deltas| == |seeds| && Measures(p.overall, p.overall.deltas)
    ensures forall i | 0 <= i < |seeds| ::
              && (forall k | 0 <= k < |cases| :: Observed(obs, cases[k], seeds[i]))
              && p.overall.deltas[i] == Sum(Terms(m, obs, cases, Shares(cases, weight), seeds[i]))
    ensures |p.cases| == |cases|
    ensures forall k | 0 <= k < |cases| ::
              CaseObserved(obs, cases[k], seeds) && Measures(p.cases[k], LogRatios(m, obs, cases[k], seeds))
  {
    var share := Shares(cases, weight);
    EstimateMeaning(m, Combined(m, obs, cases, seeds, share), p.overall);
    forall i | 0 <= i < |seeds|
      ensures forall k | 0 <= k < |cases| :: Observed(obs, cases[k], seeds[i])
      ensures p.overall.deltas[i] == Sum(Terms(m, obs, cases, share, seeds[i]))
    {
      forall k | 0 <= k < |cases| ensures Observed(obs, cases[k], seeds[i]) {
        ObservedAt(obs, cases, seeds, k, i);
      }
      CombinedIsSum(m, obs, cases, seeds, share, i);
    }
    forall k | 0 <= k < |cases|
      ensures CaseObserved(obs, cases[k], seeds) && Measures(p.cases[k], LogRatios(m, obs, cases[k], seeds))
    {
      DifferencesAreRatios(m, obs, cases[k], seeds);
      EstimateMeaning(m, Differences(m, obs, cases[k], seeds), p.cases[k]);
    }
  }

  // ----- The direction of the score

  /** Baselines are the same, and no evolved metric is larger. */
  ghost predicate NoWorse(before: Metrics, after: Metrics, cases: seq<string>, seeds: seq<int>) {
    forall k, i | 0 <= k < |cases| && 0 <= i < |seeds| ::
      && Observed(before, cases[k], seeds[i]) && Observed(after, cases[k], seeds[i])
      && after[Key(cases[k], Baseline, seeds[i])] == before[Key(cases[k], Baseline, seeds[i])]
      && after[Key(cases[k], Evolved, seeds[i])] <= before[Key(cases[k], Evolved, seeds[i])]
  }

  lemma RatioMoves(m: Math, before: Metrics, after: Metrics, c: string, seed: int)
    requires m.Sane() && Observed(before, c, seed) && Observed(after, c, seed)
    requires after[Key(c, Baseline, seed)] == before[Key(c, Baseline, seed)]
    requires after[Key(c, Evolved, seed)] <= before[Key(c, Evolved, seed)]
    ensures LogRatio(m, after, c, seed) <= LogRatio(m, before, c, seed)
  {
  }

  lemma Weigh(share: real, x: real, y: real)
    requires share > 0.0 && x <= y
    ensures Product(share, x) <= Product(share, y) && (x < y ==> Product(share, x) < Product(share, y))
  {
    assert share * (y - x) >= 0.0;
    assert x < y ==> share * (y - x) > 0.0;
  }

  ghost predicate Weighing(shares: seq<real>, xs: seq<real>, terms: seq<real>) {
    |shares| == |xs| == |terms| && forall k | 0 <= k < |xs| :: terms[k] == Product(shares[k], xs[k])
  }

  /** Larger numbers under the same positive shares have a larger sum. */
  lemma WeighedGrows(shares: seq<real>, xs: seq<real>, ys: seq<real>, below: seq<real>, above: seq<real>)
    requires Weighing(shares, xs, below) && Weighing(shares, ys, above)
    requires forall k | 0 <= k < |shares| :: shares[k] > 0.0 && xs[k] <= ys[k]
    ensures Sum(below) <= Sum(above)
    ensures (exists k | 0 <= k < |xs| :: xs[k] < ys[k]) ==> Sum(below) < Sum(above)
  {
    forall k | 0 <= k < |xs|
      ensures below[k] <= above[k] && (xs[k] < ys[k] ==> below[k] < above[k])
    {
      Weigh(shares[k], xs[k], ys[k]);
    }
    SumGrows(below, above);
  }

  lemma WeighedConstant(shares: seq<real>, xs: seq<real>, terms: seq<real>, x: real)
    requires Weighing(shares, xs, terms) && Sum(shares) == 1.0 && forall k | 0 <= k < |xs| :: xs[k] == x
    ensures Sum(terms) == x
  {
    forall k | 0 <= k < |xs| ensures terms[k] == Product(x, shares[k]) {
      Commute(shares[k], x);
    }
    SumScaled(shares, x, terms);
    assert Product(x, 1.0) == x;
  }

  /** The log ratios of the cases under one seed. */
  function Ratios(m: Math, obs: Metrics, cases: seq<string>, seed: int): (ratios: seq<real>)
    requires forall k | 0 <= k < |cases| :: Observed(obs, cases[k], seed)
    ensures |ratios| == |cases| && forall k | 0 <= k < |cases| :: ratios[k] == LogRatio(m, obs, cases[k], seed)
  {
    seq(|cases|, k requires 0 <= k < |cases| => LogRatio(m, obs, cases[k], seed))
  }

  ghost predicate SeedObserved(obs: Metrics, cases: seq<string>, seed: int) {
    forall k | 0 <= k < |cases| :: Observed(obs, cases[k], seed)
  }

  /** One seed's difference is what its cases' log ratios come to under the shares. */
  lemma DeltaWeighs(m: Math, cases: seq<string>, obs: Metrics, seeds: seq<int>, weight: string -> real, p: Panel, i: nat)
    returns (shares: seq<real>, terms: seq<real>)
    requires |seeds| >= 2 && Weighted(cases, weight) && AllObserved(obs, cases, seeds)
    requires IsGrade(m, cases, obs, seeds, weight, p) && i < |seeds|
    ensures shares == SharesOf(cases, Shares(cases, weight)) && Sum(shares) == 1.0 && forall k | 0 <= k < |cases| :: shares[k] > 0.0
    ensures SeedObserved(obs, cases, seeds[i]) && Weighing(shares, Ratios(m, obs, cases, seeds[i]), terms)
    ensures |p.overall.deltas| == |seeds| && p.overall.deltas[i] == Sum(terms)
  {
    var share := Shares(cases, weight);
    SharesAddUp(cases, weight);
    shares := SharesOf(cases, share);
    forall k | 0 <= k < |cases| ensures Observed(obs, cases[k], seeds[i]) {
      ObservedAt(obs, cases, seeds, k, i);
    }
    terms := Terms(m, obs, cases, share, seeds[i]);
    CombinedIsSum(m, obs, cases, seeds, share, i);
  }

  lemma MeanMoves(x: real, y: real, n: real, a: real, b: real)
    requires n > 0.0 && x == a / n && y == b / n
    ensures a <= b ==> x <= y
    ensures a < b ==> x < y
  {
    assert x * n == a && y * n == b;
    assert (y - x) * n == b - a;
    assert y < x ==> (y - x) * n < 0.0;
    assert y <= x ==> (y - x) * n <= 0.0;
  }

  lemma ScoreMoves(m: Math, xs: seq<real>, ys: seq<real>, x: Estimate, y: Estimate)
    requires EstimateOf(m, xs) == Some(x) && EstimateOf(m, ys) == Some(y) && |xs| == |ys|
    requires forall i | 0 <= i < |xs| :: xs[i] <= ys[i]
    ensures x.lnScore <= y.lnScore && ((exists i | 0 <= i < |xs| :: xs[i] < ys[i]) ==> x.lnScore < y.lnScore)
  {
    SumGrows(xs, ys);
    MeanMoves(x.lnScore, y.lnScore, |xs| as real, Sum(xs), Sum(ys));
  }

  /** Lowering evolved metrics never raises the score, and lowering one of them lowers it. */
  lemma LowerNeverRaises(m: Math, cases: seq<string>, before: Metrics, after: Metrics, seeds: seq<int>, weight: string -> real,
                         p: Panel, p': Panel)
    requires m.Sane() && |seeds| >= 2 && Weighted(cases, weight)
    requires AllObserved(before, cases, seeds) && AllObserved(after, cases, seeds) && NoWorse(before, after, cases, seeds)
    requires IsGrade(m, cases, before, seeds, weight, p) && IsGrade(m, cases, after, seeds, weight, p')
    ensures p'.overall.lnScore <= p.overall.lnScore
    ensures (exists k, i | 0 <= k < |cases| && 0 <= i < |seeds| ::
               after[Key(cases[k], Evolved, seeds[i])] < before[Key(cases[k], Evolved, seeds[i])])
            ==> p'.overall.lnScore < p.overall.lnScore
  {
    var xs, ys := p'.overall.deltas, p.overall.deltas;
    forall i | 0 <= i < |seeds|
      ensures |xs| == |ys| == |seeds| && xs[i] <= ys[i]
      ensures (exists k | 0 <= k < |cases| :: after[Key(cases[k], Evolved, seeds[i])] < before[Key(cases[k], Evolved, seeds[i])])
              ==> xs[i] < ys[i]
    {
      SeedMoves(m, cases, before, after, seeds, weight, p, p', i);
    }
    ScoreMoves(m, xs, ys, p'.overall, p.overall);
  }

  lemma SeedMoves(m: Math, cases: seq<string>, before: Metrics, after: Metrics, seeds: seq<int>, weight: string -> real,
                  p: Panel, p': Panel, i: nat)
    requires m.Sane() && |seeds| >= 2 && Weighted(cases, weight) && i < |seeds|
    requires AllObserved(before, cases, seeds) && AllObserved(after, cases, seeds) && NoWorse(before, after, cases, seeds)
    requires IsGrade(m, cases, before, seeds, weight, p) && IsGrade(m, cases, after, seeds, weight, p')
    ensures |p.overall.deltas| == |p'.overall.deltas| == |seeds| && p'.overall.deltas[i] <= p.overall.deltas[i]
    ensures (exists k | 0 <= k < |cases| :: after[Key(cases[k], Evolved, seeds[i])] < before[Key(cases[k], Evolved, seeds[i])])
            ==> p'.overall.deltas[i] < p.overall.deltas[i]
  {
    var shares, above := DeltaWeighs(m, cases, before, seeds, weight, p, i);
    var same, below := DeltaWeighs(m, cases, after, seeds, weight, p', i);
    var xs, ys := Ratios(m, after, cases, seeds[i]), Ratios(m, before, cases, seeds[i]);
    forall k | 0 <= k < |cases|
      ensures xs[k] <= ys[k]
      ensures after[Key(cases[k], Evolved, seeds[i])] < before[Key(cases[k], Evolved, seeds[i])] ==> xs[k] < ys[k]
    {
      RatioMoves(m, before, after, cases[k], seeds[i]);
    }
    WeighedGrows(shares, xs, ys, below, above);
  }

  /** Every observation of the evolved revision is below, or above, that of the baseline. */
  ghost predicate EvolvedBelow(obs: Metrics, cases: seq<string>, seeds: seq<int>) {
    forall k, i | 0 <= k < |cases| && 0 <= i < |seeds| ::
      Observed(obs, cases[k], seeds[i]) && obs[Key(cases[k], Evolved, seeds[i])] < obs[Key(cases[k], Baseline, seeds[i])]
  }

  ghost predicate EvolvedAbove(obs: Metrics, cases: seq<string>, seeds: seq<int>) {
    forall k, i | 0 <= k < |cases| && 0 <= i < |seeds| ::
      Observed(obs, cases[k], seeds[i]) && obs[Key(cases[k], Evolved, seeds[i])] > obs[Key(cases[k], Baseline, seeds[i])]
  }

  /** An improvement everywhere has a negative score, a regression everywhere a positive one. */
  lemma ScoreSign(m: Math, cases: seq<string>, obs: Metrics, seeds: seq<int>, weight: string -> real, p: Panel)
    requires m.Sane() && |seeds| >= 2 && Weighted(cases, weight) && AllObserved(obs, cases, seeds)
    requires IsGrade(m, cases, obs, seeds, weight, p)
    ensures EvolvedBelow(obs, cases, seeds) ==> p.overall.lnScore < 0.0
    ensures EvolvedAbove(obs, cases, seeds) ==> p.overall.lnScore > 0.0
  {
    var xs := p.overall.deltas;
    forall i | 0 <= i < |seeds|
      ensures |xs| == |seeds|
      ensures EvolvedBelow(obs, cases, seeds) ==> xs[i] < 0.0
      ensures EvolvedAbove(obs, cases, seeds) ==> xs[i] > 0.0
    {
      SeedSign(m, cases, obs, seeds, weight, p, i);
    }
    var zeros := seq(|seeds|, i => 0.0);
    SumZero(zeros);
    Quotient(0.0, |seeds| as real);
    if EvolvedBelow(obs, cases, seeds) {
      assert xs[0] < zeros[0];
      SumGrows(xs, zeros);
      MeanMoves(p.overall.lnScore, 0.0 / |seeds| as real, |seeds| as real, Sum(xs), 0.0);
    }
    if EvolvedAbove(obs, cases, seeds) {
      assert zeros[0] < xs[0];
      SumGrows(zeros, xs);
      MeanMoves(0.0 / |seeds| as real, p.overall.lnScore, |seeds| as real, 0.0, Sum(xs));
    }
    ZeroOver(|seeds| as real);
  }

  lemma SeedSign(m: Math, cases: seq<string>, obs: Metrics, seeds: seq<int>, weight: string -> real, p: Panel, i: nat)
    requires m.Sane() && |seeds| >= 2 && Weighted(cases, weight) && AllObserved(obs, cases, seeds) && i < |seeds|
    requires IsGrade(m, cases, obs, seeds, weight, p)
    ensures |p.overall.deltas| == |seeds|
    ensures EvolvedBelow(obs, cases, seeds) ==> p.overall.deltas[i] < 0.0
    ensures EvolvedAbove(obs, cases, seeds) ==> p.overall.deltas[i] > 0.0
  {
    var shares, terms := DeltaWeighs(m, cases, obs, seeds, weight, p, i);
    var ratios := Ratios(m, obs, cases, seeds[i]);
    assert cases != [];
    if EvolvedBelow(obs, cases, seeds) {
      forall k | 0 <= k < |cases| ensures ratios[k] < 0.0 {
        RatioSign(m, obs, cases[k], seeds[i]);
      }
    }
    if EvolvedAbove(obs, cases, seeds) {
      forall k | 0 <= k < |cases| ensures ratios[k] > 0.0 {
        RatioSign(m, obs, cases[k], seeds[i]);
      }
    }
    WeighedSign(shares, ratios, terms);
  }

  lemma RatioSign(m: Math, obs: Metrics, c: string, seed: int)
    requires m.Sane() && Observed(obs, c, seed)
    ensures obs[Key(c, Evolved, seed)] < obs[Key(c, Baseline, seed)] ==> LogRatio(m, obs, c, seed) < 0.0
    ensures obs[Key(c, Evolved, seed)] > obs[Key(c, Baseline, seed)] ==> LogRatio(m, obs, c, seed) > 0.0
  {
  }

  /** Numbers of one sign under positive shares have a sum of that sign. */
  lemma WeighedSign(shares: seq<real>, xs: seq<real>, terms: seq<real>)
    requires xs != [] && Weighing(shares, xs, terms) && forall k | 0 <= k < |shares| :: shares[k] > 0.0
    ensures (forall k | 0 <= k < |xs| :: xs[k] < 0.0) ==> Sum(terms) < 0.0
    ensures (forall k | 0 <= k < |xs| :: xs[k] > 0.0) ==> Sum(terms) > 0.0
  {
    var zeros := seq(|xs|, k => 0.0);
    forall k | 0 <= k < |xs| ensures zeros[k] == Product(shares[k], zeros[k]) {
    }
    SumZero(zeros);
    if forall k | 0 <= k < |xs| :: xs[k] < 0.0 {
      assert xs[0] < zeros[0];
      WeighedGrows(shares, xs, zeros, terms, zeros);
    }
    if forall k | 0 <= k < |xs| :: xs[k] > 0.0 {
      assert zeros[0] < xs[0];
      WeighedGrows(shares, zeros, xs, zeros, terms);
    }
  }

  /** One ratio everywhere is the score, without error, whatever the weights. */
  lemma UniformEffect(m: Math, cases: seq<string>, obs: Metrics, seeds: seq<int>, weight: string -> real, p: Panel, x: real)
    requires Rooted(m) && |seeds| >= 2 && Weighted(cases, weight) && AllObserved(obs, cases, seeds)
    requires IsGrade(m, cases, obs, seeds, weight, p)
    requires forall k, i | 0 <= k < |cases| && 0 <= i < |seeds| ::
               Observed(obs, cases[k], seeds[i]) && LogRatio(m, obs, cases[k], seeds[i]) == x
    ensures p.overall.lnScore == x && p.overall.se == 0.0
  {
    var xs := p.overall.deltas;
    forall i | 0 <= i < |seeds| ensures |xs| == |seeds| && xs[i] == x {
      var shares, terms := DeltaWeighs(m, cases, obs, seeds, weight, p, i);
      WeighedConstant(shares, Ratios(m, obs, cases, seeds[i]), terms, x);
    }
    ConstantEstimate(m, xs, p.overall, x);
  }

  lemma ConstantEstimate(m: Math, xs: seq<real>, e: Estimate, x: real)
    requires Rooted(m) && EstimateOf(m, xs) == Some(e) && forall i | 0 <= i < |xs| :: xs[i] == x
    ensures e.lnScore == x && e.se == 0.0
  {
    ConstantMean(xs, x);
    EstimateMeaning(m, xs, e);
    SquaresZero(xs, x);
    NoError(e.se, |xs| as real);
  }

  lemma SquaresZero(xs: seq<real>, x: real)
    requires forall i | 0 <= i < |xs| :: xs[i] == x
    ensures Sum(Squares(xs, x)) == 0.0
  {
    assert Product(x - x, x - x) == 0.0;
    SumZero(Squares(xs, x));
  }

  lemma ConstantMean(xs: seq<real>, x: real)
    requires xs != [] && forall i | 0 <= i < |xs| :: xs[i] == x
    ensures Mean(xs) == x
  {
    var ones := seq(|xs|, i => 1.0);
    SumOnes(ones);
    assert Product(x, 1.0) == x;
    SumScaled(ones, x, xs);
    Cancelled(x, |xs| as real);
  }

  lemma Cancelled(x: real, n: real)
    requires n > 0.0
    ensures Product(x, n) / n == x
  {
    var q := Product(x, n) / n;
    assert (q - x) * n == 0.0;
  }

  lemma NoError(se: real, n: real)
    requires se >= 0.0 && n >= 2.0 && Product(Product(Product(se, se), n), n - 1.0) == 0.0
    ensures se == 0.0
  {
    NoFactor(Product(Product(se, se), n), n - 1.0);
    NoFactor(Product(se, se), n);
    if se > 0.0 { NoFactor(se, se); }
  }

  lemma NoFactor(x: real, y: real)
    requires Product(x, y) == 0.0 && y > 0.0
    ensures x == 0.0
  {
  }

  lemma {:induction false} SumOnes(xs: seq<real>)
    requires forall i | 0 <= i < |xs| :: xs[i] == 1.0
    ensures Sum(xs) == |xs| as real
  {
    if xs != [] { SumOnes(xs[..|xs| - 1]); }
  }
}
