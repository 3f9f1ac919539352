/** Measuring a cost panel, regime by regime, over saved bundles that interrupted invocations
    leave behind; and deriving the same result again from those bundles alone. */
module Costs {

  import opened Prelude
  import opened CostGuard

  /** What a session fixes for a panel: its regimes, how bundles are validated and judged, its
      cases and its builds. */
  datatype Plan = Plan(
    counts: Option<map<Regime, int>>, validate: Bundle -> Check, guard: Bundle -> Judged,
    caseHashes: map<string, string>, builds: map<string, string>)

  /** The plan of a panel that the cost guard judges. */
  function PlanOf(p: Panel, caseHashes: map<string, string>, builds: map<string, string>): Plan {
    Plan(RegimeCounts(p.estimator, p.policy.protocol), b => Validate(p, b), b => Guard(p, b), caseHashes, builds)
  }

  /** A judged bundle is of its result's regime, and the breach decides what follows. */
  ghost predicate Decided(b: Bundle, r: Result) {
    && r.regime == b.regime
    && r.verdict == (if b.regime.Rerun? then if r.breached then Failed else PassedOnRerun
                     else if r.breached then Unresolved
                     else Passed)
    && r.needsFull == (b.regime.Screen? && r.breached)
    && r.needsRerun == (b.regime.Normal? && r.breached)
  }

  ghost predicate Lawful(plan: Plan) {
    forall b :: plan.guard(b).Judged? ==> Decided(b, plan.guard(b).result)
  }

  lemma GuardIsLawful(p: Panel, caseHashes: map<string, string>, builds: map<string, string>)
    ensures Lawful(PlanOf(p, caseHashes, builds))
  {
    var plan := PlanOf(p, caseHashes, builds);
    forall b | plan.guard(b).Judged?
      ensures Decided(b, plan.guard(b).result)
    {
      assert plan.guard(b) == Guard(p, b);
    }
  }

  /** An evidence row: `NotEvaluated` rows of report-only panels carry what was observed. */
  datatype Evidence = Guarded(result: Result) | ReportOnly(observed: Result) | Unresolved_ | NotEvaluated

  function Recorded(guarded: bool, r: Result): Evidence {
    if guarded then Guarded(r) else ReportOnly(r)
  }

  // ----- The replay

  /** One regime of the replay: the saved bundle must be there, of that regime, a fresh session,
      of the same cases and builds, and pass the guard. */
  function Check(plan: Plan, saved: map<Regime, Bundle>, regime: Regime, previous: Option<nat>): Judged {
    if regime !in saved then Incomplete
    else
      var b := saved[regime];
      if b.regime != regime then Incomplete
      else if previous == Some(b.session) then Incomplete
      else if b.caseHashes != plan.caseHashes then Incomplete
      else if exists a | a in {BASELINE, EVOLVED} ::
        a !in b.arms || a !in plan.builds || b.arms[a].build != plan.builds[a] then Incomplete
      else plan.guard(b)
  }

  /** The normal regime and, for a guarded panel whose normal bundle breaches, the rerun. */
  function ReplayNormal(plan: Plan, saved: map<Regime, Bundle>, guarded: bool, previous: Option<nat>): Judged {
    var normal := Check(plan, saved, Normal, previous);
    if normal.Judged? && guarded && normal.result.needsRerun then Check(plan, saved, Rerun, Some(saved[Normal].session))
    else normal
  }

  function Replay(plan: Plan, saved: map<Regime, Bundle>, guarded: bool): Judged {
    match plan.counts
    case None => Broken
    case Some(counts) =>
      if Screen !in counts then ReplayNormal(plan, saved, guarded, None)
      else
        var screen := Check(plan, saved, Screen, None);
        if screen.Judged? && screen.result.needsFull then ReplayNormal(plan, saved, guarded, Some(saved[Screen].session))
        else screen
  }

  /** The evidence row that the replay derives; `None` when it raises a harness error. */
  function ReplayCosts(plan: Plan, saved: map<Regime, Bundle>, guarded: bool): Option<Evidence> {
    match Replay(plan, saved, guarded)
    case Judged(r) => Some(Recorded(guarded, r))
    case Incomplete => Some(if guarded then Unresolved_ else NotEvaluated)
    case Broken => None
  }

  /** The evidence of a guarded panel is the result of the replay, or unresolved; that of a
      report-only panel never is a result. */
  lemma EvidenceMeans(plan: Plan, saved: map<Regime, Bundle>, guarded: bool)
    ensures var row, replay := ReplayCosts(plan, saved, guarded), Replay(plan, saved, guarded);
            && (row.None? <==> replay == Broken)
            && (row.Some? && row.value.Guarded? <==> guarded && replay.Judged?)
            && (row.Some? && row.value.Guarded? ==> row.value.result == replay.result)
            && (row.Some? && row.value.ReportOnly? <==> !guarded && replay.Judged?)
            && (row.Some? && row.value.ReportOnly? ==> row.value.observed == replay.result)
            && (row == Some(Unresolved_) <==> guarded && replay == Incomplete)
  {
  }

  /** The saved bundle of a regime is of this session's cases and builds. */
  ghost predicate Current(plan: Plan, saved: map<Regime, Bundle>, regime: Regime) {
    && regime in saved && saved[regime].regime == regime && saved[regime].caseHashes == plan.caseHashes
    && forall a | a in {BASELINE, EVOLVED} ::
         a in saved[regime].arms && a in plan.builds && saved[regime].arms[a].build == plan.builds[a]
  }

  /** A replay only judges current bundles of sessions of their own, each asked for by the one
      before it, and its result is the guard's on the last of them. */
  lemma ReplayJudgesCurrent(plan: Plan, saved: map<Regime, Bundle>, guarded: bool)
    requires Lawful(plan) && Replay(plan, saved, guarded).Judged?
    ensures plan.counts.Some?
    ensures var r := Replay(plan, saved, guarded).result;
            && Current(plan, saved, r.regime) && plan.guard(saved[r.regime]) == Judged(r)
            && (Screen in plan.counts.value ==> Current(plan, saved, Screen) && plan.guard(saved[Screen]).Judged?)
            && (Screen in plan.counts.value ==>
                  (r.regime == Screen <==> !plan.guard(saved[Screen]).result.breached))
            && (Screen in plan.counts.value && r.regime != Screen ==> saved[Normal].session != saved[Screen].session)
            && (r.regime != Screen ==> Current(plan, saved, Normal) && plan.guard(saved[Normal]).Judged?)
            && (r.regime != Screen ==> (r.regime == Rerun <==> guarded && plan.guard(saved[Normal]).result.breached))
            && (r.regime == Rerun ==> saved[Rerun].session != saved[Normal].session)
  {
  }

  /** A guarded failure rests on two breaches: in a normal bundle and in a rerun bundle of another
      session. A report-only panel never fails. */
  ghost predicate TwoBreaches(plan: Plan, saved: map<Regime, Bundle>) {
    && Normal in saved && Rerun in saved && saved[Normal].session != saved[Rerun].session
    && saved[Normal].regime == Normal && saved[Rerun].regime == Rerun
    && plan.guard(saved[Normal]).Judged? && plan.guard(saved[Normal]).result.breached
    && plan.guard(saved[Rerun]).Judged? && plan.guard(saved[Rerun]).result.breached
  }

  lemma FailureRestsOnTwoBreaches(plan: Plan, saved: map<Regime, Bundle>, guarded: bool)
    requires Lawful(plan) && Replay(plan, saved, guarded).Judged?
    ensures var r := Replay(plan, saved, guarded).result;
            && (r.verdict == Failed ==> guarded && TwoBreaches(plan, saved))
            && (r.verdict == PassedOnRerun ==> guarded && Normal in saved && plan.guard(saved[Normal]).result.breached)
            && (r.verdict == Unresolved ==> !guarded && r.regime == Normal && r.breached)
            && (r.verdict == Passed ==> !r.breached)
  {
  }

  // ----- The measurement

  /** What `collect_panel` binds a bundle to. */
  predicate Ours(plan: Plan, b: Bundle, regime: Regime) {
    && b.regime == regime && b.caseHashes == plan.caseHashes
    && b.arms.Keys == {BASELINE, EVOLVED}
    && (forall a | a in {BASELINE, EVOLVED} :: a in plan.builds && b.arms[a].build == plan.builds[a])
  }

  ghost predicate Consistent(plan: Plan, saved: map<Regime, Bundle>) {
    && (forall r :: r in saved ==> Ours(plan, saved[r], r))
    && (forall r, s :: r in saved && s in saved && r != s ==> saved[r].session != saved[s].session)
  }

  /** Whether the next regime is needed. */
  predicate Continues(regime: Regime, r: Result) {
    (regime == Screen && r.needsFull) || (regime == Normal && r.needsRerun)
  }

  predicate GoesOn(plan: Plan, saved: map<Regime, Bundle>, regime: Regime) {
    && regime in saved && plan.guard(saved[regime]).Judged?
    && Continues(regime, plan.guard(saved[regime]).result)
  }

  /** The regimes before this one are measured, and each asks for the next. */
  predicate Reached(plan: Plan, saved: map<Regime, Bundle>, regime: Regime)
    requires plan.counts.Some?
  {
    && (regime != Screen && Screen in plan.counts.value ==> GoesOn(plan, saved, Screen))
    && (regime == Screen ==> Screen in plan.counts.value)
    && (regime == Rerun ==> GoesOn(plan, saved, Normal))
  }

  lemma CheckIsGuard(plan: Plan, saved: map<Regime, Bundle>, regime: Regime, previous: Option<nat>)
    requires Consistent(plan, saved) && regime in saved && previous != Some(saved[regime].session)
    ensures Check(plan, saved, regime, previous) == plan.guard(saved[regime])
  {
    assert Ours(plan, saved[regime], regime);
  }

  /** Where the measurement stops, the replay stops, with the same result. */
  lemma ReplayAgrees(plan: Plan, saved: map<Regime, Bundle>, guarded: bool, last: Regime)
    requires Consistent(plan, saved) && plan.counts.Some?
    requires Reached(plan, saved, last) && last in saved && plan.guard(saved[last]).Judged?
    requires Continues(last, plan.guard(saved[last]).result) ==> last == Normal && !guarded
    requires last == Rerun ==> guarded
    ensures Replay(plan, saved, guarded) == plan.guard(saved[last])
  {
    if Screen in plan.counts.value {
      CheckIsGuard(plan, saved, Screen, None);
      if last != Screen { NormalAgrees(plan, saved, guarded, last, Some(saved[Screen].session)); }
    } else {
      NormalAgrees(plan, saved, guarded, last, None);
    }
  }

  lemma NormalAgrees(plan: Plan, saved: map<Regime, Bundle>, guarded: bool, last: Regime, previous: Option<nat>)
    requires Consistent(plan, saved) && last in saved && plan.guard(saved[last]).Judged?
    requires last == Normal || (last == Rerun && guarded && GoesOn(plan, saved, Normal))
    requires Continues(last, plan.guard(saved[last]).result) ==> last == Normal && !guarded
    requires Normal in saved && previous != Some(saved[Normal].session)
    ensures ReplayNormal(plan, saved, guarded, previous) == plan.guard(saved[last])
  {
    CheckIsGuard(plan, saved, Normal, previous);
    if last == Rerun { CheckIsGuard(plan, saved, Rerun, Some(saved[Normal].session)); }
  }

  /** The session's saved bundles and the session identifiers that were ever used. */
  class Session {
    const plan: Plan
    var saved: map<Regime, Bundle>
    var used: set<nat>

    constructor (plan: Plan)
      ensures this.plan == plan && saved == map[] && used == {} && Valid()
    {
      this.plan, saved, used := plan, map[], {};
    }

    /** Every saved bundle is of its regime, of a session that was used, of this session's cases
        and builds; and no two regimes share a session. */
    ghost predicate Valid()
      reads this
    {
      && Consistent(plan, saved)
      && forall r :: r in saved ==> saved[r].session in used
    }

    /** A fresh session of one regime. It is either complete or not returned: the machine may be
        busy or contaminated, a worker may fail, or the process may be killed. */
    method Collect(regime: Regime) returns (bundle: Option<Bundle>)
      modifies `used
      ensures old(used) <= used
      ensures bundle.Some? ==> Ours(plan, bundle.value, regime) && bundle.value.session in used && bundle.value.session !in old(used)
    {
      bundle := None;
      var collected: Bundle := *;
      if Ours(plan, collected, regime) && collected.session !in used {
        used := used + {collected.session};
        var finished: bool := *;
        if finished { bundle := Some(collected); }
      }
    }

    /** The bundle of one regime: the saved one when it is admissible, else a new measurement.
        `None` when the invocation ends here. */
    method MeasureRegime(regime: Regime) returns (bundle: Option<Bundle>)
      requires Valid()
      modifies `saved, `used
      ensures Valid()
      ensures bundle.Some? ==> saved == old(saved)[regime := bundle.value]
      ensures bundle.None? ==> saved == old(saved)
      ensures bundle.Some? && regime in old(saved) && plan.validate(old(saved)[regime]) == Fine ==>
                bundle.value == old(saved)[regime]
      ensures regime in old(saved) && plan.validate(old(saved)[regime]) == Malformed ==> bundle.None?
      ensures bundle.Some? && !(regime in old(saved) && plan.validate(old(saved)[regime]) == Fine) ==>
                bundle.value.session !in old(used) && bundle.value.session in used
    {
      bundle := None;
      if regime in saved {
        var check := plan.validate(saved[regime]);
        if check == Malformed { return None; }
        if check == Fine { bundle := Some(saved[regime]); }
      }
      if bundle.None? {
        bundle := Collect(regime);
        if bundle.None? { return; }
      }
      var killed: bool := *;
      if killed { return None; }
      saved := saved[regime := bundle.value];
    }

    /** Screen, then the full measurement, then one rerun. Whatever interrupted invocations left
        behind, a result is the one that the replay of the saved bundles derives. */
    method MeasurePanel(guarded: bool) returns (result: Option<Result>)
      requires Valid()
      modifies `saved, `used
      ensures Valid()
      ensures result.Some? ==> Replay(plan, saved, guarded) == Judged(result.value)
    {
      if plan.counts.None? { return None; }
      var regimes := if Screen in plan.counts.value then [Screen, Normal, Rerun] else [Normal, Rerun];
      result := None;
      var i := 0;
      while i < |regimes|
        invariant 0 <= i <= |regimes| && Valid()
        invariant i < |regimes| ==> Reached(plan, saved, regimes[i])
        invariant i > 0 ==> result.Some? && GoesOn(plan, saved, regimes[i - 1])
        invariant i > 0 ==> plan.guard(saved[regimes[i - 1]]) == Judged(result.value)
      {
        var regime := regimes[i];
        if regime == Rerun && !guarded {
          ReplayAgrees(plan, saved, guarded, Normal);
          return;
        }
        var bundle := MeasureRegime(regime);
        if bundle.None? { return None; }
        var judged := plan.guard(bundle.value);
        if !judged.Judged? { return None; }
        result := Some(judged.result);
        if !Continues(regime, judged.result) {
          ReplayAgrees(plan, saved, guarded, regime);
          return;
        }
        i := i + 1;
      }
    }

    /** Any number of invocations, each stopped anywhere: the one that returns agrees. */
    method Invocations(guarded: bool, limit: nat) returns (result: Option<Result>)
      requires Valid() && Lawful(plan)
      modifies `saved, `used
      ensures Valid()
      ensures result.Some? ==>
                ReplayCosts(plan, saved, guarded) == Some(if guarded then Guarded(result.value) else ReportOnly(result.value))
      ensures result.Some? && result.value.verdict == Failed ==> guarded && TwoBreaches(plan, saved)
    {
      result := None;
      for i := 0 to limit
        invariant Valid() && result.None?
      {
        result := MeasurePanel(guarded);
        if result.Some? {
          FailureRestsOnTwoBreaches(plan, saved, guarded);
          return;
        }
      }
    }
  }
}
