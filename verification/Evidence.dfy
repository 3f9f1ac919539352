/** Admission of monitored cost evidence: the checks of one worker process's record.

    Times and counters are exact reals, so the tolerance only allows for differences that the
    record itself holds. */
module Evidence {

  import opened Prelude

  datatype Thresholds = Thresholds(windowS: real, fraction: real, floorS: real)

  const TOLERANCE_S: real := 0.000001

  datatype Window = Window(start: real, end: real, seconds: real, busy: real, workerCpu: real, foreign: real,
                           final: bool, measurement: Option<nat>)

  datatype Interval = Interval(start: real, end: Option<real>)

  datatype Record = Record(launched: real, exited: Option<real>, returncode: Option<int>, aborted: bool, cpus: set<nat>,
                           windows: seq<Window>, measurements: seq<Interval>)

  // ----- Check A

  function Abs(x: real): real {
    if x < 0.0 then -x else x
  }

  predicate Close(a: real, b: real): (close: bool)
    ensures close <==> a - b <= TOLERANCE_S && b - a <= TOLERANCE_S
  {
    Abs(a - b) <= TOLERANCE_S
  }

  function LimitA(seconds: real, th: Thresholds): (limit: real)
    ensures limit >= th.floorS && limit >= th.fraction * seconds
    ensures limit == th.floorS || limit == th.fraction * seconds
  {
    if th.fraction * seconds > th.floorS then th.fraction * seconds else th.floorS
  }

  predicate PassesA(w: Window, th: Thresholds) {
    w.foreign <= LimitA(w.seconds, th)
  }

  /** Only windows inside a measured interval void the measurement. */
  predicate Decisive(w: Window) {
    w.measurement.Some?
  }

  // ----- What an admissible record is

  datatype Problem =
    | Aborted | OutsideCore | Incomplete | NoExitStatus
    | NotFromLaunch | NotToExit | NoSingleFinal
    | InvalidCounters(i: nat) | Gap(i: nat) | Inconsistent(i: nat) | TooLong(i: nat) | Foreign(i: nat)
    | BadInterval(k: nat)

  /** The first thing wrong with window `i`, given the window before it. */
  function WindowProblem(windows: seq<Window>, i: nat, th: Thresholds): Option<Problem>
    requires i < |windows|
  {
    var w := windows[i];
    if w.seconds <= 0.0 || w.busy < 0.0 || w.workerCpu < 0.0 then Some(InvalidCounters(i))
    else if i > 0 && !Close(w.start, windows[i - 1].end) then Some(Gap(i))
    else if !Close(w.end - w.start, w.seconds) || !Close(w.busy - w.workerCpu, w.foreign) then Some(Inconsistent(i))
    else if w.seconds > th.windowS * 2.0 + 1.0 then Some(TooLong(i))
    else if Decisive(w) && !PassesA(w, th) then Some(Foreign(i))
    else None
  }

  /** The windows of measured interval `k`, in order. */
  function Covered(windows: seq<Window>, k: nat): seq<Window> {
    if windows == [] then []
    else (if windows[0].measurement == Some(k) then [windows[0]] else []) + Covered(windows[1..], k)
  }

  predicate Contiguous(ws: seq<Window>) {
    forall i | 0 <= i < |ws| - 1 :: ws[i].end == ws[i + 1].start
  }

  predicate IntervalCovered(windows: seq<Window>, interval: Interval, k: nat) {
    var ws := Covered(windows, k);
    && interval.end.Some? && interval.end.value > interval.start
    && ws != [] && Close(ws[0].start, interval.start) && Close(ws[|ws| - 1].end, interval.end.value)
    && Contiguous(ws)
  }

  predicate Admissible(r: Record, th: Thresholds, cpus: set<nat>) {
    && !r.aborted && r.cpus == cpus && r.windows != [] && r.exited.Some? && r.returncode.Some?
    && Close(r.windows[0].start, r.launched) && Close(r.windows[|r.windows| - 1].end, r.exited.value)
    && (forall i | 0 <= i < |r.windows| :: r.windows[i].final <==> i == |r.windows| - 1)
    && (forall i | 0 <= i < |r.windows| :: WindowProblem(r.windows, i, th) == None)
    && (forall k | 0 <= k < |r.measurements| :: IntervalCovered(r.windows, r.measurements[k], k))
  }

  // ----- The validator

  method FilterCovered(windows: seq<Window>, k: nat) returns (ws: seq<Window>)
    ensures ws == Covered(windows, k)
  {
    ws := [];
    for i := 0 to |windows|
      invariant ws == Covered(windows[..i], k)
    {
      assert windows[..i + 1] == windows[..i] + [windows[i]];
      CoveredSnoc(windows[..i], windows[i], k);
      if windows[i].measurement == Some(k) { ws := ws + [windows[i]]; }
    }
    assert windows[..|windows|] == windows;
  }

  lemma {:induction false} CoveredSnoc(windows: seq<Window>, w: Window, k: nat)
    ensures Covered(windows + [w], k) == Covered(windows, k) + if w.measurement == Some(k) then [w] else []
  {
    if windows == [] {
      assert windows + [w] == [w] && [w][1..] == [];
    } else {
      var longer := windows + [w];
      assert longer[0] == windows[0] && longer[1..] == windows[1..] + [w];
      CoveredSnoc(windows[1..], w, k);
      var own := if windows[0].measurement == Some(k) then [windows[0]] else [];
      var last := if w.measurement == Some(k) then [w] else [];
      assert (own + Covered(windows[1..], k)) + last == own + (Covered(windows[1..], k) + last);
    }
  }

  /** Every problem of one process's record; empty exactly when the record is admissible. */
  method RecordProblems(r: Record, th: Thresholds, cpus: set<nat>) returns (found: seq<Problem>)
    ensures found == [] <==> Admissible(r, th, cpus)
  {
    if r.aborted { return [Aborted]; }
    if r.cpus != cpus { return [OutsideCore]; }
    if r.windows == [] || r.exited.None? { return [Incomplete]; }
    if r.returncode.None? { return [NoExitStatus]; }
    var windows, n := r.windows, |r.windows|;
    found := [];
    if !Close(windows[0].start, r.launched) { found := found + [NotFromLaunch]; }
    if !Close(windows[n - 1].end, r.exited.value) { found := found + [NotToExit]; }
    if !windows[n - 1].final || exists i | 0 <= i < n - 1 :: windows[i].final { found := found + [NoSingleFinal]; }
    ghost var ends := found;
    var i := 0;
    while i < n
      invariant 0 <= i <= n && found == ends
      invariant forall j | 0 <= j < i :: WindowProblem(windows, j, th) == None
    {
      var problem := WindowProblem(windows, i, th);
      if problem.Some? {
        found := found + [problem.value];
        break;
      }
      i := i + 1;
    }
    ghost var clean := found == [];
    assert clean ==> i == n;
    for k := 0 to |r.measurements|
      invariant found == [] <==> clean && forall j | 0 <= j < k :: IntervalCovered(windows, r.measurements[j], j)
    {
      var interval := r.measurements[k];
      var ws := FilterCovered(windows, k);
      if interval.end.None? || interval.end.value <= interval.start || ws == []
         || !Close(ws[0].start, interval.start) || !Close(ws[|ws| - 1].end, interval.end.value)
         || exists i | 0 <= i < |ws| - 1 :: ws[i].end != ws[i + 1].start
      {
        found := found + [BadInterval(k)];
      }
    }
  }

  // ----- What admission guarantees

  function SumForeign(ws: seq<Window>): real {
    if ws == [] then 0.0 else SumForeign(ws[..|ws| - 1]) + ws[|ws| - 1].foreign
  }

  function SumLimits(ws: seq<Window>, th: Thresholds): real {
    if ws == [] then 0.0 else SumLimits(ws[..|ws| - 1], th) + LimitA(ws[|ws| - 1].seconds, th)
  }

  function SumSeconds(ws: seq<Window>): real {
    if ws == [] then 0.0 else SumSeconds(ws[..|ws| - 1]) + ws[|ws| - 1].seconds
  }

  lemma {:induction false} CoveredMembers(windows: seq<Window>, k: nat, w: Window)
    requires w in Covered(windows, k)
    ensures w in windows && w.measurement == Some(k)
  {
    if !(windows[0].measurement == Some(k) && w == windows[0]) {
      CoveredMembers(windows[1..], k, w);
    }
  }

  lemma {:induction false} SumsBound(ws: seq<Window>, th: Thresholds)
    requires forall w | w in ws :: PassesA(w, th)
    ensures SumForeign(ws) <= SumLimits(ws, th)
    decreases |ws|
  {
    if ws != [] {
      var init := ws[..|ws| - 1];
      assert forall w | w in init :: w in ws;
      SumsBound(init, th);
      assert PassesA(ws[|ws| - 1], th);
    }
  }

  /** Contiguous windows whose lengths are right up to the tolerance span their ends, up to one
      tolerance each. */
  lemma {:induction false} SecondsSpan(ws: seq<Window>)
    requires ws != [] && Contiguous(ws) && forall w | w in ws :: Close(w.end - w.start, w.seconds)
    ensures Abs(SumSeconds(ws) - (ws[|ws| - 1].end - ws[0].start)) <= |ws| as real * TOLERANCE_S
    decreases |ws|
  {
    var init, last := ws[..|ws| - 1], ws[|ws| - 1];
    assert last in ws;
    if init != [] {
      assert forall w | w in init :: w in ws;
      assert ws[|ws| - 2].end == ws[|ws| - 2 + 1].start;
      SecondsSpan(init);
    } else {
      assert SumSeconds(init) == 0.0;
    }
  }

  /** An admissible record's windows tile the process's life: the first starts at launch, each
      next one where the one before ended, the last ends at exit, all up to the tolerance, and
      each is positive and bounded. */
  lemma WindowsTileLife(r: Record, th: Thresholds, cpus: set<nat>)
    requires Admissible(r, th, cpus)
    ensures Close(r.windows[0].start, r.launched) && Close(r.windows[|r.windows| - 1].end, r.exited.value)
    ensures forall i | 0 < i < |r.windows| :: Close(r.windows[i].start, r.windows[i - 1].end)
    ensures forall i | 0 <= i < |r.windows| :: 0.0 < r.windows[i].seconds <= th.windowS * 2.0 + 1.0
                                               && Close(r.windows[i].end - r.windows[i].start, r.windows[i].seconds)
    ensures Abs(SumSeconds(r.windows) - (r.exited.value - r.launched)) <= (2 * |r.windows| + 1) as real * TOLERANCE_S
  {
    forall i | 0 <= i < |r.windows|
      ensures 0.0 < r.windows[i].seconds <= th.windowS * 2.0 + 1.0 && Close(r.windows[i].end - r.windows[i].start, r.windows[i].seconds)
      ensures i > 0 ==> Close(r.windows[i].start, r.windows[i - 1].end)
    {
      assert WindowProblem(r.windows, i, th) == None;
    }
    LooseSpan(r.windows, |r.windows|);
    assert r.windows[..|r.windows|] == r.windows;
  }

  lemma {:induction false} LooseSpan(ws: seq<Window>, n: nat)
    requires 0 < n <= |ws|
    requires forall i | 0 <= i < n :: Close(ws[i].end - ws[i].start, ws[i].seconds) && (i > 0 ==> Close(ws[i].start, ws[i - 1].end))
    ensures Abs(SumSeconds(ws[..n]) - (ws[n - 1].end - ws[0].start)) <= (2 * n - 1) as real * TOLERANCE_S
    decreases n
  {
    assert ws[..n][..n - 1] == ws[..n - 1];
    if n > 1 {
      LooseSpan(ws, n - 1);
    } else {
      assert SumSeconds(ws[..0]) == 0.0;
    }
  }

  /** In an admissible record the foreign CPU of each measured interval is at most the sum of
      its windows' check-A limits, and those windows cover the interval. */
  lemma MeasuredForeignBounded(r: Record, th: Thresholds, cpus: set<nat>, k: nat)
    requires Admissible(r, th, cpus) && k < |r.measurements|
    ensures var ws, interval := Covered(r.windows, k), r.measurements[k];
            && ws != [] && interval.end.Some?
            && SumForeign(ws) <= SumLimits(ws, th)
            && Abs(SumSeconds(ws) - (interval.end.value - interval.start)) <= (|ws| + 2) as real * TOLERANCE_S
  {
    var ws := Covered(r.windows, k);
    assert IntervalCovered(r.windows, r.measurements[k], k);
    forall w | w in ws ensures PassesA(w, th) && Close(w.end - w.start, w.seconds) {
      CoveredMembers(r.windows, k, w);
      var i :| 0 <= i < |r.windows| && r.windows[i] == w;
      assert WindowProblem(r.windows, i, th) == None;
    }
    SumsBound(ws, th);
    SecondsSpan(ws);
  }
}
