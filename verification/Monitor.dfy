/** The worker lifecycle hooks that produce a process's monitoring record.

    The hooks close one window per sample, from launch to exit, and judge it at once. `Tape` is
    the record as a value; `Clean` is what every hook call keeps while nothing was aborted, and
    it is what makes the finished record admissible to the independent validator. */
module Monitor {

  import opened Prelude
  import opened Evidence
  import ProcessTree

  datatype Sample = Sample(time: real, busy: real, cpu: map<nat, real>)

  datatype Result = Go | Contaminated | Broken

  // ----- Records as values

  datatype Tape = Tape(launched: real, now: real, windows: seq<Window>, measurements: seq<Interval>, measuring: Option<nat>)

  ghost predicate Tiled(t: Tape) {
    && (t.windows == [] ==> t.now == t.launched)
    && (t.windows != [] ==> t.windows[0].start == t.launched && t.windows[|t.windows| - 1].end == t.now)
    && Contiguous(t.windows)
  }

  ghost predicate Sound(w: Window, th: Thresholds) {
    && 0.0 < w.seconds <= th.windowS * 2.0 + 1.0 && w.seconds == w.end - w.start
    && w.busy >= 0.0 && w.workerCpu >= 0.0 && w.foreign == w.busy - w.workerCpu
    && (Decisive(w) ==> PassesA(w, th))
  }

  /** The open interval `k` is covered up to now. */
  ghost predicate CoveredSoFar(t: Tape, k: nat)
    requires k < |t.measurements|
  {
    var ws := Covered(t.windows, k);
    && Contiguous(ws) && t.measurements[k].start <= t.now
    && if ws == [] then t.now == t.measurements[k].start
       else ws[0].start == t.measurements[k].start && ws[|ws| - 1].end == t.now && t.measurements[k].start < t.now
  }

  ghost predicate Measured(t: Tape) {
    && (t.measuring.Some? ==> t.measuring.value + 1 == |t.measurements| && CoveredSoFar(t, t.measuring.value))
    && (forall k | 0 <= k < |t.measurements| :: t.measuring == Some(k) || IntervalCovered(t.windows, t.measurements[k], k))
    && (forall w | w in t.windows && w.measurement.Some? :: w.measurement.value < |t.measurements|)
  }

  ghost predicate Clean(t: Tape, th: Thresholds) {
    Tiled(t) && Measured(t) && forall w | w in t.windows :: Sound(w, th)
  }

  function Append(t: Tape, w: Window): Tape {
    t.(windows := t.windows + [w], now := w.end)
  }

  lemma AppendKeepsClean(t: Tape, w: Window, th: Thresholds)
    requires Clean(t, th) && Sound(w, th) && w.start == t.now && w.measurement == t.measuring
    ensures Clean(Append(t, w), th)
  {
    var t' := Append(t, w);
    forall k | 0 <= k < |t'.measurements|
      ensures t'.measuring == Some(k) || IntervalCovered(t'.windows, t'.measurements[k], k)
      ensures t'.measuring == Some(k) ==> CoveredSoFar(t', k)
    {
      CoveredSnoc(t.windows, w, k);
      assert t.measuring == Some(k) || IntervalCovered(t.windows, t.measurements[k], k);
    }
  }

  function Begin(t: Tape): Tape {
    t.(measuring := Some(|t.measurements|), measurements := t.measurements + [Interval(t.now, None)])
  }

  function Finish(t: Tape): Tape
    requires t.measuring.Some? && t.measuring.value < |t.measurements|
  {
    t.(measuring := None, measurements := t.measurements[t.measuring.value := t.measurements[t.measuring.value].(end := Some(t.now))])
  }

  lemma {:induction false} CoveredNone(windows: seq<Window>, k: nat)
    requires forall w | w in windows && w.measurement.Some? :: w.measurement.value < k
    ensures Covered(windows, k) == []
  {
    if windows != [] {
      assert windows[0] in windows;
      CoveredNone(windows[1..], k);
    }
  }

  lemma BeginKeepsClean(t: Tape, th: Thresholds)
    requires Clean(t, th) && t.measuring == None
    ensures Clean(Begin(t), th)
  {
    var t', k := Begin(t), |t.measurements|;
    CoveredNone(t.windows, k);
    forall j | 0 <= j < |t'.measurements| ensures t'.measuring == Some(j) || IntervalCovered(t'.windows, t'.measurements[j], j) {
      assert j < k ==> IntervalCovered(t.windows, t.measurements[j], j);
    }
  }

  /** The interval ends after a window was closed inside it, so it is covered and not empty. */
  lemma FinishKeepsClean(t: Tape, th: Thresholds)
    requires Clean(t, th) && t.measuring.Some? && Covered(t.windows, t.measuring.value) != []
    ensures Clean(Finish(t), th)
  {
    var t', k := Finish(t), t.measuring.value;
    assert IntervalCovered(t.windows, t'.measurements[k], k);
    forall j | 0 <= j < |t'.measurements| ensures IntervalCovered(t'.windows, t'.measurements[j], j) {
      assert j != k ==> IntervalCovered(t.windows, t.measurements[j], j);
    }
  }

  /** A clean tape with its final window, read back as a record, has nothing to complain about. */
  lemma CleanIsAdmissible(t: Tape, th: Thresholds, r: Record, cpus: set<nat>)
    requires Clean(t, th) && t.measuring == None && t.windows != []
    requires forall i | 0 <= i < |t.windows| :: t.windows[i].final <==> i == |t.windows| - 1
    requires r.windows == t.windows && r.measurements == t.measurements && r.launched == t.launched && r.exited == Some(t.now)
    requires r.returncode.Some? && !r.aborted && r.cpus == cpus
    ensures Admissible(r, th, cpus)
  {
    forall i | 0 <= i < |r.windows| ensures WindowProblem(r.windows, i, th) == None {
      assert Sound(r.windows[i], th) by { assert r.windows[i] in t.windows; }
      if i > 0 {
        assert t.windows[i - 1].end == t.windows[i - 1 + 1].start;
      }
    }
  }

  // ----- The hooks

  method SumReal(keys: set<nat>, f: map<nat, real>) returns (total: real)
    requires keys <= f.Keys
    ensures total == ProcessTree.Sum(keys, f)
  {
    total := 0.0;
    var left := keys;
    while left != {}
      invariant left <= keys && total + ProcessTree.Sum(left, f) == ProcessTree.Sum(keys, f)
    {
      var p :| p in left;
      ProcessTree.SumPick(left, f, p);
      total, left := total + f[p], left - {p};
    }
  }

  /** The worker's CPU between two samples, vanished descendants taken off and clamped at zero. */
  method SampleCpu(before: map<nat, real>, after: map<nat, real>, pid: nat) returns (cpu: real)
    ensures cpu == ProcessTree.WorkerCpu(before, after, pid)
  {
    var gains := map p | p in after :: after[p] - if p in before then before[p] else 0.0;
    var vanished := set p | p in before && p !in after && p != pid;
    assert gains == ProcessTree.Gains(before, after) && vanished == ProcessTree.Vanished(before, after, pid);
    var gained := SumReal(after.Keys, gains);
    var lost := SumReal(vanished, before);
    cpu := if gained - lost < 0.0 then 0.0 else gained - lost;
  }

  // ----- What two samples say

  function Reading(cpu: map<nat, real>, pid: nat): real {
    if pid in cpu then cpu[pid] else 0.0
  }

  /** Time passed, and neither the core's busy time nor the worker's own time went backwards. */
  predicate Advances(from: Sample, to: Sample, pid: nat) {
    from.time < to.time && from.busy <= to.busy && Reading(from.cpu, pid) <= Reading(to.cpu, pid)
  }

  /** What others used of the core between the two samples is within check A. */
  ghost predicate Quiet(from: Sample, to: Sample, pid: nat, th: Thresholds) {
    to.busy - from.busy - ProcessTree.WorkerCpu(from.cpu, to.cpu, pid) <= LimitA(to.time - from.time, th)
  }

  /** A window from one sample to a second one, inside a measured interval or not, is recorded
      and aborts nothing. */
  ghost predicate Passes(from: Sample, to: Option<Sample>, pid: nat, measured: bool, th: Thresholds) {
    to.Some? && Advances(from, to.value, pid) && (measured ==> Quiet(from, to.value, pid, th))
  }

  /** The same, but the window shows foreign activity inside a measured interval. */
  ghost predicate Fouls(from: Sample, to: Option<Sample>, pid: nat, measured: bool, th: Thresholds) {
    to.Some? && Advances(from, to.value, pid) && measured && !Quiet(from, to.value, pid, th)
  }

  class WorkerHooks {
    const th: Thresholds
    const pid: nat
    const cpus: set<nat>
    var record: Record
    var window: Sample
    var measuring: Option<nat>
    var final: Option<Window>
    var aborted: bool
    /** The last time a hook ran. */
    ghost var polled: real

    ghost function Taped(): Tape
      reads this
    {
      Tape(record.launched, window.time, record.windows, record.measurements, measuring)
    }

    /** Running, and clean so far. */
    ghost predicate Valid()
      reads this
    {
      && th.windowS > 0.0
      && record.cpus == cpus && record.exited == None && record.returncode == None
      && record.aborted == aborted == false && final == None
      && Clean(Taped(), th) && (forall w | w in record.windows :: !w.final)
      && window.time <= polled < window.time + th.windowS
    }

    /** Ended, clean up to the final window, which is not on record yet. */
    ghost predicate Ended()
      reads this
    {
      && record.cpus == cpus && record.aborted == aborted == false && measuring == None && (forall w | w in record.windows :: !w.final)
      && final.Some? && final.value.final && final.value.measurement == None && Sound(final.value, th)
      && Clean(Taped().(now := final.value.start), th) && final.value.end == window.time
    }

    /** Polls are at most `window_s + 1` apart on a clock that advances. */
    ghost predicate Timely(now: real)
      reads this
    {
      polled < now <= polled + th.windowS + 1.0
    }

    constructor Launched(th: Thresholds, pid: nat, cpus: set<nat>, sample: Sample)
      requires th.windowS > 0.0
      ensures Valid() && this.th == th && this.pid == pid && this.cpus == cpus && measuring == None && polled == sample.time
      ensures window == sample && record.launched == sample.time
    {
      this.th, this.pid, this.cpus := th, pid, cpus;
      record := Record(sample.time, None, None, false, cpus, [], []);
      window, measuring, final, aborted, polled := sample, None, None, false, sample.time;
    }

    /** One window from the last sample to this one, or `None` when its counters are invalid. */
    method Close(end: Sample, last: bool) returns (w: Option<Window>)
      modifies this`window
      ensures w.Some? ==> window == end && w.value.start == old(window).time && w.value.end == end.time
      ensures w.Some? ==> w.value.seconds == end.time - old(window).time > 0.0 && w.value.busy == end.busy - old(window).busy >= 0.0
      ensures w.Some? ==> w.value.workerCpu == ProcessTree.WorkerCpu(old(window).cpu, end.cpu, pid)
      ensures w.Some? ==> w.value.foreign == w.value.busy - w.value.workerCpu && w.value.final == last && w.value.measurement == measuring
      ensures w.None? ==> window == old(window)
      ensures w.None? <==> !Advances(old(window), end, pid)
    {
      var start := window;
      var seconds, busy := end.time - start.time, end.busy - start.busy;
      var cpu := SampleCpu(start.cpu, end.cpu, pid);
      if seconds <= 0.0 || busy < 0.0 || Reading(end.cpu, pid) < Reading(start.cpu, pid) { return None; }
      window := end;
      w := Some(Window(start.time, end.time, seconds, busy, cpu, busy - cpu, last, measuring));
    }

    /** Records the window; the first decisive one that fails check A aborts. */
    method Judge(w: Window) returns (result: Result)
      modifies this`record, this`aborted
      ensures record == old(record).(windows := old(record).windows + [w], aborted := record.aborted)
      ensures if Decisive(w) && !PassesA(w, th) then result == Contaminated && aborted && record.aborted
              else result == Go && aborted == old(aborted) && record.aborted == old(record).aborted
    {
      record := record.(windows := record.windows + [w]);
      if PassesA(w, th) || !Decisive(w) { return Go; }
      aborted, record := true, record.(aborted := true);
      result := Contaminated;
    }

    /** A poll: closes a window once `window_s` has passed since the last one. */
    method Progress(now: real, reading: Option<Sample>) returns (result: Result)
      requires Valid() && Timely(now) && (reading.Some? ==> reading.value.time == now)
      modifies this
      ensures result == Go ==> Valid() && polled == now && measuring == old(measuring)
      ensures result == Contaminated ==> record.aborted
      ensures result == Broken ==> record.exited == None
      ensures record.launched == old(record.launched) && record.cpus == old(record.cpus)
      ensures var due := now - old(window).time >= th.windowS;
              && (result == Go <==> (due ==> Passes(old(window), reading, pid, old(measuring).Some?, th)))
              && (result == Contaminated <==> due && Fouls(old(window), reading, pid, old(measuring).Some?, th))
              && (result == Go ==> window == if due then reading.value else old(window))
    {
      polled := now;
      if now - window.time < th.windowS { return Go; }
      result := Split(reading);
    }

    /** Closes and judges a window that is not the last. */
    method Split(reading: Option<Sample>) returns (result: Result)
      requires th.windowS > 0.0 && Clean(Taped(), th) && record.cpus == cpus && record.exited == None && record.returncode == None
      requires record.aborted == aborted == false && final == None && (forall w | w in record.windows :: !w.final)
      requires window.time < polled < window.time + 2.0 * th.windowS + 1.0
      requires reading.Some? ==> reading.value.time == polled
      modifies this`window, this`record, this`aborted
      ensures result == Go ==> Valid() && record.measurements == old(record.measurements) && window.time == polled
                               && (measuring.Some? ==> Covered(record.windows, measuring.value) != [])
      ensures result == Contaminated ==> record.aborted
      ensures result == Broken ==> record.exited == None
      ensures record.launched == old(record.launched) && record.cpus == old(record.cpus)
      ensures result == Go <==> Passes(old(window), reading, pid, measuring.Some?, th)
      ensures result == Contaminated <==> Fouls(old(window), reading, pid, measuring.Some?, th)
      ensures result == Go ==> window == reading.value
    {
      if reading.None? { return Broken; }
      ghost var t := Taped();
      var w := Close(reading.value, false);
      if w.None? { return Broken; }
      result := Judge(w.value);
      if result == Go {
        AppendKeepsClean(t, w.value, th);
        if measuring.Some? { CoveredSnoc(t.windows, w.value, measuring.value); }
      }
    }

    /** An acknowledged boundary: `B` opens the next measured interval, `E` closes it. */
    method Boundary(begin: bool, reading: Option<Sample>) returns (result: Result)
      requires Valid() && (reading.Some? ==> Timely(reading.value.time))
      modifies this
      ensures result == Go ==> Valid() && reading.Some? && polled == reading.value.time && begin == old(measuring).None? == measuring.Some?
      ensures result == Contaminated ==> record.aborted
      ensures result == Broken ==> record.exited == None
      ensures record.launched == old(record.launched) && record.cpus == old(record.cpus)
      ensures var fits, measured := begin == old(measuring).None?, old(measuring).Some?;
              && (result == Go <==> fits && Passes(old(window), reading, pid, measured, th))
              && (result == Contaminated <==> fits && Fouls(old(window), reading, pid, measured, th))
      ensures result == Go ==> window == reading.value
      ensures result == Go && begin ==>
                && measuring == Some(|old(record.measurements)|)
                && record.measurements == old(record.measurements) + [Interval(reading.value.time, None)]
      ensures result == Go && !begin ==>
                && old(measuring).value < |old(record.measurements)|
                && record.measurements == old(record.measurements)[old(measuring).value :=
                     old(record.measurements)[old(measuring).value].(end := Some(reading.value.time))]
    {
      if begin != measuring.None? || reading.None? { return Broken; }
      polled := reading.value.time;
      result := Go;
      if reading.value.time > window.time { result := Split(reading); }
      if result != Go { return; }
      if begin {
        BeginKeepsClean(Taped(), th);
        measuring := Some(|record.measurements|);
        record := record.(measurements := record.measurements + [Interval(window.time, None)]);
      } else {
        FinishKeepsClean(Taped(), th);
        var k := measuring.value;
        record := record.(measurements := record.measurements[k := record.measurements[k].(end := Some(window.time))]);
        measuring := None;
      }
    }

    /** The process has ended and can still be read: the final window. */
    method Exited(reading: Option<Sample>) returns (result: Result)
      requires Valid() && measuring == None && (reading.Some? ==> Timely(reading.value.time))
      modifies this
      ensures record == old(record) && result != Contaminated
      ensures result == Go ==> Ended() && reading.Some? && final.value.end == reading.value.time
      ensures result == Go <==> reading.Some? && Advances(old(window), reading.value, pid)
    {
      if reading.None? { return Broken; }
      polled := reading.value.time;
      final := Close(reading.value, true);
      result := if final.None? then Broken else Go;
    }

    /** The process is gone: the record is complete. */
    method Reaped(returncode: int) returns (result: Result)
      requires Ended()
      modifies this
      ensures result == Go && Admissible(record, th, cpus)
      ensures record.launched == old(record.launched) && record.returncode == Some(returncode)
      ensures record.exited == Some(old(final).value.end)
    {
      ghost var before := Taped().(now := final.value.start);
      var last := final.value;
      record := record.(exited := Some(last.end), returncode := Some(returncode));
      result := Judge(last);
      AppendKeepsClean(before, last, th);
      CleanIsAdmissible(Append(before, last), th, record, cpus);
    }
  }

  // ----- Whole runs

  /** One turn of the worker's polling loop: the poll, and perhaps a boundary event. */
  datatype Turn = Turn(now: real, reading: Option<Sample>, begin: Option<bool>, boundary: Option<Sample>)

  /** The poll clock after a turn. */
  function After(turn: Turn): real {
    if turn.begin.Some? && turn.boundary.Some? then turn.boundary.value.time else turn.now
  }

  predicate TimelyTurn(turn: Turn, last: real, gap: real) {
    && last < turn.now <= last + gap
    && (turn.reading.Some? ==> turn.reading.value.time == turn.now)
    && (turn.begin.Some? && turn.boundary.Some? ==> turn.now < turn.boundary.value.time <= turn.now + gap)
  }

  /** The clock advances strictly, and no two polls from `last` on are more than `gap` apart. */
  predicate Timely(turns: seq<Turn>, exit: Option<Sample>, last: real, gap: real) {
    if turns == [] then exit.Some? ==> last < exit.value.time <= last + gap
    else TimelyTurn(turns[0], last, gap) && Timely(turns[1..], exit, After(turns[0]), gap)
  }

  /** The worker's boundary events alternate and leave no interval open. */
  predicate Alternating(turns: seq<Turn>, open: bool) {
    if turns == [] then !open
    else if turns[0].begin.None? then Alternating(turns[1..], open)
    else turns[0].begin.value != open && Alternating(turns[1..], !open)
  }

  /** Every sample that a window needs is there and advances, and no window inside a measured
      interval shows foreign activity: from the sample `window`, with an interval open or not. */
  ghost predicate Undisturbed(turns: seq<Turn>, exit: Option<Sample>, window: Sample, open: bool, pid: nat, th: Thresholds) {
    if turns == [] then exit.Some? && Advances(window, exit.value, pid)
    else
      var turn := turns[0];
      var due := turn.now - window.time >= th.windowS;
      && (due ==> Passes(window, turn.reading, pid, open, th))
      && var polled := if due then turn.reading.value else window;
         if turn.begin.None? then Undisturbed(turns[1..], exit, polled, open, pid, th)
         else
           && Passes(polled, turn.boundary, pid, open, th)
           && Undisturbed(turns[1..], exit, turn.boundary.value, !open, pid, th)
  }

  /** A run of one worker process under its hooks, with timely polls and alternating boundaries.
      The validator finds no problem exactly when the record is admissible, and that is exactly
      when the run was undisturbed; then the record is of this process, from launch to exit. */
  method RunProcess(th: Thresholds, pid: nat, cpus: set<nat>, start: Sample, turns: seq<Turn>, exit: Option<Sample>, returncode: int)
    returns (result: Result, record: Record, found: seq<Problem>)
    requires th.windowS > 0.0
    requires Timely(turns, exit, start.time, th.windowS + 1.0) && Alternating(turns, false)
    ensures found == [] <==> Admissible(record, th, cpus)
    ensures Admissible(record, th, cpus) <==> Undisturbed(turns, exit, start, false, pid, th)
    ensures result == Go <==> Undisturbed(turns, exit, start, false, pid, th)
    ensures record.launched == start.time && record.cpus == cpus
    ensures result == Go ==> exit.Some? && record.exited == Some(exit.value.time) && record.returncode == Some(returncode)
  {
    var hooks := new WorkerHooks.Launched(th, pid, cpus, start);
    ghost var last := start.time;
    assert turns[0..] == turns;
    for i := 0 to |turns|
      invariant hooks.Valid() && hooks.polled == last && hooks.th == th && hooks.cpus == cpus && hooks.pid == pid
      invariant hooks.record.launched == start.time
      invariant Timely(turns[i..], exit, last, th.windowS + 1.0) && Alternating(turns[i..], hooks.measuring.Some?)
      invariant Undisturbed(turns, exit, start, false, pid, th)
           <==> Undisturbed(turns[i..], exit, hooks.window, hooks.measuring.Some?, pid, th)
    {
      ghost var rest := turns[i..];
      assert rest[0] == turns[i] && rest[1..] == turns[i + 1..];
      var turn := turns[i];
      result := hooks.Progress(turn.now, turn.reading);
      if result == Go && turn.begin.Some? {
        result := hooks.Boundary(turn.begin.value, turn.boundary);
      }
      if result != Go {
        found := RecordProblems(hooks.record, th, cpus);
        return result, hooks.record, found;
      }
      last := After(turn);
    }
    assert turns[|turns|..] == [];
    result := hooks.Exited(exit);
    if result == Go { result := hooks.Reaped(returncode); }
    record := hooks.record;
    found := RecordProblems(record, th, cpus);
  }
}
