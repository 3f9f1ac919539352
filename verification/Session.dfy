/** One session directory under concurrent stages, decide, clean and kills.

    Every stage writes under the shared lifecycle lock and its own exclusive lock; clean takes
    the lifecycle lock exclusively. A kill releases a process's locks and leaves the files. */
module Session {

  import opened Prelude

  datatype Status = Running | Complete | Failed | Noisy | Skipped

  /** `tag` stands for the rest of the state file: times, host, invocation, inputs. */
  datatype State = State(status: Status, attempts: nat, tag: nat)

  /** An evidence row, and whether it is the stage's own crash record. */
  datatype Row = Row(id: string, crash: bool)

  const STAGES: nat := 5

  predicate Final(s: Option<State>) {
    s.Some? && s.value.status in {Complete, Skipped}
  }

  predicate Unfinished(s: Option<State>) {
    s.Some? && s.value.status in {Running, Noisy}
  }

  function Attempts(s: Option<State>): nat {
    if s.Some? then s.value.attempts else 0
  }

  datatype CleanFile = CleanFile(complete: bool, hashes: seq<Option<State>>, planned: set<nat>)

  /** A stage process: locks held, past its first checks, or running its body. */
  datatype Runner = Off | Locked | Ready | Body

  datatype World = World(
    states: seq<Option<State>>, evidence: seq<seq<Row>>, clean: Option<CleanFile>, decision: Option<seq<Option<State>>>,
    files: set<nat>, runners: seq<Runner>, cleaning: bool)

  datatype Event =
    | Lock(stage: nat) | Check(stage: nat) | Leave(stage: nat)
    | Skip(stage: nat, tag: nat) | Start(stage: nat, tag: nat)
    | Evidence(stage: nat, rows: seq<Row>) | Create(stage: nat, file: nat)
    | End(stage: nat, status: Status, tag: nat)
    | Decided(hashes: seq<Option<State>>)
    | CleanLock | CleanPlan(planned: set<nat>) | CleanDelete(some: set<nat>) | CleanEnd | CleanLeave

  function Put(w: World, stage: nat, s: State): World
    requires stage < |w.states|
  {
    w.(states := w.states[stage := Some(s)])
  }

  function Move(w: World, stage: nat, r: Runner): World
    requires stage < |w.runners|
  {
    w.(runners := w.runners[stage := r])
  }

  predicate Shaped(w: World) {
    |w.states| == STAGES && |w.evidence| == STAGES && |w.runners| == STAGES
  }

  predicate At(w: World, stage: nat, r: Runner)
    requires Shaped(w)
  {
    stage < STAGES && w.runners[stage] == r
  }

  predicate AllOff(w: World)
    requires Shaped(w)
  {
    forall s | 0 <= s < STAGES :: w.runners[s] == Off
  }

  predicate NoneUnfinished(w: World)
    requires Shaped(w)
  {
    forall s | 0 <= s < STAGES :: !Unfinished(w.states[s])
  }

  /** One step, or `None` when it cannot happen. */
  function Step(w: World, ev: Event): Option<World>
    requires Shaped(w)
  {
    match ev
    case Lock(s) => if At(w, s, Off) && !w.cleaning then Some(Move(w, s, Locked)) else None
    // A cleaned session and a finished stage are left alone.
    case Check(s) => if At(w, s, Locked) && w.clean.None? && !Final(w.states[s]) then Some(Move(w, s, Ready)) else None
    // A refused precondition, the end of the process, or a kill at any point.
    case Leave(s) => if s < STAGES then Some(Move(w, s, Off)) else None
    case Skip(s, tag) =>
      if At(w, s, Ready) then Some(Move(Put(w, s, State(Skipped, Attempts(w.states[s]), tag)), s, Off)) else None
    case Start(s, tag) =>
      if At(w, s, Ready) then Some(Move(Put(w, s, State(Running, Attempts(w.states[s]) + 1, tag)), s, Body)) else None
    case Evidence(s, rows) => if At(w, s, Body) then Some(w.(evidence := w.evidence[s := rows])) else None
    case Create(s, file) => if At(w, s, Body) then Some(w.(files := w.files + {file})) else None
    case End(s, status, tag) =>
      if At(w, s, Body) && status in {Complete, Failed, Noisy} then Some(Move(Put(w, s, State(status, Attempts(w.states[s]), tag)), s, Off)) else None
    case Decided(hashes) => if !w.cleaning && |hashes| == STAGES then Some(w.(decision := Some(hashes))) else None
    case CleanLock => if !w.cleaning && AllOff(w) then Some(w.(cleaning := true)) else None
    case CleanPlan(planned) =>
      if w.cleaning && w.clean.None? && NoneUnfinished(w) && w.decision == Some(w.states) && planned <= w.files
      then Some(w.(clean := Some(CleanFile(false, w.states, planned)))) else None
    case CleanDelete(some) =>
      if w.cleaning && w.clean.Some? && !w.clean.value.complete && some <= w.clean.value.planned then Some(w.(files := w.files - some)) else None
    case CleanEnd =>
      if w.cleaning && w.clean.Some? && !w.clean.value.complete && w.clean.value.planned !! w.files
      then Some(w.(clean := Some(w.clean.value.(complete := true)))) else None
    case CleanLeave => Some(w.(cleaning := false))
  }

  const START: World :=
    World([None, None, None, None, None], [[], [], [], [], []], None, None, {}, [Off, Off, Off, Off, Off], false)

  /** A run, as the list of the worlds it goes through. */
  ghost predicate Run(ws: seq<World>, evs: seq<Event>) {
    && |ws| == |evs| + 1
    && (forall i | 0 <= i < |ws| :: Shaped(ws[i]))
    && forall i | 0 <= i < |evs| :: Step(ws[i], evs[i]) == Some(ws[i + 1])
  }

  ghost predicate FullRun(ws: seq<World>, evs: seq<Event>) {
    Run(ws, evs) && ws[0] == START
  }

  // ----- What every step keeps

  ghost predicate Inv(w: World) {
    && Shaped(w)
    // The exclusive lifecycle lock excludes every stage process.
    && (w.cleaning ==> AllOff(w))
    // A stage process that may still write holds a session without clean.json, and its own
    // state is what it read or wrote.
    && (forall s | 0 <= s < STAGES && w.runners[s] in {Ready, Body} :: w.clean.None? && !Final(w.states[s]))
    && (forall s | 0 <= s < STAGES && w.runners[s] == Body :: w.states[s].Some? && w.states[s].value.status == Running)
    // What clean froze.
    && (w.clean.Some? ==> w.clean.value.hashes == w.states && (w.clean.value.complete ==> w.clean.value.planned !! w.files))
  }

  lemma StepKeepsInv(w: World, ev: Event)
    requires Inv(w) && Step(w, ev).Some?
    ensures Inv(Step(w, ev).value)
  {
    var w' := Step(w, ev).value;
    if ev.Create? { assert w.runners[ev.stage] in {Ready, Body}; }
  }

  lemma {:induction false} RunKeepsInv(ws: seq<World>, evs: seq<Event>, i: nat)
    requires FullRun(ws, evs) && i < |ws|
    ensures Inv(ws[i])
    decreases i
  {
    if i > 0 {
      RunKeepsInv(ws, evs, i - 1);
      assert Step(ws[i - 1], evs[i - 1]) == Some(ws[i - 1 + 1]);
      StepKeepsInv(ws[i - 1], evs[i - 1]);
    }
  }

  // ----- State files never return to an earlier content

  function Rank(s: Option<State>): nat {
    if s.None? then 0
    else match s.value.status
      case Running => 3 * s.value.attempts
      case Skipped => 3 * s.value.attempts + 2
      case _ => 3 * s.value.attempts + 1
  }

  /** A stage's state is written only to a later one and never once it is final or a cleaning
      was planned, its evidence only while the state on disk is running, and a planned cleaning
      keeps its plan and removes nothing else. */
  ghost predicate Wrote(w: World, w': World, s: nat)
    requires s < |w.states| == |w'.states| == |w.evidence| == |w'.evidence|
  {
    && (w'.states[s] == w.states[s] || (Rank(w'.states[s]) > Rank(w.states[s]) && !Final(w.states[s]) && w.clean.None?))
    && (w'.evidence[s] == w.evidence[s]
        || (w'.states[s] == w.states[s] && w.states[s].Some? && w.states[s].value.status == Running))
    && KeptPlan(w, w')
  }

  ghost predicate KeptPlan(w: World, w': World) {
    w.clean.Some? ==>
      && w'.clean.Some?
      && w'.clean.value.hashes == w.clean.value.hashes
      && w'.clean.value.planned == w.clean.value.planned
      && w.files - w.clean.value.planned <= w'.files <= w.files
  }

  /** `Wrote` over any number of steps. */
  ghost predicate Grew(w: World, w': World, s: nat)
    requires s < |w.states| == |w'.states| == |w.evidence| == |w'.evidence|
  {
    && Rank(w.states[s]) <= Rank(w'.states[s])
    && (Rank(w.states[s]) == Rank(w'.states[s]) ==> w.states[s] == w'.states[s])
    && (Rank(w.states[s]) == Rank(w'.states[s]) && !(w.states[s].Some? && w.states[s].value.status == Running) ==>
          w.evidence[s] == w'.evidence[s])
    && (Final(w.states[s]) ==> w'.states[s] == w.states[s])
    && (w.clean.Some? ==> w'.states[s] == w.states[s])
    && KeptPlan(w, w')
  }

  lemma StepWrites(w: World, ev: Event, s: nat)
    requires Inv(w) && Step(w, ev).Some? && s < STAGES
    ensures |w.states| == |w.evidence| == STAGES
    ensures var w' := Step(w, ev).value; |w'.states| == |w'.evidence| == STAGES && Wrote(w, w', s)
  {
  }

  lemma GrewStep(a: World, b: World, c: World, s: nat)
    requires s < |a.states| == |b.states| == |c.states| == |a.evidence| == |b.evidence| == |c.evidence|
    requires Grew(a, b, s) && Wrote(b, c, s)
    ensures Grew(a, c, s)
  {
  }

  lemma {:induction false} RunsGrow(ws: seq<World>, evs: seq<Event>, i: nat, j: nat, s: nat)
    requires FullRun(ws, evs) && i <= j < |ws| && s < STAGES
    ensures |ws[i].states| == |ws[j].states| == |ws[i].evidence| == |ws[j].evidence| == STAGES
    ensures Grew(ws[i], ws[j], s)
    decreases j - i
  {
    if i == j {
      RunKeepsInv(ws, evs, i);
    } else {
      RunsGrow(ws, evs, i, j - 1, s);
      RunKeepsInv(ws, evs, j - 1);
      assert Step(ws[j - 1], evs[j - 1]) == Some(ws[j - 1 + 1]);
      StepWrites(ws[j - 1], evs[j - 1], s);
      GrewStep(ws[i], ws[j - 1], ws[j], s);
    }
  }

  // ----- The session's lifecycle

  /** Over every interleaving of stages, decide, clean and kills: a complete or skipped state
      never changes again; once `clean.json` exists no state changes; and the frozen states are
      those that the decision which allowed cleaning hashed. */
  lemma Lifecycle(ws: seq<World>, evs: seq<Event>, i: nat, j: nat, s: nat)
    requires FullRun(ws, evs) && i <= j < |ws| && s < STAGES
    ensures Final(ws[i].states[s]) ==> ws[j].states[s] == ws[i].states[s]
    ensures ws[i].clean.Some? ==> ws[j].states[s] == ws[i].states[s]
    ensures i < j && ws[i].clean.None? && ws[i + 1].clean.Some? ==>
              ws[i].decision == Some(ws[j].states) && ws[j].clean.Some? && ws[j].clean.value.hashes == ws[j].states
    ensures i < j && ws[i].clean.None? && ws[i + 1].clean.Some? ==>
              forall t | 0 <= t < STAGES :: ws[j].states[t].None? || ws[j].states[t].value.status !in {Running, Noisy}
  {
    RunsGrow(ws, evs, i, j, s);
    if i < j && ws[i].clean.None? && ws[i + 1].clean.Some? {
      assert Step(ws[i], evs[i]) == Some(ws[i + 1]);
      RunsGrow(ws, evs, i + 1, j, 0);
      RunKeepsInv(ws, evs, j);
      forall t | 0 <= t < STAGES
        ensures ws[j].states[t].None? || ws[j].states[t].value.status !in {Running, Noisy}
      {
        assert evs[i].CleanPlan? && NoneUnfinished(ws[i]);
        assert ws[j].states == ws[i].states && !Unfinished(ws[i].states[t]);
      }
    }
  }

  /** What one step does to a stage: a start counts one attempt more, and any other write keeps the
      count; both need the stage's own locks, so no cleaning is under way. */
  ghost predicate StageMoved(w: World, w': World, s: nat)
    requires s < |w.states| == |w'.states| == |w.runners| == |w'.runners|
  {
    w'.states[s] != w.states[s] ==>
      var attempts := if w.states[s].Some? then w.states[s].value.attempts else 0;
      && !w.cleaning && w'.states[s].Some?
      && w'.states[s].value.attempts == (if w'.states[s].value.status == Running then attempts + 1 else attempts)
      && w.runners[s] == (if w'.states[s].value.status in {Running, Skipped} then Ready else Body)
      && w'.runners[s] == (if w'.states[s].value.status == Running then Body else Off)
  }

  lemma StepMoves(w: World, ev: Event, s: nat)
    requires Inv(w) && Step(w, ev).Some? && s < STAGES
    ensures var w' := Step(w, ev).value; |w'.states| == |w'.runners| == STAGES && StageMoved(w, w', s)
  {
  }

  /** Files appear only while some stage runs and are removed only by a cleaning that planned them;
      a decision is taken only while nothing is cleaned, and a cleaning begins when no stage is. */
  lemma StepFiles(w: World, ev: Event)
    requires Inv(w) && Step(w, ev).Some?
    ensures var w' := Step(w, ev).value;
            && (w.files != w'.files ==>
                  if w.cleaning then w.clean.Some? && w'.files < w.files && w.files - w'.files <= w.clean.value.planned
                  else w.files < w'.files && exists s | 0 <= s < STAGES :: w.runners[s] == Body)
            && (w'.decision != w.decision ==> !w.cleaning && w'.decision.Some? && |w'.decision.value| == STAGES)
            && (w'.cleaning && !w.cleaning ==> forall s | 0 <= s < STAGES :: w.runners[s] == Off)
  {
  }

  ghost predicate Reaches(w: World, evs: seq<Event>, w': World)
    decreases |evs|
  {
    if evs == [] then w == w'
    else Shaped(w) && Step(w, evs[0]).Some? && Reaches(Step(w, evs[0]).value, evs[1..], w')
  }

  lemma ReachesFrom(w: World, ev: Event, w': World, evs: seq<Event>, done: World)
    requires Shaped(w) && Step(w, ev) == Some(w') && Reaches(w', evs, done)
    ensures Reaches(w, [ev] + evs, done)
  {
    assert ([ev] + evs)[1..] == evs;
  }

  /** A decided session with one file is cleaned: the file is planned for removal and removed. */
  lemma CleanedExample(decided: World) returns (evs: seq<Event>, done: World)
    requires Shaped(decided) && AllOff(decided) && NoneUnfinished(decided) && !decided.cleaning && decided.clean.None?
    requires decided.decision == Some(decided.states) && decided.files == {7}
    ensures Reaches(decided, evs, done)
    ensures done.clean.Some? && done.clean.value.complete && done.clean.value.planned == {7}
    ensures done.states == decided.states && done.files == {}
  {
    var cleaning := decided.(cleaning := true);
    var planned := cleaning.(clean := Some(CleanFile(false, decided.states, {7})));
    var deleted := planned.(files := {7} - {7});
    done := deleted.(clean := Some(CleanFile(true, decided.states, {7})));
    assert {7} - {7} == {};
    evs := [];
    assert Reaches(done, evs, done);
    ReachesFrom(deleted, CleanEnd, done, evs, done);
    evs := [CleanEnd] + evs;
    ReachesFrom(planned, CleanDelete({7}), deleted, evs, done);
    evs := [CleanDelete({7})] + evs;
    ReachesFrom(cleaning, CleanPlan({7}), planned, evs, done);
    evs := [CleanPlan({7})] + evs;
    ReachesFrom(decided, CleanLock, cleaning, evs, done);
    evs := [CleanLock] + evs;
  }

  /** The first stage of a new session runs, leaves a file and completes. */
  lemma StageExample(later: seq<Event>, ended: World, done: World) returns (evs: seq<Event>)
    requires Reaches(ended, later, done)
    requires ended == START.(states := START.states[0 := Some(State(Complete, 1, 2))], files := {7})
    ensures Reaches(START, evs, done)
  {
    var locked := Move(START, 0, Locked);
    var ready := Move(locked, 0, Ready);
    var body := Move(Put(ready, 0, State(Running, 1, 1)), 0, Body);
    var created := body.(files := {} + {7});
    assert Move(Put(created, 0, State(Complete, 1, 2)), 0, Off) == ended by {
      assert created.states[0 := Some(State(Complete, 1, 2))] == ended.states;
      assert created.runners[0 := Off] == START.runners;
    }
    ReachesFrom(created, End(0, Complete, 2), ended, later, done);
    evs := [End(0, Complete, 2)] + later;
    ReachesFrom(body, Create(0, 7), created, evs, done);
    evs := [Create(0, 7)] + evs;
    ReachesFrom(ready, Start(0, 1), body, evs, done);
    evs := [Start(0, 1)] + evs;
    ReachesFrom(locked, Check(0), ready, evs, done);
    evs := [Check(0)] + evs;
    ReachesFrom(START, Lock(0), locked, evs, done);
    evs := [Lock(0)] + evs;
  }

  /** A session can be run, decided and cleaned from its beginning. */
  lemma FinishedExample() returns (evs: seq<Event>, done: World)
    ensures Reaches(START, evs, done)
    ensures done.clean.Some? && done.clean.value.complete && done.clean.value.planned == {7} && done.files == {}
    ensures done.states == START.states[0 := Some(State(Complete, 1, 2))]
  {
    var ended := START.(states := START.states[0 := Some(State(Complete, 1, 2))], files := {7});
    var decided := ended.(decision := Some(ended.states));
    var later;
    later, done := CleanedExample(decided);
    ReachesFrom(ended, Decided(ended.states), decided, later, done);
    evs := StageExample([Decided(ended.states)] + later, ended, done);
  }

  /** A cleaning that was planned at `i` and is complete at `j`, killed and rerun any number of
      times in between, has removed exactly the planned files that were there. */
  lemma CleanRemovesThePlan(ws: seq<World>, evs: seq<Event>, i: nat, j: nat)
    requires FullRun(ws, evs) && i <= j < |ws| && ws[i].clean.Some? && ws[j].clean.Some? && ws[j].clean.value.complete
    ensures ws[j].files == ws[i].files - ws[i].clean.value.planned
  {
    RunsGrow(ws, evs, i, j, 0);
    RunKeepsInv(ws, evs, j);
  }

  // ----- decide's snapshot

  /** What a stage contributes to a decision: all its evidence when it is complete, its crash
      record when it failed, nothing otherwise. */
  function Committed(s: Option<State>, rows: seq<Row>): seq<Row> {
    if s.None? || s.value.status !in {Complete, Failed} then []
    else if s.value.status == Complete then rows
    else Crashes(rows)
  }

  function Crashes(rows: seq<Row>): seq<Row> {
    if rows == [] then [] else (if rows[0].crash then [rows[0]] else []) + Crashes(rows[1..])
  }

  /** How many steps pass before and during the first `n` reads of files. */
  function Elapsed(pace: nat -> nat, n: nat): nat {
    if n == 0 then 0 else Elapsed(pace, n - 1) + pace(n - 1)
  }

  /** Reads of the five state files, one after another, while the session moves on. The list is
      cut short when the observed run ends before the reading does. */
  method ReadStates(ws: seq<World>, start: nat, pace: nat -> nat, before: nat, ghost evs: seq<Event>)
    returns (states: seq<Option<State>>, now: nat, count: nat, ghost times: seq<nat>)
    requires FullRun(ws, evs) && start < |ws|
    ensures start <= now < |ws| && |times| == |states| <= STAGES
    ensures forall s | 0 <= s < |states| :: start <= times[s] <= now && states[s] == ws[times[s]].states[s]
    ensures now == start + Elapsed(pace, count) - Elapsed(pace, before)
    ensures |states| < STAGES ==> now + pace(count) >= |ws|
  {
    states, now, count, times := [], start, before, [];
    while |states| < STAGES
      invariant start <= now < |ws| && |times| == |states| <= STAGES
      invariant forall s | 0 <= s < |states| :: start <= times[s] <= now && states[s] == ws[times[s]].states[s]
      invariant now == start + Elapsed(pace, count) - Elapsed(pace, before)
    {
      if now + pace(count) >= |ws| { return; }
      now, count := now + pace(count), count + 1;
      assert Shaped(ws[now]);
      states, times := states + [ws[now].states[|states|]], times + [now];
    }
  }

  method ReadEvidence(ws: seq<World>, start: nat, pace: nat -> nat, before: nat, states: seq<Option<State>>, ghost evs: seq<Event>)
    returns (evidence: seq<seq<Row>>, now: nat, count: nat, ghost times: seq<nat>)
    requires FullRun(ws, evs) && start < |ws| && |states| == STAGES
    ensures start <= now < |ws| && |times| == |evidence| <= STAGES
    ensures forall s | 0 <= s < |evidence| :: start <= times[s] <= now && evidence[s] == Committed(states[s], ws[times[s]].evidence[s])
    ensures now == start + Elapsed(pace, count) - Elapsed(pace, before)
    ensures |evidence| < STAGES ==> now + pace(count) >= |ws|
  {
    evidence, now, count, times := [], start, before, [];
    while |evidence| < STAGES
      invariant start <= now < |ws| && |times| == |evidence| <= STAGES
      invariant forall s | 0 <= s < |evidence| :: start <= times[s] <= now && evidence[s] == Committed(states[s], ws[times[s]].evidence[s])
      invariant now == start + Elapsed(pace, count) - Elapsed(pace, before)
    {
      if now + pace(count) >= |ws| { return; }
      now, count := now + pace(count), count + 1;
      assert Shaped(ws[now]);
      evidence, times := evidence + [Committed(states[|evidence|], ws[now].evidence[|evidence|])], times + [now];
    }
  }

  /** `shown` is the crash records among the rows, all of them, in order. */
  ghost predicate OnlyCrashes(rows: seq<Row>, shown: seq<Row>, at: seq<nat>) {
    && |at| == |shown|
    && (forall k | 0 <= k < |at| :: at[k] < |rows| && rows[at[k]].crash && shown[k] == rows[at[k]])
    && (forall k, l | 0 <= k < l < |at| :: at[k] < at[l])
    && (forall i | 0 <= i < |rows| && rows[i].crash :: i in at)
  }

  /** A complete stage shows all its evidence, a failed one its crash records, any other nothing. */
  ghost predicate Shows(state: Option<State>, rows: seq<Row>, shown: seq<Row>) {
    && (state.Some? && state.value.status == Complete ==> shown == rows)
    && (state.Some? && state.value.status == Failed ==> exists at :: OnlyCrashes(rows, shown, at))
    && (state.None? || state.value.status in {Running, Noisy, Skipped} ==> shown == [])
  }

  lemma {:induction false} CrashesSnoc(rows: seq<Row>, row: Row)
    ensures Crashes(rows + [row]) == Crashes(rows) + if row.crash then [row] else []
  {
    if rows == [] {
      assert rows + [row] == [row];
    } else {
      assert (rows + [row])[0] == rows[0] && (rows + [row])[1..] == rows[1..] + [row];
      CrashesSnoc(rows[1..], row);
      var own, last := if rows[0].crash then [rows[0]] else [], if row.crash then [row] else [];
      assert own + (Crashes(rows[1..]) + last) == own + Crashes(rows[1..]) + last;
    }
  }

  lemma OnlySnoc(rows: seq<Row>, row: Row, shown: seq<Row>, at: seq<nat>)
    requires OnlyCrashes(rows, shown, at)
    ensures row.crash ==> OnlyCrashes(rows + [row], shown + [row], at + [|rows|])
    ensures !row.crash ==> OnlyCrashes(rows + [row], shown, at)
  {
    var more := rows + [row];
    forall i | 0 <= i < |more| && more[i].crash
      ensures i in at || i == |rows|
    {
      if i < |rows| { assert rows[i].crash; }
    }
  }

  lemma {:induction false} CrashesOnly(rows: seq<Row>) returns (at: seq<nat>)
    ensures OnlyCrashes(rows, Crashes(rows), at)
  {
    if rows == [] {
      at := [];
    } else {
      var n := |rows| - 1;
      var before := CrashesOnly(rows[..n]);
      OnlySnoc(rows[..n], rows[n], Crashes(rows[..n]), before);
      CrashesSnoc(rows[..n], rows[n]);
      assert rows == rows[..n] + [rows[n]];
      at := before + if rows[n].crash then [n] else [];
    }
  }

  lemma CommittedShows(state: Option<State>, rows: seq<Row>)
    ensures Shows(state, rows, Committed(state, rows))
  {
    var at := CrashesOnly(rows);
  }

  /** The states of the session at one instant, and the evidence that they show. */
  ghost predicate IsView(w: World, states: seq<Option<State>>, evidence: seq<seq<Row>>)
    requires Shaped(w)
  {
    && states == w.states && |evidence| == STAGES
    && forall s | 0 <= s < STAGES :: Shows(w.states[s], w.evidence[s], evidence[s])
  }

  /** The steps from `i` to `j` that write some stage's state. */
  ghost function Writes(ws: seq<World>, i: nat, j: nat): nat
    requires i <= j < |ws|
    decreases j
  {
    if i == j then 0 else Writes(ws, i, j - 1) + if ws[j - 1].states != ws[j].states then 1 else 0
  }

  lemma {:induction false} WritesAdd(ws: seq<World>, i: nat, j: nat, k: nat)
    requires i <= j <= k < |ws|
    ensures Writes(ws, i, k) == Writes(ws, i, j) + Writes(ws, j, k)
    decreases k
  {
    if j < k { WritesAdd(ws, i, j, k - 1); }
  }

  lemma {:induction false} UnwrittenStill(ws: seq<World>, i: nat, j: nat, k: nat)
    requires i <= k <= j < |ws| && Writes(ws, i, j) == 0
    ensures ws[k].states == ws[i].states
    decreases j
  {
    if k < j {
      UnwrittenStill(ws, i, j - 1, k);
    } else if i < j {
      UnwrittenStill(ws, i, j - 1, j - 1);
    }
  }

  /** Two different reads of one stage have a write in between. */
  lemma ReadsDiffer(ws: seq<World>, start: nat, end: nat, s: nat, first: nat, second: nat)
    requires start <= first <= second <= end < |ws| && s < STAGES && Shaped(ws[first]) && Shaped(ws[second])
    requires ws[first].states[s] != ws[second].states[s]
    ensures Writes(ws, start, end) > 0
  {
    if Writes(ws, start, end) == 0 {
      UnwrittenStill(ws, start, end, first);
      UnwrittenStill(ws, start, end, second);
      assert false;
    }
  }

  /** The double collect: states, evidence, states again; equal state files mean that nothing
      it read had moved. What it returns is the disk at one single instant while it ran, and
      each further try is paid for by a write of some stage's state during the one before. There is
      none only when the observed run ends before the reading does. */
  method Snapshot(ws: seq<World>, start: nat, pace: nat -> nat, ghost evs: seq<Event>)
    returns (view: Option<(seq<Option<State>>, seq<seq<Row>>)>, now: nat, count: nat, retries: nat)
    requires FullRun(ws, evs) && start < |ws|
    ensures start <= now < |ws| && retries <= Writes(ws, start, now)
    ensures view.Some? ==> exists instant | start <= instant <= now ::
                             Shaped(ws[instant]) && IsView(ws[instant], view.value.0, view.value.1)
    ensures view.None? ==> start + Elapsed(pace, count + 1) >= |ws|
  {
    now, count, retries := start, 0, 0;
    while true
      invariant start <= now < |ws| && retries <= Writes(ws, start, now) && now == start + Elapsed(pace, count)
      decreases |ws| - now
    {
      var begin := now;
      var states, t1, r1, first := ReadStates(ws, now, pace, count, evs);
      WritesAdd(ws, start, begin, t1);
      if |states| < STAGES { return None, t1, r1, retries; }
      var evidence, t2, r2, middle := ReadEvidence(ws, t1, pace, r1, states, evs);
      WritesAdd(ws, start, begin, t2);
      if |evidence| < STAGES { return None, t2, r2, retries; }
      var again, t3, r3, second := ReadStates(ws, t2, pace, r2, evs);
      WritesAdd(ws, start, begin, t3);
      if |again| < STAGES { return None, t3, r3, retries; }
      if states == again {
        forall s | 0 <= s < STAGES
          ensures states[s] == ws[t1].states[s] && evidence[s] == Committed(ws[t1].states[s], ws[t1].evidence[s])
        {
          StageStill(ws, evs, s, first[s], t1, middle[s], second[s]);
        }
        forall s | 0 <= s < STAGES
          ensures Shows(ws[t1].states[s], ws[t1].evidence[s], evidence[s])
        {
          CommittedShows(states[s], ws[t1].evidence[s]);
        }
        assert Shaped(ws[t1]) && IsView(ws[t1], states, evidence);
        return Some((states, evidence)), t3, r3, retries;
      }
      ghost var s :| 0 <= s < STAGES && states[s] != again[s];
      assert Shaped(ws[first[s]]) && Shaped(ws[second[s]]);
      ReadsDiffer(ws, begin, t3, s, first[s], second[s]);
      now, count, retries := t3, r3, retries + 1;
    }
  }

  /** A stage whose state reads the same at two times had that state, and its committed
      evidence, at every time in between. */
  lemma StageStill(ws: seq<World>, evs: seq<Event>, s: nat, before: nat, t: nat, read: nat, after: nat)
    requires FullRun(ws, evs) && s < STAGES && before <= t <= read <= after < |ws|
    requires ws[before].states[s] == ws[after].states[s]
    ensures ws[t].states[s] == ws[before].states[s]
    ensures Committed(ws[before].states[s], ws[read].evidence[s]) == Committed(ws[t].states[s], ws[t].evidence[s])
  {
    RunsGrow(ws, evs, before, t, s);
    RunsGrow(ws, evs, t, read, s);
    RunsGrow(ws, evs, read, after, s);
  }
}
