/** The rounds of one cost regime: which worker jobs run, under which labels, and what each
    sample slot receives; against what the evidence validator expects of the job list. */
module PanelRounds {

  import opened Prelude
  import opened CostGuard

  /** The text of a job's label determines its parts: the round, the word batch and the
      arm, or the round, the first twelve digits of the case's digest and the arm. */
  datatype Label = Batch(round: nat, arm: string) | Single(round: nat, prefix: string, arm: string)

  datatype Job = Job(name: Label, arm: string)

  /** A list of values: one per arm and case, and per seed for the companion. */
  datatype Slot = Slot(arm: string, case_: string, seed: nat)

  /** What is run on both arms: a round, or one case of a round. */
  datatype Unit = Unit(round: nat, index: nat)

  const ARMS: set<string> := {BASELINE, EVOLVED}

  /** The lists that one case of one arm has. */
  function SeedsPerCase(e: Estimator): nat {
    if e.Companion? then COMPANION_SEEDS else 1
  }

  /** A timing round is one job per arm for the whole panel. */
  function UnitsPerRound(e: Estimator, cases: seq<string>): nat {
    if e.Timing? then 1 else |cases|
  }

  function ExpectedJobs(e: Estimator, count: nat, cases: nat): nat {
    if e.Timing? then count * 2 else count * cases * 2
  }

  ghost predicate UniqueLabels(jobs: seq<Job>) {
    forall i, j :: 0 <= i < j < |jobs| ==> jobs[i].name != jobs[j].name
  }

  /** The truncated digests of the panel's cases are all different. */
  ghost predicate DistinctPrefixes(cases: seq<string>, prefix: string -> string) {
    forall i, j :: 0 <= i < j < |cases| ==> prefix(cases[i]) != prefix(cases[j])
  }

  function ArmJobs(jobs: seq<Job>, arm: string): nat {
    if jobs == [] then 0
    else ArmJobs(jobs[..|jobs| - 1], arm) + if jobs[|jobs| - 1].arm == arm then 1 else 0
  }

  lemma ArmOfOne(job: Job, arm: string)
    ensures ArmJobs([job], arm) == if job.arm == arm then 1 else 0
  {
    assert [job][..0] == [];
  }

  function LabelOf(e: Estimator, cases: seq<string>, u: Unit, arm: string, prefix: string -> string): Label {
    if e.Timing? then Batch(u.round, arm)
    else Single(u.round, if u.index < |cases| then prefix(cases[u.index]) else "", arm)
  }

  // ----- The job list

  predicate Before(a: Unit, b: Unit) {
    a.round < b.round || (a.round == b.round && a.index < b.index)
  }

  /** The jobs are, pair by pair, both arms of these units. */
  ghost predicate Pairs(jobs: seq<Job>, units: seq<Unit>, e: Estimator, cases: seq<string>, prefix: string -> string) {
    && |jobs| == 2 * |units|
    && forall k :: 0 <= k < |units| ==> PairAt(jobs, k, units[k], e, cases, prefix)
  }

  ghost predicate PairAt(jobs: seq<Job>, k: nat, u: Unit, e: Estimator, cases: seq<string>, prefix: string -> string)
    requires 2 * k + 1 < |jobs|
  {
    var x, y := jobs[2 * k], jobs[2 * k + 1];
    && {x.arm, y.arm} == ARMS && x.arm != y.arm
    && x.name == LabelOf(e, cases, u, x.arm, prefix)
    && y.name == LabelOf(e, cases, u, y.arm, prefix)
  }

  /** In order, each once, all of the finished rounds and the first `done` of the next. */
  ghost predicate Walked(units: seq<Unit>, round: nat, done: nat, perRound: nat) {
    && |units| == round * perRound + done
    && (forall a, b :: 0 <= a < b < |units| ==> Before(units[a], units[b]))
    && (forall u :: u in units <==> u.index < perRound && (u.round < round || (u.round == round && u.index < done)))
  }

  lemma NextUnit(units: seq<Unit>, round: nat, done: nat, perRound: nat)
    requires Walked(units, round, done, perRound) && done < perRound
    ensures Walked(units + [Unit(round, done)], round, done + 1, perRound)
  {
    var more := units + [Unit(round, done)];
    forall a, b | 0 <= a < b < |more|
      ensures Before(more[a], more[b])
    {
      if b == |units| { assert units[a] in units; }
    }
  }

  lemma NextRound(units: seq<Unit>, round: nat, perRound: nat)
    requires Walked(units, round, perRound, perRound)
    ensures Walked(units, round + 1, 0, perRound)
  {
    assert (round + 1) * perRound == round * perRound + perRound;
  }

  lemma NextPair(jobs: seq<Job>, x: Job, y: Job, units: seq<Unit>, u: Unit, e: Estimator, cases: seq<string>,
                 prefix: string -> string)
    requires Pairs(jobs, units, e, cases, prefix)
    requires {x.arm, y.arm} == ARMS && x.arm != y.arm
    requires x.name == LabelOf(e, cases, u, x.arm, prefix) && y.name == LabelOf(e, cases, u, y.arm, prefix)
    ensures Pairs(jobs + [x, y], units + [u], e, cases, prefix)
  {
    var jobs', units' := jobs + [x, y], units + [u];
    forall k | 0 <= k < |units'|
      ensures PairAt(jobs', k, units'[k], e, cases, prefix)
    {
      if k < |units| { assert PairAt(jobs, k, units[k], e, cases, prefix); }
    }
  }

  /** Both arms have as many jobs. */
  lemma {:induction false} Balanced(jobs: seq<Job>, units: seq<Unit>, e: Estimator, cases: seq<string>,
                                    prefix: string -> string, arm: string)
    requires Pairs(jobs, units, e, cases, prefix) && arm in ARMS
    ensures ArmJobs(jobs, arm) == |units|
    decreases |units|
  {
    if units != [] {
      var n := |units| - 1;
      var fewer, one := jobs[..2 * n], jobs[..2 * n + 1];
      assert PairAt(jobs, n, units[n], e, cases, prefix);
      assert one[..2 * n] == fewer && jobs[..|jobs| - 1] == one;
      forall k | 0 <= k < n
        ensures PairAt(fewer, k, units[..n][k], e, cases, prefix)
      {
        assert PairAt(jobs, k, units[k], e, cases, prefix);
      }
      Balanced(fewer, units[..n], e, cases, prefix, arm);
      assert jobs[2 * n].arm == arm <==> jobs[2 * n + 1].arm != arm;
    }
  }

  lemma ArmOfPair(jobs: seq<Job>, units: seq<Unit>, e: Estimator, cases: seq<string>, prefix: string -> string, i: nat)
    requires Pairs(jobs, units, e, cases, prefix) && i < |jobs|
    ensures jobs[i].arm in ARMS && jobs[i].name == LabelOf(e, cases, units[i / 2], jobs[i].arm, prefix)
    ensures forall j | 0 <= j < |jobs| && j != i && j / 2 == i / 2 :: jobs[j].arm != jobs[i].arm
  {
    assert PairAt(jobs, i / 2, units[i / 2], e, cases, prefix);
    var k := i / 2;
    assert i == 2 * k || i == 2 * k + 1;
    assert jobs[2 * k].arm in {jobs[2 * k].arm, jobs[2 * k + 1].arm};
    assert jobs[2 * k + 1].arm in {jobs[2 * k].arm, jobs[2 * k + 1].arm};
    forall j | 0 <= j < |jobs| && j != i && j / 2 == i / 2
      ensures jobs[j].arm != jobs[i].arm
    {
      assert j == 2 * k || j == 2 * k + 1;
    }
  }

  lemma BaselineJob(jobs: seq<Job>, units: seq<Unit>, e: Estimator, cases: seq<string>, prefix: string -> string, k: nat)
    returns (x: nat)
    requires Pairs(jobs, units, e, cases, prefix) && k < |units|
    ensures x < |jobs| && x / 2 == k && jobs[x].name == LabelOf(e, cases, units[k], BASELINE, prefix)
  {
    assert PairAt(jobs, k, units[k], e, cases, prefix);
    assert BASELINE in {jobs[2 * k].arm, jobs[2 * k + 1].arm};
    x := if jobs[2 * k].arm == BASELINE then 2 * k else 2 * k + 1;
  }

  lemma FirstRound(units: seq<Unit>, count: nat, perRound: nat, i: nat) returns (a: nat)
    requires Walked(units, count, 0, perRound) && count > 0 && i < perRound
    ensures a < |units| && units[a] == Unit(0, i)
  {
    assert Unit(0, i) in units;
    a :| 0 <= a < |units| && units[a] == Unit(0, i);
  }

  /** Two cases with one prefix would have one label in every round. */
  lemma PrefixesNeeded(jobs: seq<Job>, units: seq<Unit>, e: Estimator, cases: seq<string>, prefix: string -> string,
                       count: nat, i: nat, j: nat)
    requires Pairs(jobs, units, e, cases, prefix) && Walked(units, count, 0, UnitsPerRound(e, cases))
    requires !e.Timing? && count > 0 && i < j < |cases| && prefix(cases[i]) == prefix(cases[j])
    ensures !UniqueLabels(jobs)
  {
    var a := FirstRound(units, count, |cases|, i);
    var b := FirstRound(units, count, |cases|, j);
    var x := BaselineJob(jobs, units, e, cases, prefix, a);
    var y := BaselineJob(jobs, units, e, cases, prefix, b);
    assert x < y || y < x;
  }

  /** What a job list without a repeated label says about the panel. */
  lemma RanApart(jobs: seq<Job>, units: seq<Unit>, e: Estimator, cases: seq<string>, prefix: string -> string,
                 count: nat)
    requires Pairs(jobs, units, e, cases, prefix) && Walked(units, count, 0, UnitsPerRound(e, cases))
    requires UniqueLabels(jobs)
    ensures |jobs| == ExpectedJobs(e, count, |cases|)
    ensures forall arm :: arm in ARMS ==> ArmJobs(jobs, arm) * 2 == |jobs|
    ensures Apart(e, cases, count, prefix)
  {
    forall arm | arm in ARMS
      ensures ArmJobs(jobs, arm) * 2 == |jobs|
    {
      Balanced(jobs, units, e, cases, prefix, arm);
    }
    if !Apart(e, cases, count, prefix) {
      var i, j :| 0 <= i < j < |cases| && prefix(cases[i]) == prefix(cases[j]);
      PrefixesNeeded(jobs, units, e, cases, prefix, count, i, j);
    }
  }

  /** No two jobs of the panel share a label. */
  ghost predicate Apart(e: Estimator, cases: seq<string>, count: nat, prefix: string -> string) {
    e.Timing? || count == 0 || DistinctPrefixes(cases, prefix)
  }

  /** A label that a job before this unit already has comes from another case with its prefix. */
  lemma TakenBefore(jobs: seq<Job>, units: seq<Unit>, e: Estimator, cases: seq<string>, prefix: string -> string,
                    count: nat, u: Unit, done: nat, arm: string, k: nat)
    requires Pairs(jobs, units, e, cases, prefix) && Walked(units, u.round, done, UnitsPerRound(e, cases))
    requires u.index == done < UnitsPerRound(e, cases) && u.round < count && k < |jobs|
    requires jobs[k].name == LabelOf(e, cases, u, arm, prefix)
    ensures !Apart(e, cases, count, prefix)
  {
    ArmOfPair(jobs, units, e, cases, prefix, k);
    var v := units[k / 2];
    assert v in units;
    assert v.round == u.round && v.index < u.index;
    assert e.Timing? || prefix(cases[v.index]) == prefix(cases[u.index]);
  }

  /** The worker of every job of the panel delivers every requested seed. */
  ghost predicate AllWork(e: Estimator, cases: seq<string>, count: nat, prefix: string -> string, works: Label -> bool) {
    forall u: Unit, arm :: u.round < count && u.index < UnitsPerRound(e, cases) && arm in ARMS
      ==> works(LabelOf(e, cases, u, arm, prefix))
  }

  ghost predicate EachWorked(units: seq<Unit>, e: Estimator, cases: seq<string>, prefix: string -> string,
                             works: Label -> bool) {
    forall u: Unit, arm :: u in units && arm in ARMS ==> works(LabelOf(e, cases, u, arm, prefix))
  }

  // ----- The loops

  /** How a measurement ends: every job done, a job directory that already exists, or a job whose
      worker did not deliver every requested seed. */
  datatype Ended = Finished | Exists(name: Label) | Incomplete(name: Label)

  class Collection {
    /** The job directories made, the jobs that were run, and how many values each slot has. */
    var directories: set<Label>
    var jobs: seq<Job>
    var taken: map<Slot, nat>

    constructor ()
      ensures directories == {} && jobs == [] && taken == map[]
    {
      directories, jobs, taken := {}, [], map[];
    }

    /** One directory per job, and no label twice. */
    ghost predicate Kept()
      reads this
    {
      && directories == (set k | 0 <= k < |jobs| :: jobs[k].name)
      && UniqueLabels(jobs)
    }

    function Taken(slot: Slot): nat
      reads this
    {
      if slot in taken then taken[slot] else 0
    }

    /** The first cases have one value per slot more than the others of the panel. */
    ghost predicate Filled(cases: seq<string>, first: nat, e: Estimator, round: nat)
      requires first <= |cases|
      reads this
    {
      forall slot: Slot ::
        Taken(slot) == if slot.case_ in cases && slot.arm in ARMS && slot.seed < SeedsPerCase(e)
                       then round + (if slot.case_ in cases[..first] then 1 else 0) else 0
    }

    lemma RoundFilled(cases: seq<string>, e: Estimator, round: nat)
      requires Filled(cases, |cases|, e, round)
      ensures Filled(cases, 0, e, round + 1)
    {
      assert cases[..|cases|] == cases;
    }

    /** One job: its directory is made first, and must not exist yet. */
    method Collect(name: Label, arm: string, works: Label -> bool) returns (ended: Ended)
      requires Kept()
      modifies `directories, `jobs
      ensures ended.Exists? <==> name in old(directories)
      ensures ended.Incomplete? <==> name !in old(directories) && !works(name)
      ensures ended.Finished? || ended.name == name
      ensures jobs == if ended.Exists? then old(jobs) else old(jobs) + [Job(name, arm)]
      ensures directories == old(directories) + {name} && Kept()
    {
      if name in directories { return Exists(name); }
      directories := directories + {name};
      jobs := jobs + [Job(name, arm)];
      assert forall k | 0 <= k < |old(jobs)| :: jobs[k] == old(jobs)[k] && jobs[k].name in old(directories);
      assert jobs[|old(jobs)|].name == name;
      ended := if works(name) then Finished else Ended.Incomplete(name);
    }

    /** Both arms of one unit, in the shuffled order. */
    method RunBoth(e: Estimator, cases: seq<string>, u: Unit, prefix: string -> string, works: Label -> bool,
                   ghost units: seq<Unit>)
      returns (ended: Ended)
      requires Pairs(jobs, units, e, cases, prefix) && Kept() && EachWorked(units, e, cases, prefix, works)
      modifies `directories, `jobs
      ensures Kept()
      ensures ended.Finished? ==> Pairs(jobs, units + [u], e, cases, prefix)
      ensures ended.Finished? ==> EachWorked(units + [u], e, cases, prefix, works)
      ensures ended.Exists? ==> ended.name in old(directories)
      ensures ended.Incomplete? ==> !works(ended.name)
      ensures ended.Finished? || exists arm :: arm in ARMS && ended.name == LabelOf(e, cases, u, arm, prefix)
    {
      var flip: bool := *;
      var first, second := BASELINE, EVOLVED;
      if flip { first, second := EVOLVED, BASELINE; }
      var x := Job(LabelOf(e, cases, u, first, prefix), first);
      var y := Job(LabelOf(e, cases, u, second, prefix), second);
      NextPair(jobs, x, y, units, u, e, cases, prefix);
      assert jobs + [x, y] == jobs + [x] + [y];
      ended := Collect(x.name, first, works);
      if !ended.Finished? { return; }
      ended := Collect(y.name, second, works);
      assert ended.Finished? ==> forall arm | arm in ARMS :: works(LabelOf(e, cases, u, arm, prefix));
    }

    /** The values of one case in one round: one for each arm and seed. */
    method TakeCase(cases: seq<string>, i: nat, e: Estimator, ghost round: nat)
      requires i < |cases| && Distinct(cases) && Filled(cases, i, e, round)
      modifies `taken
      ensures Filled(cases, i + 1, e, round)
    {
      assert cases[i] !in cases[..i];
      assert cases[..i + 1] == cases[..i] + [cases[i]];
      for seed := 0 to SeedsPerCase(e)
        invariant forall slot: Slot ::
          Taken(slot) == if slot.case_ in cases && slot.arm in ARMS && slot.seed < SeedsPerCase(e)
                         then round + (if slot.case_ in cases[..i] || (slot.case_ == cases[i] && slot.seed < seed) then 1 else 0)
                         else 0
      {
        var x, y := Slot(BASELINE, cases[i], seed), Slot(EVOLVED, cases[i], seed);
        taken := taken[x := Taken(x) + 1][y := Taken(y) + 1];
      }
    }

    /** Every round, arms interleaved. It ends at the first job whose directory exists or whose
        worker fails: it finishes exactly when no two jobs of the panel share a label and every
        worker delivers. What it then hands on is what the validator expects of a job list: the
        expected number, balanced over the arms, no label twice; and every slot has one value per
        round. */
    method MeasureRounds(cases: seq<string>, e: Estimator, count: nat, prefix: string -> string, works: Label -> bool)
      returns (ended: Ended)
      requires directories == {} && jobs == [] && taken == map[] && Distinct(cases)
      modifies this
      ensures ended.Finished? <==>
              Apart(e, cases, count, prefix) && AllWork(e, cases, count, prefix, works)
      ensures ended.Exists? ==> !Apart(e, cases, count, prefix)
      ensures ended.Incomplete? ==> !works(ended.name) && !AllWork(e, cases, count, prefix, works)
      ensures directories == (set k | 0 <= k < |jobs| :: jobs[k].name) && UniqueLabels(jobs)
      ensures ended.Finished? ==> |jobs| == ExpectedJobs(e, count, |cases|)
      ensures ended.Finished? ==> forall arm :: arm in ARMS ==> ArmJobs(jobs, arm) * 2 == |jobs|
      ensures ended.Finished? ==> forall slot: Slot ::
                Taken(slot)
                == if slot.case_ in cases && slot.arm in ARMS && slot.seed < (if e == Companion then 20 else 1)
                   then count else 0
    {
      ghost var units: seq<Unit> := [];
      ghost var perRound := UnitsPerRound(e, cases);
      for round := 0 to count
        invariant Pairs(jobs, units, e, cases, prefix) && Walked(units, round, 0, perRound)
        invariant Kept() && EachWorked(units, e, cases, prefix, works)
        invariant Filled(cases, 0, e, round)
      {
        if e.Timing? {
          ended := Measure(e, cases, count, Unit(round, 0), prefix, works, units);
          if !ended.Finished? { return; }
          units := units + [Unit(round, 0)];
          for i := 0 to |cases|
            invariant Pairs(jobs, units, e, cases, prefix) && Filled(cases, i, e, round)
            invariant Kept() && EachWorked(units, e, cases, prefix, works)
          {
            TakeCase(cases, i, e, round);
          }
        } else {
          for i := 0 to |cases|
            invariant Pairs(jobs, units, e, cases, prefix) && Walked(units, round, i, perRound)
            invariant Kept() && EachWorked(units, e, cases, prefix, works)
            invariant Filled(cases, i, e, round)
          {
            ended := Measure(e, cases, count, Unit(round, i), prefix, works, units);
            if !ended.Finished? { return; }
            units := units + [Unit(round, i)];
            TakeCase(cases, i, e, round);
          }
        }
        NextRound(units, round, perRound);
        RoundFilled(cases, e, round);
      }
      ended := Finished;
      RanApart(jobs, units, e, cases, prefix, count);
    }

    /** The next unit of a walk: it ends early only for a shared label or a failed worker. */
    method Measure(e: Estimator, cases: seq<string>, ghost count: nat, u: Unit, prefix: string -> string,
                   works: Label -> bool, ghost units: seq<Unit>)
      returns (ended: Ended)
      requires Pairs(jobs, units, e, cases, prefix) && Kept() && EachWorked(units, e, cases, prefix, works)
      requires u.round < count && u.index < UnitsPerRound(e, cases)
      requires Walked(units, u.round, u.index, UnitsPerRound(e, cases))
      modifies `directories, `jobs
      ensures Kept()
      ensures ended.Finished? ==> Pairs(jobs, units + [u], e, cases, prefix)
      ensures ended.Finished? ==> EachWorked(units + [u], e, cases, prefix, works)
      ensures ended.Finished? ==> Walked(units + [u], u.round, u.index + 1, UnitsPerRound(e, cases))
      ensures ended.Exists? ==> !Apart(e, cases, count, prefix)
      ensures ended.Incomplete? ==> !works(ended.name) && !AllWork(e, cases, count, prefix, works)
    {
      ghost var before := jobs;
      ended := RunBoth(e, cases, u, prefix, works, units);
      NextUnit(units, u.round, u.index, UnitsPerRound(e, cases));
      if ended.Exists? {
        ghost var arm :| arm in ARMS && ended.name == LabelOf(e, cases, u, arm, prefix);
        ghost var k :| 0 <= k < |before| && before[k].name == ended.name;
        TakenBefore(before, units, e, cases, prefix, count, u, u.index, arm, k);
      }
    }
  }

  /** Two cases whose truncated digests are equal: the second one's job directory exists already,
      and the panel cannot be measured, however often it is tried. */
  method SharedPrefix() returns (ended: Ended)
    ensures ended.Exists?
  {
    var collection := new Collection();
    var prefix := (case_: string) => "0123456789ab";
    var cases := ["adder", "multiplier"];
    assert cases[0] == "adder" && cases[1] == "multiplier" && cases[0][0] != cases[1][0];
    ended := collection.MeasureRounds(cases, Memory, 1, prefix, _ => true);
    assert prefix(cases[0]) == prefix(cases[1]);
  }
}
