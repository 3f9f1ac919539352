/** `quality`: every planned (case, revision, seed) is observed exactly once, however often the
    stage is killed and run again. */
module Observations {

  import opened Prelude
  import opened Worker

  datatype Case = Case(id: string, seeds: nat)

  datatype Key = Key(id: string, revision: string, seed: nat)

  /** One batch of seeds to compile. */
  datatype Task = Task(id: string, revision: string, batch: seq<nat>)

  function Keys(id: string, revision: string, seeds: seq<nat>): (keys: seq<Key>)
    ensures |keys| == |seeds|
    ensures forall i :: 0 <= i < |seeds| ==> keys[i] == Key(id, revision, seeds[i])
  {
    seq(|seeds|, i requires 0 <= i < |seeds| => Key(id, revision, seeds[i]))
  }

  function Flat(tasks: seq<Task>): seq<Key> {
    if tasks == [] then []
    else Keys(tasks[0].id, tasks[0].revision, tasks[0].batch) + Flat(tasks[1..])
  }

  ghost predicate Apart(a: seq<Key>, b: seq<Key>) {
    forall k :: k in a ==> k !in b
  }

  lemma DistinctConcat(a: seq<Key>, b: seq<Key>)
    ensures Distinct(a + b) <==> Distinct(a) && Distinct(b) && Apart(a, b)
  {
    var both := a + b;
    assert forall i :: 0 <= i < |a| ==> both[i] == a[i];
    assert forall i :: 0 <= i < |b| ==> both[|a| + i] == b[i];
    if Distinct(both) {
      forall i, j | 0 <= i < j < |b|
        ensures b[i] != b[j]
      {
        assert both[|a| + i] != both[|a| + j];
      }
      forall i, j | 0 <= i < |a| && 0 <= j < |b|
        ensures a[i] != b[j]
      {
        assert both[i] != both[|a| + j];
      }
    }
    if Distinct(a) && Distinct(b) && Apart(a, b) {
      forall i, j | 0 <= i < j < |both|
        ensures both[i] != both[j]
      {
        assert both[i] == if i < |a| then a[i] else b[i - |a|];
        assert both[j] == if j < |a| then a[j] else b[j - |a|];
        if i < |a| <= j { assert a[i] in a && b[j - |a|] in b; }
      }
    }
  }

  /** The keys an invocation is asked for. */
  predicate Planned(cases: seq<Case>, revisions: seq<string>, k: Key) {
    k.revision in revisions && exists j | 0 <= j < |cases| :: cases[j].id == k.id && k.seed < cases[j].seeds
  }

  ghost predicate DistinctCases(cases: seq<Case>) {
    forall i, j :: 0 <= i < j < |cases| ==> cases[i].id != cases[j].id
  }

  lemma KeysIn(id: string, revision: string, seeds: seq<nat>, k: Key)
    ensures k in Keys(id, revision, seeds) <==> k.id == id && k.revision == revision && k.seed in seeds
  {
    var keys := Keys(id, revision, seeds);
    if k.id == id && k.revision == revision && k.seed in seeds {
      var i :| 0 <= i < |seeds| && seeds[i] == k.seed;
      assert keys[i] == k;
    }
  }

  lemma {:induction false} FlatConcat(a: seq<Task>, b: seq<Task>)
    ensures Flat(a + b) == Flat(a) + Flat(b)
  {
    if a == [] {
      assert a + b == b;
    } else {
      assert (a + b)[0] == a[0] && (a + b)[1..] == a[1..] + b;
      FlatConcat(a[1..], b);
    }
  }

  /** Steps of the batch size through the seeds: the batches hold them, in order. */
  method Batches(id: string, revision: string, seeds: seq<nat>, batchSize: nat) returns (tasks: seq<Task>)
    requires batchSize > 0
    ensures Flat(tasks) == Keys(id, revision, seeds)
    ensures forall t :: t in tasks ==> t.batch != [] && |t.batch| <= batchSize
  {
    tasks := [];
    var start := 0;
    while start < |seeds|
      invariant 0 <= start <= |seeds|
      invariant Flat(tasks) == Keys(id, revision, seeds[..start])
      invariant forall t :: t in tasks ==> t.batch != [] && |t.batch| <= batchSize
    {
      var end := if start + batchSize < |seeds| then start + batchSize else |seeds|;
      var task := Task(id, revision, seeds[start..end]);
      FlatConcat(tasks, [task]);
      assert Flat([task]) == Keys(id, revision, task.batch);
      assert seeds[..end] == seeds[..start] + task.batch;
      tasks := tasks + [task];
      start := end;
    }
    assert seeds[..start] == seeds;
  }

  /** The session's `observations.jsonl`. A killed append leaves either no row or the whole row
      (`Storage.LogIsCommitted`), so the file is the list of its rows. */
  class Session {
    var log: seq<Key>

    constructor ()
      ensures log == []
    {
      log := [];
    }

    /** Plans one case of one revision: seeds whose row is saved are not redone, those the store
        has are copied to the log at once, the others are returned. `None` when killed. */
    method PlanCase(c: Case, revision: string, saved: set<Key>, useStore: bool, ghost pending: seq<Key>)
      returns (remaining: Option<seq<nat>>)
      requires Distinct(log + pending)
      requires forall s :: Key(c.id, revision, s) in log <==> Key(c.id, revision, s) in saved
      requires forall s :: Key(c.id, revision, s) !in pending
      modifies this
      ensures old(log) <= log && Distinct(log)
      ensures forall k :: k in log && k !in old(log) ==> k.id == c.id && k.revision == revision && k.seed < c.seeds
      ensures remaining.Some? ==> Distinct(log + (pending + Keys(c.id, revision, remaining.value)))
      ensures remaining.Some? ==> forall s :: s in remaining.value ==> s < c.seeds
      ensures remaining.Some? ==> forall s | 0 <= s < c.seeds :: Key(c.id, revision, s) in log || s in remaining.value
    {
      ghost var before := log;
      DistinctConcat(log, pending);
      var left: seq<nat> := [];
      var fromStore := false;
      if useStore && revision == "baseline" { fromStore := *; }   // the entry is not invalidated
      for s := 0 to c.seeds
        invariant before <= log && Distinct(log)
        invariant forall k :: k in log && k !in before ==> k.id == c.id && k.revision == revision && k.seed < s
        invariant Distinct(left) && forall t :: t in left ==> t < s && Key(c.id, revision, t) !in log
        invariant forall t | 0 <= t < s :: Key(c.id, revision, t) in log || t in left
        invariant forall t | t >= s :: Key(c.id, revision, t) in log <==> Key(c.id, revision, t) in saved
      {
        var key := Key(c.id, revision, s);
        if key !in saved {
          var hit := false;
          if fromStore { hit := *; }
          if hit {
            var killed: bool := *;
            if killed { return None; }
            DistinctConcat(log, [key]);
            log := log + [key];
          } else {
            left := left + [s];
          }
        }
      }
      PlanCaseOnce(before, log, pending, c.id, revision, left);
      return Some(left);
    }

    /** Runs one batch and appends its rows. `false` when it was killed or raised an error. */
    method Commit(task: Task, processes: Processes, ghost later: seq<Key>) returns (done: bool)
      requires task.batch != []
      requires Distinct(log + (Keys(task.id, task.revision, task.batch) + later))
      modifies this, processes
      ensures old(log) <= log && Distinct(log)
      ensures forall k :: k in log && k !in old(log) ==> k in Keys(task.id, task.revision, task.batch)
      ensures done ==> forall k :: k in Keys(task.id, task.revision, task.batch) ==> k in log
      ensures done ==> Distinct(log + later)
    {
      ghost var before := log;
      BatchDistinct(log, task, later);
      DistinctConcat(log, Keys(task.id, task.revision, task.batch) + later);
      var result, used := RunWorker(task.batch, "quality", processes);
      if !result.Rows? { return false; }
      var all := Keys(task.id, task.revision, Seeds(result.rows));
      BatchOnce(log, task, Seeds(result.rows), later);
      for i := 0 to |all|
        invariant log == before + all[..i]
      {
        var killed: bool := *;
        if killed {
          PrefixOnce(before, all, i);
          return false;
        }
        assert all[..i + 1] == all[..i] + [all[i]];
        log := log + [all[i]];
      }
      assert all[..|all|] == all;
      DistinctConcat(log, later);
      return true;
    }

    /** The whole stage. Whenever and wherever it stops, no key is in the log twice and nothing
        unplanned was added; after a normal return every planned key is there. */
    method Quality(cases: seq<Case>, revisions: seq<string>, useStore: bool, batchSize: nat, processes: Processes)
      returns (done: bool)
      requires DistinctCases(cases) && Distinct(revisions) && batchSize > 0
      requires Distinct(log)
      modifies this, processes
      ensures old(log) <= log && Distinct(log)
      ensures forall k :: k in log && k !in old(log) ==> Planned(cases, revisions, k)
      ensures done ==> forall k | Planned(cases, revisions, k) :: k in log
    {
      ghost var before := log;
      var saved := set k | k in log;
      var tasks: seq<Task> := [];
      ghost var settled: set<(string, string)> := {};
      assert log + Flat(tasks) == log;
      for i := 0 to |revisions|
        invariant before <= log && PlanInv(before, log, Flat(tasks), settled, cases, revisions)
        invariant Nonempty(tasks)
        invariant settled == Pairs(revisions[..i], cases)
      {
        for j := 0 to |cases|
          invariant before <= log && PlanInv(before, log, Flat(tasks), settled, cases, revisions)
          invariant Nonempty(tasks)
          invariant settled == Pairs(revisions[..i], cases) + Pairs([revisions[i]], cases[..j])
        {
          var c, revision := cases[j], revisions[i];
          ghost var log0, flat := log, Flat(tasks);
          PairIsNew(revisions, i, cases, j);
          var remaining := PlanCase(c, revision, saved, useStore, flat);
          if remaining.None? {
            return false;
          }
          var batches := Batches(c.id, revision, remaining.value, batchSize);
          PlanExtended(before, log0, log, flat, settled, cases, revisions, c, revision, remaining.value);
          FlatConcat(tasks, batches);
          PairsGrow(revisions, i, cases, j);
          tasks := tasks + batches;
          settled := settled + {(revision, c.id)};
        }
        RevisionDone(revisions, i, cases);
      }
      assert revisions[..|revisions|] == revisions;
      ghost var planned, flat := log, Flat(tasks);
      for t := 0 to |tasks|
        invariant before <= log
        invariant Distinct(log + Flat(tasks[t..]))
        invariant forall k :: k in log ==> k in planned || k in flat
        invariant forall k :: k in Flat(tasks[t..]) ==> k in flat
        invariant forall k :: k in planned || k in flat ==> k in log || k in Flat(tasks[t..])
      {
        assert tasks[t..][0] == tasks[t] && tasks[t..][1..] == tasks[t + 1..];
        done := Commit(tasks[t], processes, Flat(tasks[t + 1..]));
        if !done { return false; }
      }
      assert tasks[|tasks|..] == [];
      DistinctConcat(log, []);
      PlanComplete(before, planned, flat, settled, cases, revisions);
      return true;
    }
  }

  // ----- Bookkeeping of the plan

  predicate Nonempty(tasks: seq<Task>) {
    forall t :: t in tasks ==> t.batch != []
  }

  ghost function Pairs(revisions: seq<string>, cases: seq<Case>): set<(string, string)> {
    set a, b | 0 <= a < |revisions| && 0 <= b < |cases| :: (revisions[a], cases[b].id)
  }

  lemma PairIsNew(revisions: seq<string>, i: nat, cases: seq<Case>, j: nat)
    requires i < |revisions| && j < |cases| && DistinctCases(cases) && Distinct(revisions)
    ensures (revisions[i], cases[j].id) !in Pairs(revisions[..i], cases) + Pairs([revisions[i]], cases[..j])
  {
  }

  lemma PairsGrow(revisions: seq<string>, i: nat, cases: seq<Case>, j: nat)
    requires i < |revisions| && j < |cases|
    ensures Pairs([revisions[i]], cases[..j + 1]) == Pairs([revisions[i]], cases[..j]) + {(revisions[i], cases[j].id)}
  {
    var more, r := cases[..j + 1], [revisions[i]];
    forall p
      ensures p in Pairs(r, more) <==> p in Pairs(r, cases[..j]) + {(revisions[i], cases[j].id)}
    {
      if p in Pairs(r, cases[..j]) {
        var a, b :| 0 <= a < |r| && 0 <= b < j && p == (r[a], cases[..j][b].id);
        assert p == (r[a], more[b].id);
      }
      if p == (revisions[i], cases[j].id) { assert p == (r[0], more[j].id); }
      if p in Pairs(r, more) {
        var a, b :| 0 <= a < |r| && 0 <= b < j + 1 && p == (r[a], more[b].id);
        if b < j { assert p == (r[a], cases[..j][b].id); }
      }
    }
  }

  lemma RevisionDone(revisions: seq<string>, i: nat, cases: seq<Case>)
    requires i < |revisions|
    ensures Pairs(revisions[..i + 1], cases) == Pairs(revisions[..i], cases) + Pairs([revisions[i]], cases[..|cases|])
  {
    var more := revisions[..i + 1];
    assert cases[..|cases|] == cases;
    forall p
      ensures p in Pairs(more, cases) <==> p in Pairs(revisions[..i], cases) + Pairs([revisions[i]], cases)
    {
      if p in Pairs(revisions[..i], cases) {
        var a, b :| 0 <= a < i && 0 <= b < |cases| && p == (revisions[..i][a], cases[b].id);
        assert p == (more[a], cases[b].id);
      }
      if p in Pairs([revisions[i]], cases) {
        var a, b :| 0 <= a < 1 && 0 <= b < |cases| && p == ([revisions[i]][a], cases[b].id);
        assert p == (more[i], cases[b].id);
      }
      if p in Pairs(more, cases) {
        var a, b :| 0 <= a < i + 1 && 0 <= b < |cases| && p == (more[a], cases[b].id);
        if a < i { assert p == (revisions[..i][a], cases[b].id); } else { assert p == ([revisions[i]][0], cases[b].id); }
      }
    }
  }

  lemma PlanCaseOnce(before: seq<Key>, log: seq<Key>, pending: seq<Key>, id: string, revision: string, left: seq<nat>)
    requires Distinct(before + pending) && Distinct(log) && Distinct(left)
    requires forall k :: k in log && k !in before ==> k.id == id && k.revision == revision
    requires forall s :: Key(id, revision, s) !in pending
    requires forall t :: t in left ==> Key(id, revision, t) !in log
    ensures Distinct(log + (pending + Keys(id, revision, left)))
  {
    var keys := Keys(id, revision, left);
    DistinctConcat(before, pending);
    forall k | k in pending
      ensures k !in keys
    {
      KeysIn(id, revision, left, k);
      assert k.id == id && k.revision == revision ==> k == Key(id, revision, k.seed);
    }
    DistinctConcat(pending, keys);
    forall k | k in log
      ensures k !in pending + keys
    {
      KeysIn(id, revision, left, k);
      assert k.id == id && k.revision == revision ==> k == Key(id, revision, k.seed);
    }
    DistinctConcat(log, pending + keys);
  }

  lemma BatchDistinct(log: seq<Key>, task: Task, later: seq<Key>)
    requires Distinct(log + (Keys(task.id, task.revision, task.batch) + later))
    ensures Distinct(task.batch)
  {
    var keys := Keys(task.id, task.revision, task.batch);
    DistinctConcat(log, keys + later);
    DistinctConcat(keys, later);
    forall i, j | 0 <= i < j < |task.batch|
      ensures task.batch[i] != task.batch[j]
    {
      assert keys[i] != keys[j];
    }
  }

  /** The worker's rows, in whatever order, are as good as the batch. */
  lemma BatchOnce(log: seq<Key>, task: Task, seeds: seq<nat>, later: seq<Key>)
    requires Distinct(log + (Keys(task.id, task.revision, task.batch) + later))
    requires Distinct(task.batch) && multiset(seeds) == multiset(task.batch)
    ensures var all := Keys(task.id, task.revision, seeds);
            && Distinct(log + all) && Distinct(later) && Apart(log + all, later)
            && forall k :: k in all <==> k in Keys(task.id, task.revision, task.batch)
  {
    var keys, all := Keys(task.id, task.revision, task.batch), Keys(task.id, task.revision, seeds);
    DistinctMultiset(task.batch);
    forall s
      ensures multiset(seeds)[s] <= 1 && (s in seeds <==> s in task.batch)
    {
      assert s in seeds <==> s in multiset(seeds);
      assert s in task.batch <==> s in multiset(task.batch);
    }
    CountsDistinct(seeds);
    forall k
      ensures k in all <==> k in keys
    {
      KeysIn(task.id, task.revision, seeds, k);
      KeysIn(task.id, task.revision, task.batch, k);
    }
    DistinctConcat(log, keys + later);
    DistinctConcat(keys, later);
    DistinctConcat(log, all);
  }

  lemma PrefixOnce(before: seq<Key>, all: seq<Key>, i: nat)
    requires Distinct(before + all) && i <= |all|
    ensures Distinct(before + all[..i])
  {
    assert all == all[..i] + all[i..];
    assert before + all == (before + all[..i]) + all[i..];
    DistinctConcat(before + all[..i], all[i..]);
  }

  /** While planning: what is in the log or in a task is there once; what was added is planned
      and of a settled (revision, case) pair; and the keys of settled pairs are all there. */
  ghost predicate PlanInv(before: seq<Key>, log: seq<Key>, flat: seq<Key>, settled: set<(string, string)>,
                          cases: seq<Case>, revisions: seq<string>) {
    && Distinct(log + flat)
    && (forall k :: k in log && k !in before ==> (k.revision, k.id) in settled && Planned(cases, revisions, k))
    && (forall k :: k in flat ==> (k.revision, k.id) in settled && Planned(cases, revisions, k))
    && (forall k: Key :: (k.revision, k.id) in settled && Planned(cases, revisions, k) ==> k in log || k in flat)
  }

  lemma PlanExtended(before: seq<Key>, log0: seq<Key>, log: seq<Key>, flat: seq<Key>, settled: set<(string, string)>,
                     cases: seq<Case>, revisions: seq<string>, c: Case, revision: string, remaining: seq<nat>)
    requires PlanInv(before, log0, flat, settled, cases, revisions)
    requires c in cases && revision in revisions && DistinctCases(cases)
    requires log0 <= log
    requires forall k :: k in log && k !in log0 ==> k.id == c.id && k.revision == revision && k.seed < c.seeds
    requires Distinct(log + (flat + Keys(c.id, revision, remaining)))
    requires forall s :: s in remaining ==> s < c.seeds
    requires forall s | 0 <= s < c.seeds :: Key(c.id, revision, s) in log || s in remaining
    ensures PlanInv(before, log, flat + Keys(c.id, revision, remaining), settled + {(revision, c.id)}, cases, revisions)
  {
    var keys, settled' := Keys(c.id, revision, remaining), settled + {(revision, c.id)};
    forall k | k in flat + keys
      ensures (k.revision, k.id) in settled' && Planned(cases, revisions, k)
    {
      KeysIn(c.id, revision, remaining, k);
    }
    forall k: Key | (k.revision, k.id) in settled' && Planned(cases, revisions, k)
      ensures k in log || k in flat + keys
    {
      KeysIn(c.id, revision, remaining, k);
      assert k.id == c.id && k.revision == revision ==> k == Key(c.id, revision, k.seed) && k.seed < c.seeds;
    }
  }

  lemma PlanComplete(before: seq<Key>, planned: seq<Key>, flat: seq<Key>, settled: set<(string, string)>,
                     cases: seq<Case>, revisions: seq<string>)
    requires PlanInv(before, planned, flat, settled, cases, revisions)
    requires settled == Pairs(revisions, cases)
    ensures forall k | Planned(cases, revisions, k) :: k in planned || k in flat
  {
    forall k | Planned(cases, revisions, k)
      ensures k in planned || k in flat
    {
      assert (k.revision, k.id) in settled;
    }
  }
}
