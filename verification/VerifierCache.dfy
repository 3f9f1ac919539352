/** `verify_many`: verifier results cached by content, batches that may die at any job, and the
    loop that gives what is left a gained process. */
module VerifierCache {

  import opened Prelude

  /** The content a verification depends on; digests of it are taken to be injective. */
  type Key = string

  datatype Verdict = Verified | Mismatch | Indecisive(detail: string)

  /** `stopped` marks the coordinator's own result for the job that ended its process. */
  datatype Result = Result(verdict: Verdict, stopped: bool, cached: bool)

  /** A cache file: a saved result, or something unreadable. */
  datatype Entry = Saved(verdict: Verdict) | Damaged

  predicate Decisive(v: Verdict): (decisive: bool)
    ensures decisive <==> !v.Indecisive?
  {
    v == Verified || v == Mismatch
  }

  /** A result of `key` that rests on the verifier's own answer, or on a stopped process. */
  ghost predicate Faithful(r: Result, key: Key, truth: Key -> Verdict) {
    if r.stopped then !Decisive(r.verdict) && !r.cached
    else r.verdict == truth(key) && (r.cached ==> Decisive(r.verdict))
  }

  /** Every decisive entry is the verifier's answer. */
  ghost predicate Sound(cache: map<Key, Entry>, truth: Key -> Verdict) {
    forall key :: key in cache && cache[key].Saved? && Decisive(cache[key].verdict) ==> cache[key].verdict == truth(key)
  }

  ghost function KeySet(keys: seq<Key>): set<Key> {
    set k | k in keys
  }

  lemma PrefixKeys(keys: seq<Key>, i: nat, end: nat)
    requires i <= end <= |keys|
    ensures KeySet(keys[..end]) == KeySet(keys[..i]) + KeySet(keys[i..end])
  {
    assert keys[..end] == keys[..i] + keys[i..end];
  }

  ghost function Stopped(results: map<Key, Result>): set<Key> {
    set k | k in results && results[k].stopped
  }

  /** The distinct requests that were not verified because their process ended. */
  ghost function StoppedKeys(keys: seq<Key>, answers: seq<Result>): set<Key>
    requires |answers| == |keys|
  {
    set i | 0 <= i < |keys| && answers[i].stopped :: keys[i]
  }

  lemma SubsetSize<T>(a: set<T>, b: set<T>)
    requires a <= b
    ensures |a| <= |b|
  {
    assert b == a + (b - a);
  }

  lemma StoppedUnion(a: map<Key, Result>, b: map<Key, Result>)
    ensures |Stopped(a + b)| <= |Stopped(a)| + |Stopped(b)|
  {
    var both := Stopped(a) + Stopped(b);
    forall k | k in Stopped(a + b)
      ensures k in both
    {
      assert (a + b)[k] == if k in b then b[k] else a[k];
    }
    SubsetSize(Stopped(a + b), both);
    assert both == Stopped(a) + (Stopped(b) - Stopped(a));
    SubsetSize(Stopped(b) - Stopped(a), Stopped(b));
  }

  lemma AnswersStopped(keys: seq<Key>, answers: seq<Result>, results: map<Key, Result>)
    requires |answers| == |keys|
    requires forall i :: 0 <= i < |keys| ==> keys[i] in results && answers[i] == results[keys[i]]
    ensures |StoppedKeys(keys, answers)| <= |Stopped(results)|
    ensures |StoppedKeys(keys, answers)| == 0 ==> forall i :: 0 <= i < |keys| ==> !answers[i].stopped
  {
    SubsetSize(StoppedKeys(keys, answers), Stopped(results));
    forall i | 0 <= i < |keys| && answers[i].stopped
      ensures |StoppedKeys(keys, answers)| > 0
    {
      assert keys[i] in StoppedKeys(keys, answers);
    }
  }

  /** What `count` full batches hold. */
  function Held(count: nat, size: nat): nat {
    if count == 0 then 0 else Held(count - 1, size) + size
  }

  lemma {:induction false} HeldGrows(few: nat, many: nat, size: nat)
    requires few <= many
    ensures Held(few, size) <= Held(many, size)
    decreases many
  {
    if few < many { HeldGrows(few, many - 1, size); }
  }

  lemma {:induction false} HeldIsProduct(count: nat, size: nat)
    ensures Held(count, size) == count * size
  {
    if count > 0 { HeldIsProduct(count - 1, size); }
  }

  /** An equal share for each worker, rounded up, but at least one and at most 50. */
  function BatchSize(n: nat, workers: nat): nat
    requires workers > 0
  {
    var share := (n + workers - 1) / workers;
    var least := if share < 50 then share else 50;
    if least < 1 then 1 else least
  }

  lemma BatchesSuffice(n: nat, workers: nat)
    requires workers > 0
    ensures 1 <= BatchSize(n, workers) <= 50
    ensures BatchSize(n, workers) < 50 ==> Held(workers, BatchSize(n, workers)) >= n
  {
    var share := (n + workers - 1) / workers;
    assert share * workers + (n + workers - 1) % workers == n + workers - 1;
    HeldIsProduct(workers, BatchSize(n, workers));
    if share < 1 { assert n == 0; }
  }

  /** Batches up to `i`: full ones, and a last one that reaches the end. */
  ghost predicate Batched(sizes: seq<nat>, size: nat, i: nat, n: nat) {
    && (i < n ==> i == Held(|sizes|, size))
    && (sizes != [] ==> Held(|sizes| - 1, size) < n)
    && (forall k | 0 <= k < |sizes| :: 1 <= sizes[k] <= size)
    && (forall k | 0 <= k < |sizes| :: i < n || k < |sizes| - 1 ==> sizes[k] == size)
  }

  lemma BatchedNext(sizes: seq<nat>, size: nat, i: nat, end: nat, n: nat)
    requires Batched(sizes, size, i, n) && i < n && size > 0 && end == if i + size < n then i + size else n
    ensures Batched(sizes + [end - i], size, end, n)
  {
  }

  /** All batches are small enough, and there are no more of them than workers unless they are full. */
  ghost predicate Shared(sizes: seq<nat>, workers: nat) {
    && (forall k | 0 <= k < |sizes| :: 1 <= sizes[k] <= 50)
    && (|sizes| <= workers || forall k | 0 <= k < |sizes| - 1 :: sizes[k] == 50)
  }

  lemma BatchedIsShared(sizes: seq<nat>, n: nat, workers: nat)
    requires workers > 0 && Batched(sizes, BatchSize(n, workers), n, n)
    ensures Shared(sizes, workers)
  {
    BatchesSuffice(n, workers);
    var size := BatchSize(n, workers);
    if workers <= |sizes| - 1 { HeldGrows(workers, |sizes| - 1, size); }
  }

  class Coordinator {
    /** What the pinned verifier says about a job when it runs to the end. */
    const truth: Key -> Verdict
    const workers: nat
    var cache: map<Key, Entry>
    /** How many verifier processes ended before their last job. */
    var deaths: nat

    constructor (truth: Key -> Verdict, workers: nat)
      requires workers > 0
      ensures this.truth == truth && this.workers == workers && cache == map[] && deaths == 0
    {
      this.truth, this.workers, cache, deaths := truth, workers, map[], 0;
    }

    ghost predicate Valid()
      reads this
    {
      workers > 0 && Sound(cache, truth)
    }

    /** One verifier process over a batch: the result files it leaves behind. */
    method RunBatch(chunk: seq<Key>) returns (written: map<Key, Verdict>)
      modifies `deaths
      ensures forall k :: k in written ==> k in chunk && written[k] == truth(k)
      ensures deaths == old(deaths) + if exists k :: k in chunk && k !in written then 1 else 0
    {
      var finished: set<Key> := *;
      written := map k | k in finished && k in chunk :: truth(k);
      if exists k | k in chunk :: k !in written { deaths := deaths + 1; }
    }

    /** Gives every job of the chunk a result. The first job without one is the one that ended
        the process; the rest get a gained process, so this ends after at most one per job. */
    method VerifyChunk(jobs: seq<Key>) returns (results: map<Key, Result>)
      requires Distinct(jobs)
      modifies `deaths
      ensures results.Keys == KeySet(jobs)
      ensures forall k :: k in results ==> Faithful(results[k], k, truth) && !results[k].cached
      ensures old(deaths) + |Stopped(results)| <= deaths <= old(deaths) + |jobs|
    {
      results := map[];
      var chunk := jobs;
      while chunk != []
        invariant Distinct(chunk) && |chunk| <= |jobs|
        invariant forall k :: k in jobs <==> k in chunk || k in results
        invariant forall k :: k in chunk ==> k !in results
        invariant forall k :: k in results ==> Faithful(results[k], k, truth) && !results[k].cached
        invariant old(deaths) + |Stopped(results)| <= deaths <= old(deaths) + |jobs| - |chunk|
        decreases |chunk|
      {
        var written := RunBatch(chunk);
        var more, missing := Collect(chunk, written);
        StoppedUnion(results, more);
        assert Stopped(more) == {};
        results := results + more;
        if missing == [] {
          break;
        }
        ghost var own := map[missing[0] := Result(Indecisive("stopped"), true, false)];
        StoppedUnion(results, own);
        SubsetSize(Stopped(own), {missing[0]});
        assert results + own == results[missing[0] := own[missing[0]]];
        results := results[missing[0] := Result(Indecisive("stopped"), true, false)];
        chunk := missing[1..];
      }
    }

    /** Splits a batch into the results that were written and the jobs without one, in order. */
    method Collect(chunk: seq<Key>, written: map<Key, Verdict>) returns (results: map<Key, Result>, missing: seq<Key>)
      requires Distinct(chunk)
      requires forall k :: k in written ==> written[k] == truth(k)
      ensures Distinct(missing) && |missing| <= |chunk|
      ensures forall k :: k in chunk <==> k in missing || k in results
      ensures forall k :: k in missing ==> k !in results && k !in written
      ensures forall k :: k in results ==> results[k] == Result(truth(k), false, false)
    {
      results, missing := map[], [];
      for i := 0 to |chunk|
        invariant Distinct(missing) && |missing| <= i
        invariant forall k :: k in missing ==> k in chunk[..i] && k !in results && k !in written
        invariant forall k :: k in results ==> k in chunk[..i] && results[k] == Result(truth(k), false, false)
        invariant forall j :: 0 <= j < i ==> chunk[j] in missing || chunk[j] in results
      {
        assert chunk[i] !in chunk[..i];
        if chunk[i] in written {
          results := results[chunk[i] := Result(written[chunk[i]], false, false)];
        } else {
          missing := missing + [chunk[i]];
        }
      }
    }

    /** A result of its own for each of these jobs, of which no more were stopped than `deaths`. */
    ghost predicate Ran(results: map<Key, Result>, keys: seq<Key>, gone: int) {
      && results.Keys == KeySet(keys)
      && (forall k :: k in results ==> Faithful(results[k], k, truth) && !results[k].cached)
      && |Stopped(results)| <= gone
    }

    method RunNext(pending: seq<Key>, merged: map<Key, Result>, i: nat, end: nat, ghost start: nat) returns (more: map<Key, Result>)
      requires Distinct(pending) && i <= end <= |pending| && Ran(merged, pending[..i], deaths - start)
      modifies `deaths
      ensures Ran(more, pending[..end], deaths - start)
    {
      var results := VerifyChunk(pending[i..end]);
      PrefixKeys(pending, i, end);
      StoppedUnion(merged, results);
      more := merged + results;
    }

    /** All pending jobs, in batches of at most 50; no more batches than workers unless full ones. */
    method RunVerifier(pending: seq<Key>) returns (merged: map<Key, Result>, ghost sizes: seq<nat>)
      requires workers > 0 && Distinct(pending)
      modifies `deaths
      ensures merged.Keys == KeySet(pending)
      ensures forall k :: k in merged ==> Faithful(merged[k], k, truth) && !merged[k].cached
      ensures old(deaths) + |Stopped(merged)| <= deaths
      ensures Shared(sizes, workers)
    {
      var n, size := |pending|, BatchSize(|pending|, workers);
      BatchesSuffice(n, workers);
      merged, sizes := map[], [];
      assert Stopped(merged) == {};
      var i := 0;
      while i < n
        invariant 0 <= i <= n && Batched(sizes, size, i, n)
        invariant Ran(merged, pending[..i], deaths - old(deaths))
        decreases n - i
      {
        var end := if i + size < n then i + size else n;
        merged := RunNext(pending, merged, i, end, old(deaths));
        BatchedNext(sizes, size, i, end, n);
        sizes, i := sizes + [end - i], end;
      }
      assert pending[..n] == pending;
      BatchedIsShared(sizes, n, workers);
    }

    /** The cached results of these keys; what is unreadable or indecisive is not served. */
    method Lookup(keys: seq<Key>) returns (results: map<Key, Result>)
      requires Sound(cache, truth)
      ensures forall k :: k in results <==> k in keys && k in cache && cache[k].Saved? && Decisive(cache[k].verdict)
      ensures forall k :: k in results ==> results[k] == Result(truth(k), false, true)
    {
      results := map[];
      var rest := set k | k in keys;
      while rest != {}
        invariant rest <= set k | k in keys
        invariant forall k :: k in results ==> k in keys && k !in rest && results[k] == Result(truth(k), false, true)
        invariant forall k :: k in keys && k !in rest ==>
                    (k in results <==> k in cache && cache[k].Saved? && Decisive(cache[k].verdict))
        decreases |rest|
      {
        var k :| k in rest;
        rest := rest - {k};
        if k in cache && cache[k].Saved? && Decisive(cache[k].verdict) {
          results := results[k := Result(cache[k].verdict, false, true)];
        }
      }
    }

    /** The keys without a result, each once, in order of first request. */
    method Pending(keys: seq<Key>, results: map<Key, Result>) returns (pending: seq<Key>)
      ensures Distinct(pending)
      ensures forall k :: k in pending <==> k in keys && k !in results
    {
      pending := [];
      for i := 0 to |keys|
        invariant Distinct(pending)
        invariant forall k :: k in pending <==> k in keys[..i] && k !in results
      {
        assert keys[..i + 1] == keys[..i] + [keys[i]];
        if keys[i] !in results && keys[i] !in pending { pending := pending + [keys[i]]; }
      }
      assert keys[..|keys|] == keys;
    }

    /** Writes the decisive ones of the new results to the cache. */
    method Save(gained: map<Key, Result>)
      requires Sound(cache, truth) && forall k :: k in gained ==> Faithful(gained[k], k, truth)
      modifies `cache
      ensures Sound(cache, truth)
      ensures forall k :: k in gained && Decisive(gained[k].verdict) ==> k in cache && cache[k] == Saved(gained[k].verdict)
      ensures forall k :: k !in gained || !Decisive(gained[k].verdict) ==>
                (k in cache <==> k in old(cache)) && (k in cache ==> cache[k] == old(cache)[k])
    {
      var rest := gained.Keys;
      while rest != {}
        invariant rest <= gained.Keys && Sound(cache, truth)
        invariant forall k :: k in gained && k !in rest && Decisive(gained[k].verdict) ==>
                    k in cache && cache[k] == Saved(gained[k].verdict)
        invariant forall k :: k !in gained || k in rest || !Decisive(gained[k].verdict) ==>
                    (k in cache <==> k in old(cache)) && (k in cache ==> cache[k] == old(cache)[k])
        decreases |rest|
      {
        var k :| k in rest;
        rest := rest - {k};
        if Decisive(gained[k].verdict) { cache := cache[k := Saved(gained[k].verdict)]; }
      }
    }

    /** One result per request, however often processes die: a decisive one is what the verifier
        says about that request, an indecisive one is never from the cache, equal requests get
        equal results, and no more requests go unverified than processes died. */
    method VerifyMany(keys: seq<Key>) returns (answers: seq<Result>)
      requires Valid()
      modifies `cache, `deaths
      ensures Valid()
      ensures |answers| == |keys|
      ensures forall i :: 0 <= i < |keys| ==> Faithful(answers[i], keys[i], truth)
      ensures forall i, j :: 0 <= i < |keys| && 0 <= j < |keys| && keys[i] == keys[j] ==> answers[i] == answers[j]
      ensures old(deaths) + |StoppedKeys(keys, answers)| <= deaths
      ensures deaths == old(deaths) ==> forall i :: 0 <= i < |keys| ==> answers[i].verdict == truth(keys[i])
      ensures forall i :: 0 <= i < |keys| && Decisive(answers[i].verdict) ==>
                keys[i] in cache && cache[keys[i]] == Saved(truth(keys[i]))
      ensures forall k :: k in old(cache) && old(cache)[k].Saved? && Decisive(old(cache)[k].verdict) ==>
                k in cache && cache[k] == old(cache)[k]
    {
      if keys == [] { return []; }
      var results := Lookup(keys);
      assert Stopped(results) == {};
      var pending := Pending(keys, results);
      if pending != [] {
        var gained, _ := RunVerifier(pending);
        Save(gained);
        StoppedUnion(results, gained);
        results := results + gained;
      }
      answers := seq(|keys|, i requires 0 <= i < |keys| && keys[i] in results => results[keys[i]]);
      AnswersStopped(keys, answers, results);
    }
  }
}
