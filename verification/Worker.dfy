/** `run_worker`: one subprocess, the assembly of its rows and the retry recursion. */
module Worker {

  import opened Prelude

  /** `Written` rows come from a worker process; the two errors are the coordinator's own. */
  datatype Source = Written(ok: bool) | Interrupted | NotAttempted

  datatype Row = Row(seed: nat, mode: string, source: Source)

  /** What one process did: the seeds it was given, the rows it completed, whether it was
      killed for silence, and whether a hook ended the whole call. */
  datatype Launch = Launch(seeds: seq<nat>, rows: seq<Row>, timedOut: bool, aborted: bool)

  datatype Result = Rows(rows: seq<Row>) | Unrequested | Aborted

  function Seeds(rows: seq<Row>): (seeds: seq<nat>)
    ensures |seeds| == |rows|
    ensures forall i :: 0 <= i < |rows| ==> seeds[i] == rows[i].seed
  {
    seq(|rows|, i requires 0 <= i < |rows| => rows[i].seed)
  }

  /** The processes that were started. What a process does is up to the environment. */
  class Processes {
    var launches: seq<Launch>

    constructor ()
      ensures launches == []
    {
      launches := [];
    }

    method Run(seeds: seq<nat>) returns (launch: Launch)
      modifies this
      ensures launches == old(launches) + [launch]
      ensures launch.seeds == seeds
      ensures Genuine(launch)
    {
      var any: Launch := *;
      launch := any.(seeds := seeds);
      if exists k | 0 <= k < |launch.rows| :: !launch.rows[k].source.Written? { launch := launch.(rows := []); }
      launches := launches + [launch];
    }
  }

  /** Only workers write to their results file. */
  ghost predicate Genuine(launch: Launch) {
    forall row :: row in launch.rows ==> row.source.Written?
  }

  function SeenIn(rows: seq<Row>): set<nat> {
    set row | row in rows :: row.seed
  }

  /** The rows are for requested seeds, once each and of the job's mode. */
  predicate Requested(rows: seq<Row>, seeds: seq<nat>, mode: string) {
    && (forall i :: 0 <= i < |rows| ==> rows[i].seed in seeds && rows[i].mode == mode)
    && (forall i, j :: 0 <= i < j < |rows| ==> rows[i].seed != rows[j].seed)
  }

  method Seen(rows: seq<Row>, seeds: seq<nat>, mode: string) returns (seen: set<nat>, valid: bool)
    ensures valid <==> Requested(rows, seeds, mode)
    ensures valid ==> seen == SeenIn(rows)
  {
    seen, valid := {}, true;
    for k := 0 to |rows|
      invariant valid && Requested(rows[..k], seeds, mode)
      invariant seen == set i | 0 <= i < k :: rows[i].seed
    {
      if rows[k].seed !in seeds || rows[k].seed in seen || rows[k].mode != mode {
        valid := false;
        assert rows[k].seed in seen ==> exists i :: 0 <= i < k && rows[i].seed == rows[k].seed;
        return;
      }
      seen := seen + {rows[k].seed};
    }
    assert rows[..|rows|] == rows;
  }

  /** The requested seeds without a row, in order. */
  function Pending(seeds: seq<nat>, seen: set<nat>): (r: seq<nat>)
    ensures |r| <= |seeds|
  {
    if seeds == [] then []
    else if seeds[0] in seen then Pending(seeds[1..], seen)
    else [seeds[0]] + Pending(seeds[1..], seen)
  }

  /** Each occurrence of each seed that was not seen, and nothing else. */
  lemma {:induction false} PendingCounts(seeds: seq<nat>, seen: set<nat>)
    ensures forall s :: multiset(Pending(seeds, seen))[s] == if s in seen then 0 else multiset(seeds)[s]
  {
    if seeds != [] {
      assert seeds == [seeds[0]] + seeds[1..];
      PendingCounts(seeds[1..], seen);
    }
  }

  function ErrorRows(seeds: seq<nat>, mode: string): (rows: seq<Row>)
    ensures Seeds(rows) == seeds
    ensures forall row :: row in rows ==> row.mode == mode && row.source == NotAttempted
  {
    seq(|seeds|, i requires 0 <= i < |seeds| => Row(seeds[i], mode, NotAttempted))
  }

  /** Every requested seed has a row and no other seed has one; exactly one each when the
      request names each seed once. */
  ghost predicate Covers(rows: seq<Row>, seeds: seq<nat>, mode: string) {
    && (forall row :: row in rows ==> row.mode == mode)
    && (forall s :: s in Seeds(rows) <==> s in seeds)
    && (Distinct(seeds) ==> multiset(Seeds(rows)) == multiset(seeds))
  }

  /** The rows say what happened in these launches: every row that any of them completed is there
      and no other written one, and seeds are left out only after a process that ended by itself. */
  ghost predicate Reports(rows: seq<Row>, launches: seq<Launch>) {
    && (forall row :: row in rows && row.source.Written? ==> exists l :: l in launches && row in l.rows)
    && (forall l, row :: l in launches && row in l.rows ==> row in rows)
    && (forall row :: row in rows && row.source == NotAttempted ==> launches != [] && !launches[|launches| - 1].timedOut)
  }

  lemma SeedsConcat(a: seq<Row>, b: seq<Row>)
    ensures Seeds(a + b) == Seeds(a) + Seeds(b)
  {
  }

  lemma {:induction false} DistinctMultiset(seeds: seq<nat>)
    requires Distinct(seeds)
    ensures forall s :: s in seeds ==> multiset(seeds)[s] == 1
  {
    if seeds != [] {
      assert seeds == [seeds[0]] + seeds[1..];
      DistinctMultiset(seeds[1..]);
    }
  }

  lemma {:induction false} CountsDistinct(seeds: seq<nat>)
    requires forall s :: multiset(seeds)[s] <= 1
    ensures Distinct(seeds)
  {
    forall i, j | 0 <= i < j < |seeds|
      ensures seeds[i] != seeds[j]
    {
      assert seeds == seeds[..i] + [seeds[i]] + seeds[i + 1..j] + [seeds[j]] + seeds[j + 1..];
      assert multiset(seeds)[seeds[i]] <= 1;
    }
  }

  /** The rows of one process and rows for what it left pending cover the request. */
  lemma AssemblyCovers(written: seq<Row>, rest: seq<Row>, seeds: seq<nat>, mode: string)
    requires Requested(written, seeds, mode)
    requires Covers(rest, Pending(seeds, SeenIn(written)), mode)
    ensures Covers(written + rest, seeds, mode)
  {
    var seen := SeenIn(written);
    var pending := Pending(seeds, seen);
    PendingCounts(seeds, seen);
    SeedsConcat(written, rest);
    forall s
      ensures s in Seeds(written + rest) <==> s in seeds
    {
      assert s in Seeds(written) <==> s in seen;
      assert s in pending <==> multiset(pending)[s] > 0;
      assert s in seeds <==> multiset(seeds)[s] > 0;
    }
    if Distinct(seeds) {
      DistinctMultiset(seeds);
      DistinctMultiset(Seeds(written));
      forall s
        ensures multiset(pending)[s] <= 1
      {
        assert s in seeds <==> multiset(seeds)[s] > 0;
      }
      CountsDistinct(pending);
      forall s
        ensures multiset(Seeds(written + rest))[s] == multiset(seeds)[s]
      {
        assert multiset(Seeds(written + rest)) == multiset(Seeds(written)) + multiset(pending);
        assert s in Seeds(written) <==> s in seen;
        assert s in Seeds(written) <==> multiset(Seeds(written))[s] > 0;
        assert s in seeds <==> multiset(seeds)[s] > 0;
      }
    }
  }

  /** The interrupted seed's row and the rows of the later seeds cover what was pending. */
  lemma ErrorFirst(first: Row, rest: seq<Row>, pending: seq<nat>, mode: string)
    requires pending != [] && first.seed == pending[0] && first.mode == mode
    requires Covers(rest, pending[1..], mode)
    ensures Covers([first] + rest, pending, mode)
  {
    SeedsConcat([first], rest);
    assert pending == [pending[0]] + pending[1..];
    assert Seeds([first]) == [pending[0]];
  }

  /** The last process, with the coordinator's own rows for what it left pending. */
  lemma ReportsLast(launch: Launch, own: seq<Row>)
    requires Genuine(launch)
    requires forall row :: row in own ==> row.source == Interrupted || (row.source == NotAttempted && !launch.timedOut)
    ensures Reports(launch.rows + own, [launch])
  {
    assert [launch][0] == launch;
  }

  /** A process that was killed, the interrupted seed and everything its successors reported. */
  lemma ReportsRetried(launch: Launch, first: Row, rest: seq<Row>, later: seq<Launch>)
    requires Genuine(launch)
    requires first.source == Interrupted && later != [] && Reports(rest, later)
    ensures Reports(launch.rows + ([first] + rest), [launch] + later)
  {
    var rows, launches := launch.rows + ([first] + rest), [launch] + later;
    assert launches[|launches| - 1] == later[|later| - 1];
    assert launches[0] == launch;
    forall row | row in rows && row.source.Written?
      ensures exists l :: l in launches && row in l.rows
    {
      if row in launch.rows {
        assert launch in launches;
      } else {
        var l :| l in later && row in l.rows;
        assert l in launches;
      }
    }
  }

  /** What a call that returns rows promises about them and about the processes it started. */
  ghost predicate Accounted(rows: seq<Row>, seeds: seq<nat>, mode: string, launches: seq<Launch>) {
    Covers(rows, seeds, mode) && Reports(rows, launches)
  }

  lemma NothingPending(launch: Launch, seeds: seq<nat>, mode: string)
    requires Genuine(launch) && Requested(launch.rows, seeds, mode)
    requires Pending(seeds, SeenIn(launch.rows)) == []
    ensures Accounted(launch.rows, seeds, mode, [launch])
  {
    AssemblyCovers(launch.rows, [], seeds, mode);
    ReportsLast(launch, []);
    assert launch.rows + [] == launch.rows;
  }

  lemma LostRest(launch: Launch, seeds: seq<nat>, mode: string, pending: seq<nat>)
    requires Genuine(launch) && Requested(launch.rows, seeds, mode)
    requires pending == Pending(seeds, SeenIn(launch.rows)) && pending != []
    requires launch.timedOut ==> |pending| == 1
    ensures Accounted(
              launch.rows + ([Row(pending[0], mode, Interrupted)] + ErrorRows(pending[1..], mode)), seeds, mode, [launch])
  {
    var own := [Row(pending[0], mode, Interrupted)] + ErrorRows(pending[1..], mode);
    ErrorFirst(own[0], ErrorRows(pending[1..], mode), pending, mode);
    AssemblyCovers(launch.rows, own, seeds, mode);
    ReportsLast(launch, own);
  }

  lemma RetriedRest(
      launch: Launch, seeds: seq<nat>, mode: string, pending: seq<nat>, rest: seq<Row>, later: seq<Launch>)
    requires Genuine(launch) && Requested(launch.rows, seeds, mode)
    requires pending == Pending(seeds, SeenIn(launch.rows)) && pending != [] && later != []
    requires Accounted(rest, pending[1..], mode, later)
    ensures Accounted(launch.rows + ([Row(pending[0], mode, Interrupted)] + rest), seeds, mode, [launch] + later)
  {
    var first := Row(pending[0], mode, Interrupted);
    ErrorFirst(first, rest, pending, mode);
    AssemblyCovers(launch.rows, [first] + rest, seeds, mode);
    ReportsRetried(launch, first, rest, later);
  }

  /** A process that was killed for silence is followed by one for the seeds that it left pending,
      without the interrupted one. */
  ghost predicate Succeeds(launch: Launch, next: Launch, mode: string) {
    && launch.timedOut && !launch.aborted && Requested(launch.rows, launch.seeds, mode)
    && var pending := Pending(launch.seeds, SeenIn(launch.rows));
       |pending| > 1 && next.seeds == pending[1..]
  }

  /** Returns exactly one row per requested seed, whatever the processes do, with at most one
      launch per requested seed; and raises exactly when the last process was aborted or wrote rows
      that it was not asked for. */
  method RunWorker(seeds: seq<nat>, mode: string, processes: Processes) returns (result: Result, ghost used: seq<Launch>)
    requires seeds != []
    modifies processes
    ensures processes.launches == old(processes.launches) + used
    ensures 1 <= |used| <= |seeds|
    ensures result.Rows? ==> Accounted(result.rows, seeds, mode, used)
    ensures result.Aborted? <==> used[|used| - 1].aborted
    ensures result.Unrequested? <==> !used[|used| - 1].aborted && !Requested(used[|used| - 1].rows, used[|used| - 1].seeds, mode)
    ensures used[0].seeds == seeds && forall k | 0 <= k < |used| - 1 :: Succeeds(used[k], used[k + 1], mode)
    decreases |seeds|
  {
    var launch := processes.Run(seeds);
    used := [launch];
    if launch.aborted { return Aborted, used; }
    var seen, valid := Seen(launch.rows, seeds, mode);
    if !valid { return Unrequested, used; }
    var pending := Pending(seeds, seen);
    if pending == [] {
      NothingPending(launch, seeds, mode);
      return Rows(launch.rows), used;
    }
    var first := Row(pending[0], mode, Interrupted);
    if launch.timedOut && |pending| > 1 {
      var again, later := RunWorker(pending[1..], mode, processes);
      used := [launch] + later;
      if !again.Rows? { return again, used; }
      RetriedRest(launch, seeds, mode, pending, again.rows, later);
      return Rows(launch.rows + ([first] + again.rows)), used;
    }
    LostRest(launch, seeds, mode, pending);
    return Rows(launch.rows + ([first] + ErrorRows(pending[1..], mode))), used;
  }
}
