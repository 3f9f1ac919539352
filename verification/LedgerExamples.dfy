/** Runs of the ledger that do happen, from its beginning. */
module LedgerExamples {

  import opened Prelude
  import opened Ledger
  import opened Orchestration

  lemma StepFirst(w: World, ev: Event, next: World, run: seq<Event>, end: World)
    requires Step(w, ev) == Some(next) && Reaches(next, run, end)
    ensures Reaches(w, [ev] + run, end)
  {
    assert ([ev] + run)[1..] == run;
  }

  lemma OneEntry(b: Book, e: Entry, e': Entry)
    requires b.entries == [e] && e'.key == e.key
    ensures HasKey(b.entries, e.key) && Lookup(b.entries, e.key) == e && Updating(b, e') == b.(entries := [e'])
  {
    assert b.entries[0] == e;
    assert IndexOfKey(b.entries, e.key) == 0 && b.entries[0 := e'] == [e'];
  }

  lemma TwoEntries(b: Book, d: Entry, e: Entry, e': Entry)
    requires b.entries == [d, e] && e'.key == e.key != d.key
    ensures HasKey(b.entries, e.key) && Lookup(b.entries, e.key) == e && Updating(b, e') == b.(entries := [d, e'])
  {
    assert b.entries[1] == e && b.entries[1..] == [e];
    assert IndexOfKey([e], e.key) == 0 && IndexOfKey(b.entries, e.key) == 1 && b.entries[1 := e'] == [d, e'];
  }

  /** A job whose submission the manager did not survive turns out not to exist; it is given up,
      and stays on the books as lost. */
  lemma LostExample() returns (run: seq<Event>, end: World)
    ensures Reaches(START, run, end)
    ensures end.book.entries == [Entry(1, Quality, 0, 0, 5, Unreconciled, Some(Lost), Some(true))] && end.lsf == map[]
  {
    var e := Entry(1, Quality, 0, 0, 5, Reserved, None, None);
    var w1 := World(Book([e], 0, None, false), map[], Submitting(1, 0));
    var w2 := w1.(lsf := map[1 := Limbo], pc := Idle);
    var w3 := w2.(lsf := map[]);
    run, end := GivenUpExample(w3, e);
    assert map[1 := Limbo] - {1} == map[] && map[][1 := Limbo] == map[1 := Limbo];
    StepFirst(w2, Vanish(1), w3, run, end);
    run := [Vanish(1)] + run;
    StepFirst(w1, Crash(Some(Limbo)), w2, run, end);
    run := [Crash(Some(Limbo))] + run;
    assert START.book.entries + [e] == [e];
    StepFirst(START, Reserve(Quality, 1, 5), w1, run, end);
    run := [Reserve(Quality, 1, 5)] + run;
  }

  lemma GivenUpExample(w: World, e: Entry) returns (run: seq<Event>, end: World)
    requires w == World(Book([e], 0, None, false), map[], Idle) && e.status == Reserved
    ensures Reaches(w, run, end)
    ensures end == w.(book := Book([e.(status := Unreconciled, outcome := Some(Lost), consumes := Some(true))], 0, None, false))
  {
    var lost := e.(status := Unreconciled);
    var given := w.(book := Book([lost], 0, None, false));
    end := w.(book := Book([lost.(outcome := Some(Lost), consumes := Some(true))], 0, None, false));
    OneEntry(w.book, e, lost);
    OneEntry(given.book, lost, end.book.entries[0]);
    run := [];
    StepFirst(given, WriteLost(e.key), end, run, end);
    run := [WriteLost(e.key)] + run;
    StepFirst(w, GiveUp(e.key), given, run, end);
    run := [GiveUp(e.key)] + run;
  }

  /** A noisy cost job is followed by a second one, which LSF refuses three times; the session is
      stopped and resumed. */
  lemma NoisyExample() returns (run: seq<Event>, end: World)
    ensures Reaches(START, run, end)
    ensures end.book == Book([Entry(1, Cost, 1, 0, 5, Terminal, Some(Noisy), Some(true)), Entry(2, Cost, 2, 0, 9, Rejected, None, None)],
                             1, None, false)
    ensures end.lsf == map[1 := Ended] && end.pc == Idle
  {
    var e := Entry(1, Cost, 1, 0, 5, Reserved, None, None);
    var w1 := World(Book([e], 0, None, false), map[], Submitting(1, 0));
    var w4 := World(Book([e.(status := Terminal, outcome := Some(Noisy), consumes := Some(true))], 0, None, false), map[1 := Ended], Idle);
    run, end := RefusedExample(w4);
    run := EndedExample(w1, e, w4, run, end);
    assert START.book.entries + [e] == [e];
    StepFirst(START, Reserve(Cost, 1, 5), w1, run, end);
    run := [Reserve(Cost, 1, 5)] + run;
  }

  lemma EndedExample(w: World, e: Entry, noisy: World, later: seq<Event>, end: World) returns (run: seq<Event>)
    requires w == World(Book([e], 0, None, false), map[], Submitting(e.key, 0)) && e.status == Reserved && Reaches(noisy, later, end)
    requires noisy == World(Book([e.(status := Terminal, outcome := Some(Noisy), consumes := Some(true))], 0, None, false), map[e.key := Ended], Idle)
    ensures Reaches(w, run, end)
  {
    var submitted := e.(status := Submitted);
    var w2 := World(Book([submitted], 0, None, false), map[e.key := Live], Idle);
    var w3 := w2.(lsf := map[e.key := Ended]);
    OneEntry(w.book, e, submitted);
    OneEntry(w3.book, submitted, noisy.book.entries[0]);
    assert map[][e.key := Live] == map[e.key := Live] && map[e.key := Live][e.key := Ended] == map[e.key := Ended];
    StepFirst(w3, Settle(e.key, Noisy), noisy, later, end);
    run := [Settle(e.key, Noisy)] + later;
    StepFirst(w2, End(e.key), w3, run, end);
    run := [End(e.key)] + run;
    StepFirst(w, Bsub(Accepted), w2, run, end);
    run := [Bsub(Accepted)] + run;
  }

  lemma RefusedExample(w: World) returns (run: seq<Event>, end: World)
    requires w == World(Book([Entry(1, Cost, 1, 0, 5, Terminal, Some(Noisy), Some(true))], 0, None, false), map[1 := Ended], Idle)
    ensures Reaches(w, run, end)
    ensures end.book == Book([w.book.entries[0], Entry(2, Cost, 2, 0, 9, Rejected, None, None)], 1, None, false)
    ensures end.lsf == map[1 := Ended] && end.pc == Idle
  {
    var e := Entry(2, Cost, 2, 0, 9, Reserved, None, None);
    var w1 := w.(book := Book([w.book.entries[0], e], 0, None, false), pc := Submitting(2, 0));
    run, end := RejectedExample(w1, w.book.entries[0], e);
    assert w.book.entries + [e] == [w.book.entries[0], e];
    SecondAllowed(w.book);
    StepFirst(w, Reserve(Cost, 2, 9), w1, run, end);
    run := [Reserve(Cost, 2, 9)] + run;
  }

  lemma RejectedExample(w: World, d: Entry, e: Entry) returns (run: seq<Event>, end: World)
    requires w.book == Book([d, e], 0, None, false) && w.pc == Submitting(e.key, 0)
    requires !Owned(d) && e.status == Reserved && d.key != e.key
    ensures Reaches(w, run, end)
    ensures end == World(Book([d, e.(status := Rejected)], 1, None, false), w.lsf, Idle)
  {
    var w2, w3, w4 := w.(pc := Submitting(e.key, 1)), w.(pc := Submitting(e.key, 2)), w.(pc := Submitting(e.key, 3));
    var w5 := World(Book([d, e.(status := Rejected)], 0, None, false), w.lsf, Idle);
    run, end := ResumedExample(w5, d, e.(status := Rejected));
    TwoEntries(w.book, d, e, e.(status := Rejected));
    StepFirst(w4, WriteRejected, w5, run, end);
    run := [WriteRejected] + run;
    StepFirst(w3, Bsub(Refused), w4, run, end);
    run := [Bsub(Refused)] + run;
    StepFirst(w2, Bsub(Refused), w3, run, end);
    run := [Bsub(Refused)] + run;
    StepFirst(w, Bsub(Refused), w2, run, end);
    run := [Bsub(Refused)] + run;
  }

  lemma ResumedExample(w: World, d: Entry, e: Entry) returns (run: seq<Event>, end: World)
    requires w.book == Book([d, e], 0, None, false) && w.pc == Idle && !Owned(d) && !Owned(e)
    ensures Reaches(w, run, end) && end == w.(book := Book([d, e], 1, None, false))
  {
    var stopped := w.(book := w.book.(stopped := true));
    end := w.(book := Book([d, e], 1, None, false));
    run := [];
    StepFirst(stopped, Resume, end, run, end);
    run := [Resume] + run;
    StepFirst(w, Stop, stopped, run, end);
    run := [Stop] + run;
  }

  lemma SecondAllowed(b: Book)
    requires b == Book([Entry(1, Cost, 1, 0, 5, Terminal, Some(Noisy), Some(true))], 0, None, false)
    ensures MaySubmit(b, Cost) && AttemptFor(b, Cost) == 2
  {
    var e := b.entries[0];
    assert b.entries == [e] && [e][1..] == [] && [e][..0] == [];
    assert Tries([], Cost, 0) == [] && Tries([e], Cost, 0) == [e];
    assert CountTried([], 0) == 0 && CountTried(b.entries, 0) == 1;
    assert Orderly(b.entries, 0);
    DecideMeans(b);
  }

  /** A submission without a clear answer turns out to be there, and is found by its name. */
  lemma FoundExample() returns (run: seq<Event>, end: World)
    ensures Reaches(START, run, end)
    ensures end.book.entries == [Entry(1, Quality, 0, 0, 5, Submitted, None, None)] && end.lsf == map[1 := Live]
  {
    var e := Entry(1, Quality, 0, 0, 5, Reserved, None, None);
    var unclear := e.(status := Ambiguous);
    var w1 := World(Book([e], 0, None, false), map[], Submitting(1, 0));
    var w2 := World(Book([unclear], 0, None, false), map[1 := Limbo], Idle);
    var w3 := w2.(lsf := map[1 := Live]);
    end := w3.(book := Book([e.(status := Submitted)], 0, None, false));
    assert START.book.entries + [e] == [e];
    OneEntry(w1.book, e, unclear);
    OneEntry(w3.book, unclear, e.(status := Submitted));
    assert map[][1 := Limbo] == map[1 := Limbo] && map[1 := Limbo][1 := Live] == map[1 := Live];
    run := [];
    StepFirst(w3, Found(1), end, run, end);
    run := [Found(1)] + run;
    StepFirst(w2, Appear(1), w3, run, end);
    run := [Appear(1)] + run;
    StepFirst(w1, Bsub(Unclear(Limbo)), w2, run, end);
    run := [Bsub(Unclear(Limbo))] + run;
    StepFirst(START, Reserve(Quality, 1, 5), w1, run, end);
    run := [Reserve(Quality, 1, 5)] + run;
  }
}
