/** Every run of the orchestration: managers that crash and are requeued, submissions with an
    unclear answer, a scheduler that loses sight of jobs, and resumes.

    The world is the durable ledger, what LSF holds under each job's unique name, and the
    volatile position of the manager that holds the orchestration lock. */
module Orchestration {

  import opened Prelude
  import opened Ledger

  /** `Limbo`: `bsub` was called without a clear answer, and the job may yet appear. */
  datatype Life = Limbo | Live | Ended

  datatype Position = Idle | Submitting(key: nat, rejections: nat)

  datatype World = World(book: Book, lsf: map<nat, Life>, pc: Position)

  datatype Answer = Accepted | Refused | Unclear(life: Life)

  datatype Event =
    | Reserve(stage: Stage, key: nat, at: int)  // the intent to submit is written
    | Bsub(answer: Answer)                      // one call of bsub answers, and the answer is written
    | WriteRejected                             // enough refusals: the entry becomes rejected
    | Crash(during: Option<Life>)               // the manager dies, perhaps inside a call of bsub
    | Appear(key: nat) | Vanish(key: nat)       // a submission in limbo turns out
    | End(key: nat)                             // a job ends
    | Found(key: nat)                           // a lookup by name finds the job
    | GiveUp(key: nat)                          // lookups by name gave nothing for long
    | Settle(key: nat, kind: Kind)              // a terminal job's outcome is written
    | Lose(key: nat)                            // neither bjobs nor bhist knows the job
    | WriteLost(key: nat)                       // an unreconciled entry is settled as lost
    | Exhaust | Stop                            // the cost loop ends
    | Resume                                    // a new epoch begins

  function SetStatus(b: Book, key: nat, status: Status): Book
    requires HasKey(b.entries, key)
  {
    Updating(b, Lookup(b.entries, key).(status := status))
  }

  predicate Is(w: World, key: nat, status: Status) {
    HasKey(w.book.entries, key) && Lookup(w.book.entries, key).status == status
  }

  /** One step, or `None` when the event cannot happen. */
  function Step(w: World, ev: Event): Option<World> {
    match ev
    case Reserve(stage, key, at) =>
      if w.pc != Idle || HasKey(w.book.entries, key) || !MaySubmit(w.book, stage) then None
      else Some(w.(book := Reserving(w.book, Fresh(w.book, stage, AttemptFor(w.book, stage), key, at)), pc := Submitting(key, 0)))
    case Bsub(answer) =>
      if w.pc == Idle || !HasKey(w.book.entries, w.pc.key) || w.pc.rejections >= MAX_REJECTIONS then None
      else (match answer
            case Accepted => Some(World(SetStatus(w.book, w.pc.key, Submitted), w.lsf[w.pc.key := Live], Idle))
            case Unclear(life) => Some(World(SetStatus(w.book, w.pc.key, Ambiguous), w.lsf[w.pc.key := life], Idle))
            case Refused => Some(w.(pc := Submitting(w.pc.key, w.pc.rejections + 1))))
    case WriteRejected =>
      if w.pc == Idle || !HasKey(w.book.entries, w.pc.key) || w.pc.rejections < MAX_REJECTIONS then None
      else Some(World(SetStatus(w.book, w.pc.key, Rejected), w.lsf, Idle))
    case Crash(during) =>
      if during.Some? && w.pc == Idle then None
      else Some(World(w.book, if during.Some? then w.lsf[w.pc.key := during.value] else w.lsf, Idle))
    case Appear(key) => if key in w.lsf && w.lsf[key] == Limbo then Some(w.(lsf := w.lsf[key := Live])) else None
    case Vanish(key) => if key in w.lsf && w.lsf[key] == Limbo then Some(w.(lsf := w.lsf - {key})) else None
    case End(key) => if key in w.lsf && w.lsf[key] == Live then Some(w.(lsf := w.lsf[key := Ended])) else None
    case Found(key) =>
      if w.pc == Idle && (Is(w, key, Reserved) || Is(w, key, Ambiguous) || Is(w, key, Unreconciled)) && key in w.lsf && w.lsf[key] != Limbo
      then Some(w.(book := SetStatus(w.book, key, Submitted))) else None
    case GiveUp(key) =>
      if w.pc == Idle && (Is(w, key, Reserved) || Is(w, key, Ambiguous)) then Some(w.(book := SetStatus(w.book, key, Unreconciled))) else None
    case Settle(key, kind) =>
      if w.pc == Idle && Is(w, key, Submitted) && key in w.lsf && w.lsf[key] == Ended && kind != Lost
      then Some(w.(book := Settling(w.book, Lookup(w.book.entries, key), kind))) else None
    case Lose(key) =>
      if w.pc == Idle && Is(w, key, Submitted) then Some(w.(book := SetStatus(w.book, key, Unreconciled))) else None
    case WriteLost(key) =>
      if w.pc == Idle && Is(w, key, Unreconciled) then Some(w.(book := Settling(w.book, Lookup(w.book.entries, key), Lost))) else None
    case Exhaust =>
      if w.pc == Idle && Decide(w.book).exhausted && w.book.exhausted.None?
      then Some(w.(book := w.book.(exhausted := Some(BudgetUsed(w.book))))) else None
    case Stop =>
      if w.pc == Idle then Some(w.(book := w.book.(stopped := true))) else None
    case Resume =>
      if w.pc == Idle && forall i | 0 <= i < |w.book.entries| :: !Owned(w.book.entries[i]) then Some(w.(book := NextEpoch(w.book))) else None
  }

  const START: World := World(Book([], 0, None, false), map[], Idle)

  ghost predicate Reaches(w: World, run: seq<Event>, w': World)
    decreases |run|
  {
    if run == [] then w == w'
    else Step(w, run[0]).Some? && Reaches(Step(w, run[0]).value, run[1..], w')
  }

  // ----- What every step keeps

  predicate NoisySettled(e: Entry) {
    e.status == Terminal && e.outcome == Some(Noisy) && e.consumes == Some(true)
  }

  /** The entries, in the order they were reserved. */
  ghost predicate Orderly(entries: seq<Entry>, epoch: nat) {
    && (forall i, j | 0 <= i < j < |entries| :: entries[i].key != entries[j].key)
    && (forall i, j | 0 <= i < j < |entries| && entries[i].stage == Cost && entries[j].stage == Cost ::
          entries[i].attempt < entries[j].attempt)
    && (forall i | 0 <= i < |entries| :: Tidy(entries[i], epoch))
    && (forall i, j {:trigger entries[i], entries[j]} | 0 <= i < j < |entries| :: Succession(entries[i], entries[j]))
  }

  predicate Tidy(e: Entry, epoch: nat) {
    && e.epoch <= epoch
    && (e.epoch < epoch ==> !Owned(e))
    && (e.outcome == Some(Noisy) ==> NoisySettled(e))
  }

  /** Of two tries of one stage in one epoch, the earlier one is a settled noisy cost attempt. */
  predicate Succession(a: Entry, b: Entry) {
    a.stage == b.stage && a.epoch == b.epoch && a.status != Rejected && b.status != Rejected ==> a.stage == Cost && NoisySettled(a)
  }

  function CountTried(entries: seq<Entry>, epoch: nat): nat {
    if entries == [] then 0
    else CountTried(entries[..|entries| - 1], epoch) + if Tried(entries[|entries| - 1], Cost, epoch) then 1 else 0
  }

  ghost predicate WithinBudget(b: Book) {
    && (forall epoch :: CountTried(b.entries, epoch) <= MAX_COST_ATTEMPTS)
    && (b.exhausted.Some? ==> b.exhausted.value == MAX_COST_ATTEMPTS && AllNoisy(b.entries, b.epoch) && CountTried(b.entries, b.epoch) == MAX_COST_ATTEMPTS)
  }

  ghost predicate AllNoisy(entries: seq<Entry>, epoch: nat) {
    forall i | 0 <= i < |entries| && Tried(entries[i], Cost, epoch) :: NoisySettled(entries[i])
  }

  /** Every job that LSF holds, or may yet hold, is on the books. */
  ghost predicate Covered(w: World) {
    forall key | key in w.lsf && w.lsf[key] != Ended :: HasKey(w.book.entries, key) && Owned(Lookup(w.book.entries, key))
  }

  ghost predicate InSubmission(w: World) {
    w.pc != Idle ==> Is(w, w.pc.key, Reserved) && w.pc.key !in w.lsf && w.pc.rejections <= MAX_REJECTIONS
  }

  ghost predicate Inv(w: World) {
    Orderly(w.book.entries, w.book.epoch) && WithinBudget(w.book) && Covered(w) && InSubmission(w)
    && forall key | key in w.lsf :: HasKey(w.book.entries, key)
  }

  // ----- Updates of an entry that may still have a job

  /** `b'` is `b` with the owned entry `e` moved on to `e'`. */
  ghost predicate Moved(b: Book, b': Book, e: Entry, e': Entry) {
    && HasKey(b.entries, e.key) && e == Lookup(b.entries, e.key) && Owned(e)
    && e'.key == e.key && e'.stage == e.stage && e'.attempt == e.attempt && e'.epoch == e.epoch
    && (e'.outcome == Some(Noisy) ==> e.outcome == Some(Noisy) || NoisySettled(e'))
    && b' == Updating(b, e')
  }

  lemma MovedOrderly(b: Book, b': Book, e: Entry, e': Entry)
    requires Orderly(b.entries, b.epoch) && Moved(b, b', e, e')
    ensures Orderly(b'.entries, b'.epoch)
  {
    var k := IndexOfKey(b.entries, e.key);
    assert b.entries[k] == e && Tidy(e, b.epoch);
    forall i, j {:trigger b'.entries[i], b'.entries[j]} | 0 <= i < j < |b'.entries| ensures Succession(b'.entries[i], b'.entries[j]) {
      assert Succession(b.entries[i], b.entries[j]);
    }
    forall i | 0 <= i < |b'.entries| ensures Tidy(b'.entries[i], b'.epoch) {
      assert Tidy(b.entries[i], b.epoch);
    }
  }

  lemma MovedKeys(b: Book, b': Book, e: Entry, e': Entry, key: nat)
    requires Orderly(b.entries, b.epoch) && Moved(b, b', e, e')
    ensures HasKey(b'.entries, key) <==> HasKey(b.entries, key)
    ensures HasKey(b.entries, key) ==> Lookup(b'.entries, key) == if key == e.key then e' else Lookup(b.entries, key)
  {
    var k := IndexOfKey(b.entries, e.key);
    if HasKey(b.entries, key) {
      var i := IndexOfKey(b.entries, key);
      assert b'.entries[i].key == key;
      LookupUnique(b', b', key, i);
    }
    if HasKey(b'.entries, key) {
      var i :| 0 <= i < |b'.entries| && b'.entries[i].key == key;
      assert b.entries[i].key == key;
    }
  }

  lemma LookupUnique(b: Book, same: Book, key: nat, i: nat)
    requires b == same && i < |b.entries| && b.entries[i].key == key
    requires forall j, k | 0 <= j < k < |b.entries| :: b.entries[j].key != b.entries[k].key
    ensures HasKey(b.entries, key) && Lookup(b.entries, key) == b.entries[i]
  {
  }

  lemma {:induction false} CountNoMore(before: seq<Entry>, after: seq<Entry>, epoch: nat)
    requires |before| == |after| && forall i | 0 <= i < |before| && Tried(after[i], Cost, epoch) :: Tried(before[i], Cost, epoch)
    ensures CountTried(after, epoch) <= CountTried(before, epoch)
  {
    if before != [] {
      CountNoMore(before[..|before| - 1], after[..|after| - 1], epoch);
    }
  }

  lemma MovedWithinBudget(b: Book, b': Book, e: Entry, e': Entry)
    requires Orderly(b.entries, b.epoch) && WithinBudget(b) && Moved(b, b', e, e')
    ensures WithinBudget(b')
  {
    var k := IndexOfKey(b.entries, e.key);
    assert b.entries[k] == e && Tidy(e, b.epoch);
    forall epoch ensures CountTried(b'.entries, epoch) <= MAX_COST_ATTEMPTS {
      CountNoMore(b.entries, b'.entries, epoch);
    }
    if b.exhausted.Some? {
      assert e.stage != Cost;
      CountNoMore(b'.entries, b.entries, b.epoch);
      CountNoMore(b.entries, b'.entries, b.epoch);
    }
  }

  /** A world in which the owned entry `e` moved on, and LSF at most at its key. */
  lemma MovedInv(w: World, w': World, e: Entry, e': Entry)
    requires Inv(w) && Moved(w.book, w'.book, e, e') && w'.pc == Idle
    requires forall key | key in w'.lsf && key != e.key :: key in w.lsf && w'.lsf[key] == w.lsf[key]
    requires e.key in w'.lsf && w'.lsf[e.key] != Ended ==> Owned(e')
    ensures Inv(w')
  {
    MovedOrderly(w.book, w'.book, e, e');
    MovedWithinBudget(w.book, w'.book, e, e');
    forall key | key in w'.lsf
      ensures HasKey(w'.book.entries, key)
      ensures w'.lsf[key] != Ended ==> Owned(Lookup(w'.book.entries, key))
    {
      MovedKeys(w.book, w'.book, e, e', key);
    }
  }

  // ----- A new entry

  lemma {:induction false} InsertKeeps(e: Entry, s: seq<Entry>)
    ensures multiset(Insert(e, s)) == multiset{e} + multiset(s)
  {
    if s != [] && e.attempt > s[0].attempt {
      InsertKeeps(e, s[1..]);
      assert s == [s[0]] + s[1..];
    }
  }

  lemma {:induction false} InsertConsumes(e: Entry, s: seq<Entry>)
    ensures CountConsuming(Insert(e, s)) == CountConsuming([e]) + CountConsuming(s)
  {
    assert [e][1..] == [];
    if s != [] && e.attempt > s[0].attempt {
      InsertConsumes(e, s[1..]);
      assert ([s[0]] + Insert(e, s[1..]))[1..] == Insert(e, s[1..]);
    } else {
      assert ([e] + s)[1..] == s;
    }
  }

  lemma {:induction false} InsertLast(e: Entry, s: seq<Entry>)
    requires s != [] ==> forall x | x in s :: x.attempt <= s[|s| - 1].attempt
    ensures var t := Insert(e, s); t != [] && forall x | x in t :: x.attempt <= t[|t| - 1].attempt
  {
    if s != [] && e.attempt > s[0].attempt {
      var rest := s[1..];
      assert rest != [] ==> rest[|rest| - 1] == s[|s| - 1];
      InsertLast(e, rest);
      InsertKeeps(e, rest);
      var t := Insert(e, rest);
      assert e in multiset(t);
      assert e in t;
    } else if s != [] {
      assert s[0] in s;
    }
  }

  /** Sorting keeps the entries and their budget, and puts the largest attempt last. */
  lemma SortKeeps(entries: seq<Entry>)
    ensures var s := SortByAttempt(entries);
            && multiset(s) == multiset(entries) && CountConsuming(s) == CountConsuming(entries)
            && (entries != [] ==> s != []) && (s != [] ==> forall x | x in s :: x.attempt <= s[|s| - 1].attempt)
  {
    SortPermutes(entries);
    SortConsumes(entries);
    SortLast(entries);
  }

  lemma {:induction false} SortPermutes(entries: seq<Entry>)
    ensures multiset(SortByAttempt(entries)) == multiset(entries)
  {
    if entries != [] {
      SortPermutes(entries[1..]);
      InsertKeeps(entries[0], SortByAttempt(entries[1..]));
      assert entries == [entries[0]] + entries[1..];
    }
  }

  lemma {:induction false} SortConsumes(entries: seq<Entry>)
    ensures CountConsuming(SortByAttempt(entries)) == CountConsuming(entries)
  {
    if entries != [] {
      SortConsumes(entries[1..]);
      InsertConsumes(entries[0], SortByAttempt(entries[1..]));
      assert [entries[0]][1..] == [];
    }
  }

  lemma {:induction false} SortLast(entries: seq<Entry>)
    ensures var s := SortByAttempt(entries);
            (entries != [] ==> s != []) && (s != [] ==> forall x | x in s :: x.attempt <= s[|s| - 1].attempt)
  {
    if entries != [] {
      SortLast(entries[1..]);
      InsertLast(entries[0], SortByAttempt(entries[1..]));
    }
  }

  lemma {:induction false} TriesCount(entries: seq<Entry>, epoch: nat)
    ensures |Tries(entries, Cost, epoch)| == CountTried(entries, epoch)
  {
    if entries != [] {
      var init, last := entries[..|entries| - 1], entries[|entries| - 1];
      assert entries == init + [last];
      TriesCount(init, epoch);
      TriesSnoc(init, last, Cost, epoch);
    }
  }

  lemma {:induction false} NoisyConsume(entries: seq<Entry>)
    requires forall e | e in entries :: NoisySettled(e)
    ensures CountConsuming(entries) == |entries|
  {
    if entries != [] {
      assert entries[0] in entries;
      NoisyConsume(entries[1..]);
    }
  }

  lemma {:induction false} TriesSnoc(entries: seq<Entry>, e: Entry, stage: Stage, epoch: nat)
    ensures Tries(entries + [e], stage, epoch) == Tries(entries, stage, epoch) + if Tried(e, stage, epoch) then [e] else []
  {
    if entries == [] {
      assert entries + [e] == [e];
    } else {
      assert (entries + [e])[1..] == entries[1..] + [e];
      TriesSnoc(entries[1..], e, stage, epoch);
    }
  }

  /** The budget counts at most the epoch's cost attempts. */
  lemma {:induction false} ConsumingAtMost(entries: seq<Entry>)
    ensures CountConsuming(entries) <= |entries|
  {
    if entries != [] {
      ConsumingAtMost(entries[1..]);
    }
  }

  lemma UsedIsConsuming(b: Book)
    ensures BudgetUsed(b) == CountConsuming(Tries(b.entries, Cost, b.epoch))
    ensures |Tries(b.entries, Cost, b.epoch)| == CountTried(b.entries, b.epoch)
  {
    SortKeeps(Tries(b.entries, Cost, b.epoch));
    TriesCount(b.entries, b.epoch);
  }

  lemma UsedAtMostTried(b: Book)
    ensures BudgetUsed(b) <= CountTried(b.entries, b.epoch)
  {
    UsedIsConsuming(b);
    ConsumingAtMost(Tries(b.entries, Cost, b.epoch));
  }

  /** The last attempt is the epoch's attempt with the largest number. */
  lemma LastAttempt(b: Book) returns (last: Entry)
    requires Tries(b.entries, Cost, b.epoch) != []
    ensures CostAttempts(b) != [] && last == CostAttempts(b)[|CostAttempts(b)| - 1]
    ensures last in b.entries && Tried(last, Cost, b.epoch)
    ensures forall e | e in Tries(b.entries, Cost, b.epoch) :: e.attempt <= last.attempt
  {
    var tries, attempts := Tries(b.entries, Cost, b.epoch), CostAttempts(b);
    SortKeeps(tries);
    last := attempts[|attempts| - 1];
    assert last in multiset(attempts);
    assert last in tries;
    forall e | e in tries ensures e.attempt <= last.attempt {
      assert e in multiset(attempts);
      assert e in attempts;
    }
  }

  /** Once the last cost attempt of the epoch is noisy, all of them are, and each one counts. */
  lemma LastNoisyAllNoisy(b: Book)
    requires Orderly(b.entries, b.epoch)
    requires CostAttempts(b) != [] ==> CostAttempts(b)[|CostAttempts(b)| - 1].outcome == Some(Noisy)
    ensures AllNoisy(b.entries, b.epoch) && BudgetUsed(b) == CountTried(b.entries, b.epoch)
  {
    var tries := Tries(b.entries, Cost, b.epoch);
    forall e | e in tries ensures NoisySettled(e) {
      var last := LastAttempt(b);
      assert Tidy(last, b.epoch);
      EarlierNoisy(b, e, last);
    }
    forall i | 0 <= i < |b.entries| && Tried(b.entries[i], Cost, b.epoch) ensures NoisySettled(b.entries[i]) {
      assert b.entries[i] in tries;
    }
    NoisyConsume(tries);
    UsedIsConsuming(b);
  }

  /** All cost attempts of the epoch are noisy exactly when the last one is, if there is one. */
  lemma NoisyExactly(b: Book)
    requires Orderly(b.entries, b.epoch)
    ensures var attempts := CostAttempts(b);
            && (AllNoisy(b.entries, b.epoch) <==> attempts == [] || attempts[|attempts| - 1].outcome == Some(Noisy))
            && (AllNoisy(b.entries, b.epoch) && attempts != [] ==> !Active(attempts[|attempts| - 1].status))
    ensures AllNoisy(b.entries, b.epoch) ==> BudgetUsed(b) == CountTried(b.entries, b.epoch)
  {
    var attempts := CostAttempts(b);
    if attempts == [] || attempts[|attempts| - 1].outcome == Some(Noisy) { LastNoisyAllNoisy(b); }
    if attempts != [] {
      SortPermutes(Tries(b.entries, Cost, b.epoch));
      assert attempts[0] in multiset(attempts);
      assert attempts[0] in Tries(b.entries, Cost, b.epoch);
      var last := LastAttempt(b);
      var i :| 0 <= i < |b.entries| && b.entries[i] == last;
      assert AllNoisy(b.entries, b.epoch) ==> NoisySettled(b.entries[i]);
    }
  }

  /** Another cost job is allowed exactly when every cost attempt of the epoch is settled noisy and
      fewer than 21 were made; the budget is exhausted exactly when it would be allowed otherwise. */
  lemma DecideMeans(b: Book)
    requires Orderly(b.entries, b.epoch)
    ensures Decide(b).allowed <==> AllNoisy(b.entries, b.epoch) && CountTried(b.entries, b.epoch) < MAX_COST_ATTEMPTS
    ensures Decide(b).exhausted <==> AllNoisy(b.entries, b.epoch) && CountTried(b.entries, b.epoch) >= MAX_COST_ATTEMPTS
  {
    NoisyExactly(b);
  }

  lemma EarlierNoisy(b: Book, e: Entry, last: Entry)
    requires Orderly(b.entries, b.epoch) && e in b.entries && last in b.entries && Tried(e, Cost, b.epoch) && Tried(last, Cost, b.epoch)
    requires e.attempt <= last.attempt && NoisySettled(last)
    ensures NoisySettled(e)
  {
    var i, j :| 0 <= i < |b.entries| && 0 <= j < |b.entries| && b.entries[i] == e && b.entries[j] == last;
    if i < j {
      assert Succession(b.entries[i], b.entries[j]);
    } else {
      assert !(j < i);
    }
  }

  lemma ReserveSucceeds(b: Book, stage: Stage, e: Entry, i: nat)
    requires Orderly(b.entries, b.epoch) && MaySubmit(b, stage) && i < |b.entries| && e.stage == stage && e.epoch == b.epoch
    ensures Succession(b.entries[i], e)
  {
    if Tried(b.entries[i], stage, b.epoch) {
      assert b.entries[i] in Tries(b.entries, stage, b.epoch);
      assert stage == Cost;
      LastNoisyAllNoisy(b);
    }
  }

  /** One more entry, in order after all the others. */
  lemma OrderlySnoc(entries: seq<Entry>, e: Entry, epoch: nat)
    requires Orderly(entries, epoch) && Tidy(e, epoch)
    requires forall i | 0 <= i < |entries| :: Follows(entries[i], e)
    ensures Orderly(entries + [e], epoch)
  {
    var more := entries + [e];
    forall i, j {:trigger more[i], more[j]} | 0 <= i < j < |more|
      ensures Succession(more[i], more[j])
    {
      if j < |entries| {
        assert Succession(entries[i], entries[j]);
      } else {
        assert Follows(entries[i], e);
      }
    }
    assert forall i | 0 <= i < |entries| :: Follows(entries[i], e) && Tidy(entries[i], epoch);
  }

  predicate Follows(before: Entry, e: Entry) {
    before.key != e.key && (before.stage == e.stage == Cost ==> before.attempt < e.attempt) && Succession(before, e)
  }

  lemma ReserveOrderly(b: Book, stage: Stage, key: nat, at: int)
    requires Orderly(b.entries, b.epoch) && !HasKey(b.entries, key) && MaySubmit(b, stage)
    ensures Orderly(Reserving(b, Fresh(b, stage, AttemptFor(b, stage), key, at)).entries, b.epoch)
  {
    var e := Fresh(b, stage, AttemptFor(b, stage), key, at);
    forall i | 0 <= i < |b.entries|
      ensures Follows(b.entries[i], e)
    {
      ReserveSucceeds(b, stage, e, i);
      assert b.entries[i] in b.entries;
    }
    OrderlySnoc(b.entries, e, b.epoch);
  }

  lemma ReserveWithinBudget(b: Book, stage: Stage, key: nat, at: int)
    requires Orderly(b.entries, b.epoch) && WithinBudget(b) && MaySubmit(b, stage)
    ensures WithinBudget(Reserving(b, Fresh(b, stage, AttemptFor(b, stage), key, at)))
  {
    var e := Fresh(b, stage, AttemptFor(b, stage), key, at);
    var b' := Reserving(b, e);
    assert b'.entries[..|b'.entries| - 1] == b.entries;
    if stage == Cost { LastNoisyAllNoisy(b); }
    assert forall i | 0 <= i < |b.entries| :: b'.entries[i] == b.entries[i];
  }

  lemma ReserveInv(w: World, stage: Stage, key: nat, at: int)
    requires Inv(w) && Step(w, Reserve(stage, key, at)).Some?
    ensures Inv(Step(w, Reserve(stage, key, at)).value)
  {
    var w' := Step(w, Reserve(stage, key, at)).value;
    ReserveOrderly(w.book, stage, key, at);
    ReserveWithinBudget(w.book, stage, key, at);
    var n := |w.book.entries|;
    assert w'.book.entries[n].key == key;
    LookupUnique(w'.book, w'.book, key, n);
    assert key !in w.lsf;
    forall k | k in w'.lsf ensures HasKey(w'.book.entries, k) && Lookup(w'.book.entries, k) == Lookup(w.book.entries, k) {
      var i := IndexOfKey(w.book.entries, k);
      assert w'.book.entries[i].key == k;
      LookupUnique(w'.book, w'.book, k, i);
    }
  }

  // ----- Every step

  lemma SubmissionInv(w: World, ev: Event)
    requires Inv(w) && Step(w, ev).Some? && (ev.Bsub? || ev.WriteRejected?)
    ensures Inv(Step(w, ev).value)
  {
    var w', e := Step(w, ev).value, Lookup(w.book.entries, w.pc.key);
    if w'.pc == Idle {
      var status := if ev.WriteRejected? then Rejected else if ev.answer == Accepted then Submitted else Ambiguous;
      MovedInv(w, w', e, e.(status := status));
    }
  }

  lemma EntryInv(w: World, ev: Event)
    requires Inv(w) && Step(w, ev).Some? && (ev.Found? || ev.GiveUp? || ev.Settle? || ev.Lose? || ev.WriteLost?)
    ensures Inv(Step(w, ev).value)
  {
    var e := Lookup(w.book.entries, ev.key);
    assert e in w.book.entries;
    assert Tidy(e, w.book.epoch);
    if ev.Settle? || ev.WriteLost? { SettledInv(w, ev, e); } else { RenamedInv(w, ev, e); }
  }

  lemma RenamedInv(w: World, ev: Event, e: Entry)
    requires Inv(w) && Step(w, ev).Some? && (ev.Found? || ev.GiveUp? || ev.Lose?)
    requires HasKey(w.book.entries, ev.key) && e == Lookup(w.book.entries, ev.key) && Tidy(e, w.book.epoch)
    ensures Inv(Step(w, ev).value)
  {
    MovedInv(w, Step(w, ev).value, e, e.(status := if ev.Found? then Submitted else Unreconciled));
  }

  lemma SettledInv(w: World, ev: Event, e: Entry)
    requires Inv(w) && Step(w, ev).Some? && (ev.Settle? || ev.WriteLost?)
    requires HasKey(w.book.entries, ev.key) && e == Lookup(w.book.entries, ev.key) && Tidy(e, w.book.epoch)
    ensures Inv(Step(w, ev).value)
  {
    var kind := if ev.Settle? then ev.kind else Lost;
    MovedInv(w, Step(w, ev).value, e,
             e.(status := if ev.Settle? then Terminal else Unreconciled, outcome := Some(kind),
                consumes := Some(kind !in {Skipped, AlreadyFinal})));
  }

  lemma ExhaustBudget(b: Book)
    requires Orderly(b.entries, b.epoch) && WithinBudget(b) && Decide(b).exhausted
    ensures WithinBudget(b.(exhausted := Some(BudgetUsed(b))))
  {
    LastNoisyAllNoisy(b);
    assert CountTried(b.entries, b.epoch) == MAX_COST_ATTEMPTS;
  }

  lemma ExhaustInv(w: World)
    requires Inv(w) && Step(w, Exhaust).Some?
    ensures Inv(Step(w, Exhaust).value)
  {
    ExhaustBudget(w.book);
  }

  /** Every step of the manager, the scheduler, a crash or a resume keeps the invariant. */
  lemma StepKeepsInv(w: World, ev: Event)
    requires Inv(w) && Step(w, ev).Some?
    ensures Inv(Step(w, ev).value)
  {
    match ev
    case Reserve(stage, key, at) => ReserveInv(w, stage, key, at);
    case Bsub(_) => SubmissionInv(w, ev);
    case WriteRejected => SubmissionInv(w, ev);
    case Exhaust => ExhaustInv(w);
    case Resume => ResumeInv(w);
    case Stop =>
    case Crash(during) => CrashInv(w, during);
    case Appear(_) => LsfInv(w, ev);
    case Vanish(_) => LsfInv(w, ev);
    case End(_) => LsfInv(w, ev);
    case _ => EntryInv(w, ev);
  }

  lemma CrashInv(w: World, during: Option<Life>)
    requires Inv(w) && Step(w, Crash(during)).Some?
    ensures Inv(Step(w, Crash(during)).value)
  {
  }

  lemma LsfInv(w: World, ev: Event)
    requires Inv(w) && Step(w, ev).Some? && (ev.Appear? || ev.Vanish? || ev.End?)
    ensures Inv(Step(w, ev).value)
  {
    var w' := Step(w, ev).value;
    forall key | key in w'.lsf
      ensures HasKey(w.book.entries, key)
      ensures w'.lsf[key] != Ended ==> Owned(Lookup(w.book.entries, key))
    {
      assert key in w.lsf && (w'.lsf[key] != Ended ==> w.lsf[key] != Ended);
    }
  }

  lemma ResumeInv(w: World)
    requires Inv(w) && Step(w, Resume).Some?
    ensures Inv(Step(w, Resume).value)
    ensures var b, b' := w.book, Step(w, Resume).value.book;
            b'.entries == b.entries && b'.epoch == b.epoch + 1 && b'.exhausted == None && !b'.stopped
    ensures forall e | e in w.book.entries :: !Active(e.status) && e.status != Unreconciled
  {
    var w' := Step(w, Resume).value;
    forall i | 0 <= i < |w'.book.entries| ensures Tidy(w'.book.entries[i], w'.book.epoch) {
      assert Tidy(w.book.entries[i], w.book.epoch);
    }
  }

  lemma {:induction false} RunsKeepInv(w: World, run: seq<Event>, w': World)
    requires Inv(w) && Reaches(w, run, w')
    ensures Inv(w')
    decreases |run|
  {
    if run != [] {
      StepKeepsInv(w, run[0]);
      RunsKeepInv(Step(w, run[0]).value, run[1..], w');
    }
  }

  // ----- What the invariant means for the jobs and the budget

  /** In every reachable world: each job that LSF holds or may yet hold has an active or
      unreconciled entry; at most one of them is a cost job, over all epochs; of each other
      stage at most one submission per epoch was not rejected; every cost attempt of an epoch
      but its last is settled noisy; the budget is never exceeded; and exhaustion is on record
      only after 21 noisy attempts of the epoch. */
  lemma LedgerSafety(run: seq<Event>, w: World)
    requires Reaches(START, run, w)
    ensures forall key | key in w.lsf && w.lsf[key] != Ended :: HasKey(w.book.entries, key) && Owned(Lookup(w.book.entries, key))
    ensures forall j, k | j in w.lsf && k in w.lsf && w.lsf[j] != Ended && w.lsf[k] != Ended
                          && HasKey(w.book.entries, j) && HasKey(w.book.entries, k) && Lookup(w.book.entries, j).stage == Cost && Lookup(w.book.entries, k).stage == Cost :: j == k
    ensures forall i, j {:trigger w.book.entries[i], w.book.entries[j]} | 0 <= i < j < |w.book.entries| :: Succession(w.book.entries[i], w.book.entries[j])
    ensures BudgetUsed(w.book) <= MAX_COST_ATTEMPTS
    ensures w.pc != Idle ==> w.pc.rejections <= MAX_REJECTIONS
    ensures w.book.exhausted.Some? ==> AllNoisy(w.book.entries, w.book.epoch) && CountTried(w.book.entries, w.book.epoch) == MAX_COST_ATTEMPTS
  {
    RunsKeepInv(START, run, w);
    UsedAtMostTried(w.book);
    forall j, k | j in w.lsf && k in w.lsf && w.lsf[j] != Ended && w.lsf[k] != Ended
                  && HasKey(w.book.entries, j) && HasKey(w.book.entries, k) && Lookup(w.book.entries, j).stage == Cost && Lookup(w.book.entries, k).stage == Cost
      ensures j == k
    {
      OneOwnedCost(w.book, Lookup(w.book.entries, j), Lookup(w.book.entries, k));
    }
  }

  lemma OneOwnedCost(b: Book, x: Entry, y: Entry)
    requires Orderly(b.entries, b.epoch) && x in b.entries && y in b.entries && x.stage == Cost && y.stage == Cost && Owned(x) && Owned(y)
    ensures x == y
  {
    var i, j :| 0 <= i < |b.entries| && 0 <= j < |b.entries| && b.entries[i] == x && b.entries[j] == y;
    assert Tidy(b.entries[i], b.epoch) && Tidy(b.entries[j], b.epoch);
    forall m: nat, n: nat | m < n < |b.entries| ensures Succession(b.entries[m], b.entries[n]) {
      SuccessionAt(b, m, n);
    }
    assert !(i < j) && !(j < i);
  }

  lemma SuccessionAt(b: Book, i: nat, j: nat)
    requires Orderly(b.entries, b.epoch) && i < j < |b.entries|
    ensures Succession(b.entries[i], b.entries[j])
  {
  }

  /** Each cost submission spends one unit of the budget that is left, so the cost loop submits
      at most `21 - used` more jobs, and settling a noisy attempt gives nothing back. */
  lemma CostSubmissionSpends(w: World, key: nat, at: int)
    requires Inv(w) && Step(w, Reserve(Cost, key, at)).Some?
    ensures var w' := Step(w, Reserve(Cost, key, at)).value;
            BudgetUsed(w'.book) == BudgetUsed(w.book) + 1 <= MAX_COST_ATTEMPTS
  {
    ReservationSpends(w.book, Fresh(w.book, Cost, AttemptFor(w.book, Cost), key, at));
  }

  lemma ReservationSpends(b: Book, e: Entry)
    requires e.stage == Cost && e.epoch == b.epoch && e.status == Reserved && e.consumes == None
    ensures BudgetUsed(Reserving(b, e)) == BudgetUsed(b) + 1
  {
    UsedIsConsuming(b);
    UsedIsConsuming(Reserving(b, e));
    TriesSnoc(b.entries, e, Cost, b.epoch);
    ConsumingSnoc(Tries(b.entries, Cost, b.epoch), e);
  }

  lemma {:induction false} ConsumingSnoc(entries: seq<Entry>, e: Entry)
    ensures CountConsuming(entries + [e]) == CountConsuming(entries) + if e.status != Rejected && e.consumes != Some(false) then 1 else 0
  {
    if entries == [] {
      assert entries + [e] == [e];
    } else {
      assert (entries + [e])[1..] == entries[1..] + [e];
      ConsumingSnoc(entries[1..], e);
    }
  }
}
