/** The manager's methods over the ledger, against a scheduler that answers as it likes but
    never lies: an accepted job exists, a refused one does not, and a terminal one has ended. */
module Manager {

  import opened Prelude
  import opened Ledger
  import opened Orchestration

  // ----- The scheduler

  /** What may happen in LSF between two calls: submissions in limbo turn out, jobs end. */
  predicate Drifted(before: map<nat, Life>, after: map<nat, Life>) {
    && (forall key | key in after :: key in before && (before[key] == Ended ==> after[key] == Ended))
    && (forall key | key in before && before[key] == Ended :: key in after)
  }

  datatype Reply = Failing | NotFound | Running | Finished

  class Scheduler {
    var jobs: map<nat, Life>
    /** What the calls of `bsub` and the queries for a job were answered. */
    ghost var answers: seq<Answer>
    ghost var replies: seq<Reply>
    /** What the lookups by name found. */
    ghost var finds: seq<Option<bool>>

    constructor ()
      ensures jobs == map[] && answers == [] && replies == [] && finds == []
    {
      jobs, answers, replies, finds := map[], [], [], [];
    }

    method Drift()
      modifies `jobs
      ensures Drifted(old(jobs), jobs)
    {
      var next: map<nat, Life> := *;
      if Drifted(jobs, next) { jobs := next; }
    }

    /** One call of `bsub`: an accepted job lives, an unclear one may, a refused one does not. */
    method Bsub(key: nat) returns (answer: Answer)
      modifies `jobs, `answers
      ensures answers == old(answers) + [answer]
      ensures Drifted(if answer == Refused then old(jobs) else old(jobs)[key := if answer == Accepted then Live else answer.life], jobs)
    {
      answer := *;
      if answer != Refused { jobs := jobs[key := if answer == Accepted then Live else answer.life]; }
      Drift();
      answers := answers + [answer];
    }

    /** `bjobs`, and `bhist` for a job that it no longer lists. */
    method Query(key: nat) returns (reply: Reply)
      modifies `jobs, `replies
      ensures replies == old(replies) + [reply]
      ensures Drifted(old(jobs), jobs)
      ensures reply == Finished ==> key in jobs && jobs[key] == Ended
    {
      Drift();
      reply := *;
      if reply == Finished && !(key in jobs && jobs[key] == Ended) { reply := NotFound; }
      replies := replies + [reply];
    }

    /** Lookup by the job's unique name; `None` when the query failed. */
    method Find(key: nat) returns (found: Option<bool>)
      modifies `jobs, `finds
      ensures finds == old(finds) + [found]
      ensures Drifted(old(jobs), jobs)
      ensures found == Some(true) ==> key in jobs && jobs[key] != Limbo
    {
      Drift();
      found := *;
      if found == Some(true) && !(key in jobs && jobs[key] != Limbo) { found := Some(false); }
      finds := finds + [found];
    }
  }

  /** The status that the answers of `bsub` lead to: refusals are tried again, three times in all. */
  ghost predicate AnswersGive(answers: seq<Answer>, status: Status) {
    && 1 <= |answers| <= MAX_REJECTIONS
    && (forall k | 0 <= k < |answers| - 1 :: answers[k] == Refused)
    && match answers[|answers| - 1]
       case Accepted => status == Submitted
       case Unclear(_) => status == Ambiguous
       case Refused => |answers| == MAX_REJECTIONS && status == Rejected
  }

  lemma DriftKeepsInv(w: World, jobs: map<nat, Life>)
    requires Inv(w) && Drifted(w.lsf, jobs)
    ensures Inv(w.(lsf := jobs))
  {
    assert forall key | key in jobs && jobs[key] != Ended :: key in w.lsf && w.lsf[key] != Ended;
  }

  // ----- Outcomes

  datatype StageState = StageState(status: string, mine: bool)

  /** A stage job's outcome from its entry, LSF's state, its exit record and the stage state. */
  function Classify(e: Entry, exited: bool, code: Option<int>, state: StageState, lost: bool): Kind {
    if lost || e.status == Unreconciled then Lost
    else if code.None? then if exited then Killed else Unknown
    else if e.stage == Clean then if code.value == 0 then Complete else if code.value == 41 then Precondition else Failed
    else if code.value == 0 then
      if state.status in {"complete", "skipped"} then
        if !state.mine then AlreadyFinal else if state.status == "complete" then Complete else Skipped
      else Inconsistent
    else if code.value == 42 then if state.status == "noisy" && state.mine then Noisy else Inconsistent
    else if code.value >= 128 then Terminated
    else if code.value == 41 then Precondition
    else if code.value == 64 then Usage
    else Failed
  }

  /** What a stage job's outcome says about its exit record and the state its stage left: complete
      or skipped only by its own final state, noisy only by its own noisy state, and exit code 40
      is always a failure. */
  lemma OutcomeMeans(e: Entry, exited: bool, code: Option<int>, state: StageState)
    requires e.status != Unreconciled
    ensures var kind := Classify(e, exited, code, state, false); var stage := e.stage != Clean;
            && (stage ==> (kind == Complete <==> code == Some(0) && state == StageState("complete", true)))
            && (stage ==> (kind == Skipped <==> code == Some(0) && state == StageState("skipped", true)))
            && (stage ==> (kind == AlreadyFinal <==> code == Some(0) && state.status in {"complete", "skipped"} && !state.mine))
            && (kind == Noisy <==> stage && code == Some(42) && state == StageState("noisy", true))
            && (!stage ==> (kind == Complete <==> code == Some(0)))
            && (kind == Precondition <==> code == Some(41))
            && (kind == Usage <==> stage && code == Some(64))
            && (kind == Terminated <==> stage && code.Some? && code.value >= 128)
            && (kind == Inconsistent <==>
                  stage && ((code == Some(0) && state.status !in {"complete", "skipped"})
                            || (code == Some(42) && state != StageState("noisy", true))))
            && (kind == Killed <==> code.None? && exited) && (kind == Unknown <==> code.None? && !exited)
            && (code == Some(40) ==> kind == Failed)
            && kind !in {Lost, Cancelled}
  {
  }

  /** A job that is given up is lost, whatever it left behind. */
  lemma LostMeans(e: Entry, exited: bool, code: Option<int>, state: StageState, lost: bool)
    ensures Classify(e, exited, code, state, lost) == Lost <==> lost || e.status == Unreconciled
  {
  }

  /** A submitted cost job was just settled. */
  ghost predicate Concludes(b: Book, b': Book, e: Entry, e': Entry) {
    Orderly(b.entries, b.epoch) && e.stage == Cost && e.status == Submitted && e'.status == Terminal && Moved(b, b', e, e')
  }

  /** It is then the last cost attempt. */
  lemma SettledIsLast(b: Book, b': Book, e: Entry, e': Entry)
    requires Concludes(b, b', e, e')
    ensures Orderly(b'.entries, b'.epoch)
    ensures var attempts := CostAttempts(b'); attempts != [] && attempts[|attempts| - 1] == e'
  {
    var j := IndexOfKey(b.entries, e.key);
    assert b.entries[j] == e && b'.entries[j] == e' && Tidy(e, b.epoch);
    assert e' in Tries(b'.entries, Cost, b'.epoch);
    var last := LastAttempt(b');
    var i :| 0 <= i < |b'.entries| && b'.entries[i] == last;
    MovedOrderly(b, b', e, e');
    forall m: nat, n: nat | m < n < |b.entries| ensures Succession(b.entries[m], b.entries[n]) {
      SuccessionAt(b, m, n);
    }
    assert !(i < j) && !(j < i);
  }

  lemma NoneWaiting(b: Book, b': Book, e: Entry, e': Entry)
    requires Concludes(b, b', e, e')
    ensures forall x | x in Tries(b'.entries, Cost, b'.epoch) :: !Active(x.status)
  {
    forall x | x in Tries(b'.entries, Cost, b'.epoch)
      ensures !Active(x.status)
    {
      var i :| 0 <= i < |b'.entries| && b'.entries[i] == x;
      if x != e' {
        assert b.entries[i] == x;
        if Active(x.status) { OneOwnedCost(b, x, e); }
      }
    }
  }

  lemma TriedSame(b: Book, b': Book, e: Entry, e': Entry)
    requires Concludes(b, b', e, e')
    ensures CountTried(b'.entries, b'.epoch) == CountTried(b.entries, b.epoch)
  {
    CountNoMore(b.entries, b'.entries, b.epoch);
    CountNoMore(b'.entries, b.entries, b.epoch);
  }

  lemma UsedAfter(b: Book, b': Book, e: Entry, e': Entry)
    requires Concludes(b, b', e, e') && e'.outcome == Some(Noisy)
    ensures BudgetUsed(b') == CountTried(b.entries, b.epoch)
  {
    SettledIsLast(b, b', e, e');
    LastNoisyAllNoisy(b');
    TriedSame(b, b', e, e');
  }

  /** The gate for cost jobs, when no cost attempt is waiting and `last` is the last one. */
  lemma Gate(b: Book, last: Entry, tried: nat)
    requires var attempts := CostAttempts(b); attempts != [] && attempts[|attempts| - 1] == last
    requires !Active(last.status) && forall x | x in Tries(b.entries, Cost, b.epoch) :: !Active(x.status)
    requires last.outcome == Some(Noisy) ==> BudgetUsed(b) == tried
    ensures MaySubmit(b, Cost) <==> last.outcome == Some(Noisy) && tried < MAX_COST_ATTEMPTS
  {
    assert Latest(b, Cost).Some? ==> Latest(b, Cost).value in Tries(b.entries, Cost, b.epoch);
  }

  lemma GateAfter(b: Book, b': Book, e: Entry, e': Entry)
    requires Concludes(b, b', e, e')
    ensures MaySubmit(b', Cost) <==> e'.outcome == Some(Noisy) && CountTried(b.entries, b.epoch) < MAX_COST_ATTEMPTS
  {
    SettledIsLast(b, b', e, e');
    NoneWaiting(b, b', e, e');
    if e'.outcome == Some(Noisy) { UsedAfter(b, b', e, e'); }
    Gate(b', e', CountTried(b.entries, b.epoch));
  }

  lemma SettlingConcludes(b: Book, e: Entry, kind: Kind) returns (e': Entry)
    requires Orderly(b.entries, b.epoch) && e in b.entries && e.stage == Cost && e.status == Submitted
    ensures HasKey(b.entries, e.key) && Concludes(b, Settling(b, e, kind), e, e') && e'.outcome == Some(kind)
  {
    var j :| 0 <= j < |b.entries| && b.entries[j] == e;
    LookupUnique(b, b, e.key, j);
    e' := e.(status := Terminal, outcome := Some(kind), consumes := Some(kind !in {Skipped, AlreadyFinal}));
  }

  lemma SettlingGate(b: Book, e: Entry, kind: Kind)
    requires Orderly(b.entries, b.epoch) && e in b.entries && e.stage == Cost && e.status == Submitted
    ensures HasKey(b.entries, e.key)
    ensures MaySubmit(Settling(b, e, kind), Cost) <==> kind == Noisy && CountTried(b.entries, b.epoch) < MAX_COST_ATTEMPTS
  {
    var e' := SettlingConcludes(b, e, kind);
    GateAfter(b, Settling(b, e, kind), e, e');
  }

  /** Whatever happened before: after a submitted cost job has ended, another cost job may be
      submitted exactly when this one exited with the code for noise, the stage state says noisy
      and is this job's own, and the epoch has had fewer than 21 cost jobs. */
  lemma RetryOnlyOnEvidence(run: seq<Event>, w: World, e: Entry, exited: bool, code: Option<int>, state: StageState)
    requires Reaches(START, run, w) && e in w.book.entries && e.stage == Cost && e.status == Submitted
    ensures HasKey(w.book.entries, e.key)
    ensures MaySubmit(Settling(w.book, e, Classify(e, exited, code, state, false)), Cost) <==>
              && code == Some(42) && state == StageState("noisy", true)
              && CountTried(w.book.entries, w.book.epoch) < MAX_COST_ATTEMPTS
  {
    ReachableOrderly(run, w);
    SettlingGate(w.book, e, Classify(e, exited, code, state, false));
  }

  lemma ReachableOrderly(run: seq<Event>, w: World)
    requires Reaches(START, run, w)
    ensures Orderly(w.book.entries, w.book.epoch)
  {
    RunsKeepInv(START, run, w);
  }

  // ----- The manager

  function FreshKey(entries: seq<Entry>): (key: nat)
    ensures forall e | e in entries :: e.key < key
  {
    if entries == [] then 1
    else
      var rest := FreshKey(entries[1..]);
      if entries[0].key >= rest then entries[0].key + 1 else rest
  }

  /** At most the entry of `key` moved on, and it is not rejected. */
  ghost predicate OnlyMoved(b: Book, b': Book, key: nat) {
    && |b'.entries| == |b.entries| && b' == b.(entries := b'.entries)
    && forall i | 0 <= i < |b.entries| ::
         var e, e' := b.entries[i], b'.entries[i];
         && e'.key == e.key && e'.stage == e.stage && e'.attempt == e.attempt && e'.epoch == e.epoch
         && (if e.key == key then e.status != Rejected ==> e'.status != Rejected else e' == e)
  }

  /** An owned entry may move on to any status its job allows. */
  lemma MoveEntry(b: Book, jobs: map<nat, Life>, e': Entry)
    requires Inv(World(b, jobs, Idle)) && HasKey(b.entries, e'.key) && Owned(Lookup(b.entries, e'.key)) && e'.status != Rejected
    requires var e := Lookup(b.entries, e'.key); e'.stage == e.stage && e'.attempt == e.attempt && e'.epoch == e.epoch
    requires var e := Lookup(b.entries, e'.key); e'.outcome == e.outcome || e'.outcome != Some(Noisy) || NoisySettled(e')
    requires e'.key in jobs && jobs[e'.key] != Ended ==> Owned(e')
    ensures Inv(World(Updating(b, e'), jobs, Idle)) && OnlyMoved(b, Updating(b, e'), e'.key)
    ensures HasKey(Updating(b, e').entries, e'.key) && Lookup(Updating(b, e').entries, e'.key) == e'
  {
    var b', e := Updating(b, e'), Lookup(b.entries, e'.key);
    MovedInv(World(b, jobs, Idle), World(b', jobs, Idle), e, e');
    MovedKeys(b, b', e, e', e'.key);
    MoveOnly(b, e');
  }

  lemma MoveOnly(b: Book, e': Entry)
    requires HasKey(b.entries, e'.key) && e'.status != Rejected
    requires var e := Lookup(b.entries, e'.key); e'.stage == e.stage && e'.attempt == e.attempt && e'.epoch == e.epoch
    ensures OnlyMoved(b, Updating(b, e'), e'.key)
  {
  }

  lemma OnlyMovedKeeps(b: Book, b': Book, key: nat)
    requires OnlyMoved(b, b', key) && HasKey(b.entries, key) && Owned(Lookup(b.entries, key)) && Orderly(b.entries, b.epoch)
    ensures HasKey(b'.entries, key) && CountTried(b'.entries, b.epoch) == CountTried(b.entries, b.epoch)
  {
    var k := IndexOfKey(b.entries, key);
    assert b'.entries[k].key == key;
    CountNoMore(b.entries, b'.entries, b.epoch);
    CountNoMore(b'.entries, b.entries, b.epoch);
  }

  lemma MovedTwice(a: Book, b: Book, c: Book, key: nat)
    requires OnlyMoved(a, b, key) && OnlyMoved(b, c, key)
    ensures OnlyMoved(a, c, key)
  {
    forall i | 0 <= i < |a.entries|
      ensures var e, e' := a.entries[i], c.entries[i];
              && e'.key == e.key && e'.stage == e.stage && e'.attempt == e.attempt && e'.epoch == e.epoch
              && (if e.key == key then e.status != Rejected ==> e'.status != Rejected else e' == e)
    {
      assert b.entries[i].key == a.entries[i].key;
    }
  }

  /** One entry was added for the stage: the one of `key`, or a rejected one. */
  ghost predicate Grown(b: Book, b': Book, stage: Stage, at: int, key: Option<nat>) {
    && |b'.entries| == |b.entries| + 1
    && var e := b'.entries[|b.entries|];
       && b' == Reserving(b, e)
       && e == Fresh(b, stage, AttemptFor(b, stage), e.key, at).(status := e.status)
       && if key.Some? then e.key == key.value && e.status in {Submitted, Ambiguous} else e.status == Rejected
  }

  /** What a lookup by name does to an entry's status: a found job was submitted, one that is missing
      for long is given up, and a failed lookup says nothing. */
  ghost predicate Named(found: Option<bool>, longSilence: bool, before: Status, after: Status) {
    && (found == Some(true) ==> after == Submitted)
    && (found == Some(false) ==> after == if longSilence then Unreconciled else before)
    && (found == None ==> after == before)
  }

  /** What one query's reply does to a submitted entry. */
  ghost predicate Answered(reply: Reply, b: Book, b': Book, key: nat, done: bool)
    requires HasKey(b.entries, key) && HasKey(b'.entries, key)
  {
    var e, e' := Lookup(b.entries, key), Lookup(b'.entries, key);
    match reply
    case Finished =>
      && done && e'.outcome.Some?
      && e' == e.(status := Terminal, outcome := e'.outcome, consumes := Some(e'.outcome.value !in {Skipped, AlreadyFinal}))
    case NotFound =>
      if done then e' == e.(status := Unreconciled, outcome := Some(Lost), consumes := Some(true)) else b' == b
    case Failing => !done && b' == b
    case Running => !done && b' == b
  }

  predicate CostActive(b: Book) {
    exists e | e in b.entries :: Tried(e, Cost, b.epoch) && Active(e.status)
  }

  datatype LoopEnd = Final | OutOfBudget | Stopped | Deadline

  class Manager {
    var book: Book
    const lsf: Scheduler

    ghost predicate Valid()
      reads this, lsf
    {
      Inv(World(book, lsf.jobs, Idle))
    }

    ghost predicate Holds(key: nat)
      reads this
    {
      HasKey(book.entries, key) && Tried(Lookup(book.entries, key), Lookup(book.entries, key).stage, book.epoch)
    }

    /** A new session's manager; a requeued one would load the ledger that is on disk. */
    constructor ()
      ensures Valid() && fresh(lsf) && book == START.book
    {
      book := START.book;
      lsf := new Scheduler();
      new;
      assert Inv(START);
    }

    /** Reserves an entry, then submits it; no key when it does not fit the remaining time or
        LSF refused it three times. */
    method Submit(stage: Stage, at: int, fits: bool) returns (key: Option<nat>)
      requires Valid() && MaySubmit(book, stage)
      modifies this, lsf
      ensures Valid()
      ensures !fits ==> key.None? && book == old(book)
      ensures fits ==> Grown(old(book), book, stage, at, key)
    {
      if !fits { return None; }
      var e := Fresh(book, stage, AttemptFor(book, stage), FreshKey(book.entries), at);
      ghost var w := World(book, lsf.jobs, Idle);
      ReserveInv(w, stage, e.key, at);
      w := Step(w, Reserve(stage, e.key, at)).value;
      ReservedLast(book, e);
      book := Reserving(book, e);
      ghost var got;
      key, got := CallBsub(e, w, old(book));
    }

    /** One call of `bsub` for the entry of `key`. */
    method TryBsub(key: nat, tries: nat, ghost w: World) returns (answer: Answer, ghost w': World)
      requires w == World(book, lsf.jobs, Submitting(key, tries)) && Inv(w) && tries < MAX_REJECTIONS
      modifies lsf
      ensures Step(w, Bsub(answer)).Some? && w' == Step(w, Bsub(answer)).value.(lsf := lsf.jobs) && Inv(w')
      ensures lsf.answers == old(lsf.answers) + [answer]
    {
      answer := lsf.Bsub(key);
      SubmissionInv(w, Bsub(answer));
      w' := Step(w, Bsub(answer)).value;
      DriftKeepsInv(w', lsf.jobs);
      w' := w'.(lsf := lsf.jobs);
    }

    /** The calls of `bsub` for the entry of `key`, up to the first answer that is not a refusal. */
    method AskBsub(key: nat, ghost reserved: World) returns (status: Status, ghost got: seq<Answer>)
      requires reserved == World(book, lsf.jobs, Submitting(key, 0)) && Inv(reserved) && HasKey(book.entries, key)
      modifies lsf
      ensures status in {Submitted, Ambiguous, Rejected} && Inv(World(SetStatus(book, key, status), lsf.jobs, Idle))
      ensures lsf.answers == old(lsf.answers) + got && AnswersGive(got, status)
    {
      ghost var w := reserved;
      got := [];
      for tries := 0 to MAX_REJECTIONS
        invariant lsf.answers == old(lsf.answers) + got
        invariant w == World(book, lsf.jobs, Submitting(key, tries)) && Inv(w)
        invariant |got| == tries && forall k | 0 <= k < tries :: got[k] == Refused
      {
        ghost var earlier := got;
        var answer, w' := TryBsub(key, tries, w);
        w, got := w', earlier + [answer];
        match answer
        case Accepted => return Submitted, got;
        case Unclear(_) => return Ambiguous, got;
        case Refused =>
      }
      SubmissionInv(w, WriteRejected);
      status := Rejected;
    }

    /** The calls of `bsub` for the reserved entry `e`, and what they lead to, written at once. */
    method CallBsub(e: Entry, ghost reserved: World, ghost before: Book) returns (key: Option<nat>, ghost got: seq<Answer>)
      requires reserved == World(book, lsf.jobs, Submitting(e.key, 0)) && Inv(reserved)
      requires book == Reserving(before, e) && IndexOfKey(book.entries, e.key) == |before.entries| && e.status == Reserved
      modifies this`book, lsf
      ensures Valid() && |book.entries| == |before.entries| + 1
      ensures var e' := book.entries[|before.entries|];
              book == Reserving(before, e') && e' == e.(status := e'.status)
              && if key.Some? then e.key == key.value && e'.status in {Submitted, Ambiguous} else e'.status == Rejected
      ensures lsf.answers == old(lsf.answers) + got && AnswersGive(got, book.entries[|before.entries|].status)
    {
      assert book.entries[|before.entries|].key == e.key;
      var status;
      status, got := AskBsub(e.key, reserved);
      SetLast(before, e, status);
      book := SetStatus(book, e.key, status);
      key := if status == Rejected then None else Some(e.key);
    }

    /** An unanswered submission is looked up by its name, and given up only after a long
        silence: then it stays on the books as unreconciled. */
    method ReconcileByName(key: nat, longSilence: bool)
      requires Valid() && HasKey(book.entries, key) && Lookup(book.entries, key).status in {Reserved, Ambiguous, Unreconciled}
      modifies this`book, lsf
      ensures Valid() && OnlyMoved(old(book), book, key) && HasKey(book.entries, key)
      ensures Lookup(book.entries, key) == old(Lookup(book.entries, key)).(status := Lookup(book.entries, key).status)
      ensures Lookup(book.entries, key).status in {old(Lookup(book.entries, key)).status, Submitted, Unreconciled}
      ensures exists found :: lsf.finds == old(lsf.finds) + [found]
                              && Named(found, longSilence, old(Lookup(book.entries, key)).status, Lookup(book.entries, key).status)
    {
      ghost var w := World(book, lsf.jobs, Idle);
      var found := lsf.Find(key);
      DriftKeepsInv(w, lsf.jobs);
      var e := Lookup(book.entries, key);
      var status := if found == Some(true) then Submitted else if found == Some(false) && longSilence then Unreconciled else e.status;
      MoveEntry(book, lsf.jobs, e.(status := status));
      book := SetStatus(book, key, status);
      assert Named(found, longSilence, e.status, status);
    }

    /** Polls one job; `done` once it is settled, by a terminal state or as lost. */
    method Observe(key: nat) returns (done: bool)
      requires Valid() && Holds(key) && Owned(Lookup(book.entries, key))
      modifies this`book, lsf
      ensures Valid() && OnlyMoved(old(book), book, key)
      ensures HasKey(book.entries, key) && (done <==> !Active(Lookup(book.entries, key).status))
    {
      if Lookup(book.entries, key).status in {Reserved, Ambiguous} {
        var longSilence: bool := *;
        ReconcileByName(key, longSilence);
        if Lookup(book.entries, key).status == Unreconciled {
          ghost var before := book;
          WriteOff(key);
          MovedTwice(old(book), before, book, key);
          return true;
        }
        if Lookup(book.entries, key).status != Submitted { return false; }
      }
      if !Active(Lookup(book.entries, key).status) { return true; }
      ghost var before := book;
      done := Poll(key);
      MovedTwice(old(book), before, book, key);
    }

    /** One query for a job. */
    method Ask(key: nat) returns (reply: Reply)
      requires Valid()
      modifies lsf
      ensures Valid() && lsf.replies == old(lsf.replies) + [reply]
      ensures reply == Finished ==> key in lsf.jobs && lsf.jobs[key] == Ended
    {
      ghost var w := World(book, lsf.jobs, Idle);
      reply := lsf.Query(key);
      DriftKeepsInv(w, lsf.jobs);
    }

    /** Polls a job whose LSF number is known, with one query: an ended job is settled, one that
        LSF does not know may be given up as lost, and anything else changes nothing. */
    method Poll(key: nat) returns (done: bool)
      requires Valid() && HasKey(book.entries, key) && Lookup(book.entries, key).status == Submitted
      modifies this`book, lsf
      ensures Valid() && OnlyMoved(old(book), book, key) && HasKey(book.entries, key)
      ensures if done then !Active(Lookup(book.entries, key).status) else book == old(book)
      ensures exists reply :: lsf.replies == old(lsf.replies) + [reply] && Answered(reply, old(book), book, key, done)
    {
      var reply := Ask(key);
      var lost: bool := *;
      if reply == Finished {
        var exited: bool, code: Option<int>, state: StageState := *, *, *;
        WriteOutcome(key, exited, code, state);
        assert Answered(reply, old(book), book, key, true);
        return true;
      }
      if reply == NotFound && lost {
        LoseTrack(key);
        assert Answered(reply, old(book), book, key, true);
        return true;
      }
      MoveNothing(book, key);
      assert Answered(reply, old(book), book, key, false);
      done := false;
    }

    /** Neither the live nor the historical query knows the job: it may still exist. */
    method LoseTrack(key: nat)
      requires Valid() && HasKey(book.entries, key) && Lookup(book.entries, key).status == Submitted
      modifies this`book
      ensures Valid() && OnlyMoved(old(book), book, key) && HasKey(book.entries, key)
      ensures Lookup(book.entries, key)
           == old(Lookup(book.entries, key)).(status := Unreconciled, outcome := Some(Lost), consumes := Some(true))
    {
      var e := Lookup(book.entries, key);
      MoveEntry(book, lsf.jobs, e.(status := Unreconciled));
      book := SetStatus(book, key, Unreconciled);
      ghost var before := book;
      WriteOff(key);
      MovedTwice(old(book), before, book, key);
    }

    /** Settles a job that has ended, from its exit record and the state its stage committed. */
    method WriteOutcome(key: nat, exited: bool, code: Option<int>, state: StageState)
      requires Valid() && HasKey(book.entries, key) && Lookup(book.entries, key).status == Submitted
      requires key in lsf.jobs && lsf.jobs[key] == Ended
      modifies this`book
      ensures Valid() && OnlyMoved(old(book), book, key) && HasKey(book.entries, key)
      ensures var e := old(Lookup(book.entries, key)); var kind := Classify(e, exited, code, state, false);
              Lookup(book.entries, key) == e.(status := Terminal, outcome := Some(kind), consumes := Some(kind !in {Skipped, AlreadyFinal}))
    {
      var e := Lookup(book.entries, key);
      var kind := Classify(e, exited, code, state, false);
      MoveEntry(book, lsf.jobs, e.(status := Terminal, outcome := Some(kind), consumes := Some(kind !in {Skipped, AlreadyFinal})));
      book := Settling(book, e, kind);
    }

    /** Settles an unreconciled entry as lost; it stays unreconciled and keeps its budget. */
    method WriteOff(key: nat)
      requires Valid() && HasKey(book.entries, key) && Lookup(book.entries, key).status == Unreconciled
      modifies this`book
      ensures Valid() && OnlyMoved(old(book), book, key)
      ensures HasKey(book.entries, key) && Lookup(book.entries, key) == old(Lookup(book.entries, key)).(outcome := Some(Lost), consumes := Some(true))
    {
      var e := Lookup(book.entries, key);
      MoveEntry(book, lsf.jobs, e.(outcome := Some(Lost), consumes := Some(true)));
      book := Settling(book, e, Lost);
    }

    /** Waits for one job over at most `polls` polls; `late` when the deadline came first. */
    method Wait(key: nat, polls: nat) returns (late: bool)
      requires Valid() && Holds(key) && Owned(Lookup(book.entries, key))
      modifies this`book, lsf
      ensures Valid() && OnlyMoved(old(book), book, key)
      ensures HasKey(book.entries, key) && (!late ==> !Active(Lookup(book.entries, key).status))
      ensures late && polls > 0 ==> Active(Lookup(book.entries, key).status)
    {
      MoveNothing(book, key);
      for i := 0 to polls
        invariant Valid() && OnlyMoved(old(book), book, key) && HasKey(book.entries, key) && Owned(Lookup(book.entries, key))
        invariant i > 0 ==> Active(Lookup(book.entries, key).status)
      {
        ghost var before := book;
        var done := Observe(key);
        MovedTwice(old(book), before, book, key);
        if done { return false; }
      }
      late := true;
    }

    /** One turn of the cost loop with an active job: wait for it. */
    method AwaitCost(latest: Entry) returns (late: bool)
      requires Valid() && Latest(book, Cost) == Some(latest) && Active(latest.status)
      modifies this`book, lsf
      ensures Valid() && book.epoch == old(book.epoch)
      ensures CountTried(book.entries, book.epoch) == old(CountTried(book.entries, book.epoch))
      ensures !late ==> !CostActive(book)
    {
      var key, polls: nat := latest.key, *;
      LatestHeld(book, latest);
      ghost var before := book;
      late := Wait(key, polls);
      OnlyMovedKeeps(before, book, key);
      if !late { NoneActive(before, book, key); }
    }

    /** The end of the cost loop, once the ledger allows no further job. */
    method EndCost() returns (end: LoopEnd)
      requires Valid() && !Decide(book).allowed && !CostActive(book)
      modifies this`book
      ensures Valid() && book.epoch == old(book.epoch) && book.entries == old(book.entries) && end in {OutOfBudget, Stopped}
      ensures end == OutOfBudget ==> book.exhausted == Some(MAX_COST_ATTEMPTS)
      ensures end == OutOfBudget <==> AllNoisy(book.entries, book.epoch) && CountTried(book.entries, book.epoch) == MAX_COST_ATTEMPTS
      ensures end == Stopped ==> book.stopped
    {
      StopKeepsInv(World(book, lsf.jobs, Idle));
      DecideMeans(book);
      TriedWithinBudget(World(book, lsf.jobs, Idle));
      if Decide(book).exhausted {
        ExhaustKeepsInv(World(book, lsf.jobs, Idle));
        if book.exhausted.None? { book := book.(exhausted := Some(BudgetUsed(book))); }
        end := OutOfBudget;
      } else {
        book := book.(stopped := true);
        end := Stopped;
      }
    }

    /** Cost jobs until the stage is final, an attempt ends other than noisy, the budget is
        spent, a submission fails, or the deadline passes. It ends by itself: every turn
        either waits for the one active job or spends one of the 21 attempts. */
    method CostLoop(at: int) returns (end: LoopEnd)
      requires Valid()
      modifies this, lsf
      ensures Valid() && book.epoch == old(book.epoch)
      ensures end == OutOfBudget ==> book.exhausted == Some(MAX_COST_ATTEMPTS) && AllNoisy(book.entries, book.epoch)
                                     && CountTried(book.entries, book.epoch) == MAX_COST_ATTEMPTS
      ensures end in {OutOfBudget, Stopped} ==> !CostActive(book)
      ensures end == Stopped ==> book.stopped
    {
      while true
        invariant Valid() && book.epoch == old(book.epoch)
        decreases MAX_COST_ATTEMPTS - CountTried(book.entries, book.epoch), CostActive(book)
      {
        var latest := Latest(book, Cost);
        if latest.Some? && Active(latest.value.status) {
          LatestActive(book, latest.value);
          var late := AwaitCost(latest.value);
          if late { return Deadline; }
          continue;
        }
        var final: bool, fits: bool := *, *;
        if final { return Final; }
        LatestIsLast(book);
        if !Decide(book).allowed {
          end := EndCost();
          return;
        }
        ghost var before := book;
        var key := Submit(Cost, at, fits);
        if key.None? {
          StoppedAfter(before, book);
          StopKeepsInv(World(book, lsf.jobs, Idle));
          book := book.(stopped := true);
          return Stopped;
        }
        SubmittedOne(before, book);
        TriedWithinBudget(World(book, lsf.jobs, Idle));
      }
    }

    /** Waits for several jobs in rounds, at most `polls` of them. */
    method WaitAll(keys: seq<nat>, polls: nat) returns (late: bool, ghost rounds: nat)
      requires Valid() && forall key | key in keys :: Holds(key) && Owned(Lookup(book.entries, key))
      modifies this`book, lsf
      ensures Valid() && MovedAmong(old(book), book, keys)
      ensures !late ==> NoneActiveOf(book, keys)
      ensures late ==> rounds == polls && exists key | key in keys :: HeldOwned(book, key)
    {
      var pending := keys;
      rounds := 0;
      MovedNone(book, keys);
      for i := 0 to polls
        invariant Valid() && MovedAmong(old(book), book, keys) && (forall key | key in pending :: key in keys)
        invariant AllOwned(book, pending) && rounds == i
        invariant forall key | key in keys && key !in pending :: Settled(book, key)
      {
        if pending == [] { break; }
        pending := Round(pending, keys);
        rounds := rounds + 1;
        if pending == [] { break; }
      }
      late := pending != [];
      if late { assert pending[0] in pending; }
    }

    /** `Observe`, for a job among several. */
    method Look(key: nat) returns (done: bool)
      requires Valid() && HeldOwned(book, key)
      modifies this`book, lsf
      ensures Valid() && OnlyMoved(old(book), book, key)
      ensures if done then Settled(book, key) else HeldOwned(book, key)
    {
      ghost var before := book;
      done := Observe(key);
      SameKeys(before, book, key);
    }

    /** One look at every pending job; the ones that are not settled yet stay pending. */
    method Round(pending: seq<nat>, ghost keys: seq<nat>) returns (left: seq<nat>)
      requires Valid() && AllOwned(book, pending) && forall key | key in pending :: key in keys
      modifies this`book, lsf
      ensures Valid() && MovedAmong(old(book), book, keys)
      ensures AllOwned(book, left) && forall key | key in left :: key in pending
      ensures forall key | key in pending && key !in left :: Settled(book, key)
      ensures forall key | key !in pending && old(Settled(book, key)) :: Settled(book, key)
    {
      left := [];
      MovedNone(book, keys);
      for i := 0 to |pending|
        invariant Valid() && MovedAmong(old(book), book, keys)
        invariant Looked(old(book), book, pending, i, left)
      {
        if pending[i] in pending[..i] {
          LookedAgain(old(book), book, pending, i, left);
        } else {
          ghost var before := book;
          var done := Look(pending[i]);
          MovedMore(old(book), before, book, keys, pending[i]);
          LookedNext(old(book), before, book, pending, i, left, done);
          left := if done then left else left + [pending[i]];
        }
      }
      assert pending[..|pending|] == pending;
    }

    /** One parallel stage: its active job is adopted, a finished stage and one whose job already
        ended are left alone, else a job is submitted. The key is the job to wait for. */
    method StartStage(stage: Stage, at: int, ghost start: Book, ghost stages: seq<Stage>, ghost keys: seq<nat>)
      returns (key: Option<nat>)
      requires Valid() && stage != Cost && stage !in stages && Started(start, book, stages, keys)
      modifies this, lsf
      ensures Valid() && Started(start, book, stages + [stage], if key.Some? then keys + [key.value] else keys)
    {
      SameLatest(start, book, stages, stage);
      SubmissionsWiden(start, book, stages, stage);
      var latest := Latest(book, stage);
      if latest.Some? && Active(latest.value.status) {
        KnownMore(book, stages, keys, stage);
        Adopted(book, stage, latest.value);
        return Some(latest.value.key);
      }
      var final: bool, fits: bool := *, *;
      if final || latest.Some? || !fits {
        KnownMore(book, stages, keys, stage);
        return None;
      }
      ghost var before := book;
      key := Submit(stage, at, true);
      SubmittedStage(start, before, book, stages, stage, at, key, keys);
    }

    /** The parallel stages: each one's job is started or adopted, then all are waited for. */
    method StageJobs(stages: seq<Stage>, at: int, polls: nat) returns (late: bool, unconfirmed: bool)
      requires Valid() && Cost !in stages && forall i, j | 0 <= i < j < |stages| :: stages[i] != stages[j]
      modifies this, lsf
      ensures Valid() && Submissions(old(book), book, stages)
      ensures !late ==> forall e | e in book.entries && e.stage in stages && e.epoch == book.epoch :: !Active(e.status)
      ensures unconfirmed <==> !late && exists e | e in book.entries :: e.status == Unreconciled
    {
      var keys: seq<nat> := [];
      for k := 0 to |stages|
        invariant Valid() && Started(old(book), book, stages[..k], keys)
      {
        assert stages[..k + 1] == stages[..k] + [stages[k]];
        var key := StartStage(stages[k], at, old(book), stages[..k], keys);
        if key.Some? { keys := keys + [key.value]; }
      }
      assert stages[..|stages|] == stages;
      ghost var before := book;
      ghost var rounds;
      late, rounds := WaitAll(keys, polls);
      WaitedSubmissions(old(book), before, book, stages, keys);
      unconfirmed := !late && exists k | 0 <= k < |book.entries| :: book.entries[k].status == Unreconciled;
    }
  }

  /** Entries of these keys moved on without being rejected; all others are as they were. */
  ghost predicate MovedAmong(b: Book, b': Book, keys: seq<nat>) {
    && |b'.entries| == |b.entries| && b' == b.(entries := b'.entries)
    && forall i | 0 <= i < |b.entries| ::
         var e, e' := b.entries[i], b'.entries[i];
         && e'.key == e.key && e'.stage == e.stage && e'.attempt == e.attempt && e'.epoch == e.epoch
         && (if e.key in keys then e.status != Rejected ==> e'.status != Rejected else e' == e)
  }

  ghost predicate HeldOwned(b: Book, key: nat) {
    && HasKey(b.entries, key) && Owned(Lookup(b.entries, key))
    && Tried(Lookup(b.entries, key), Lookup(b.entries, key).stage, b.epoch)
  }

  ghost predicate AllOwned(b: Book, keys: seq<nat>) {
    forall key | key in keys :: HeldOwned(b, key)
  }

  ghost predicate Settled(b: Book, key: nat) {
    HasKey(b.entries, key) && !Active(Lookup(b.entries, key).status)
  }

  ghost predicate NoneActiveOf(b: Book, keys: seq<nat>) {
    forall key | key in keys :: Settled(b, key)
  }

  /** A round that has looked at the first `i` pending jobs and keeps `left`. */
  ghost predicate Looked(b: Book, b': Book, pending: seq<nat>, i: nat, left: seq<nat>)
    requires i <= |pending|
  {
    && AllOwned(b', left) && (forall key | key in left :: key in pending[..i])
    && (forall key | key in pending[..i] && key !in left :: Settled(b', key))
    && (forall key | key in pending && key !in pending[..i] :: HeldOwned(b', key))
    && (forall key | key !in pending && Settled(b, key) :: Settled(b', key))
  }

  lemma LookedAgain(b: Book, b': Book, pending: seq<nat>, i: nat, left: seq<nat>)
    requires i < |pending| && pending[i] in pending[..i] && Looked(b, b', pending, i, left)
    ensures Looked(b, b', pending, i + 1, left)
  {
    assert pending[..i + 1] == pending[..i] + [pending[i]];
  }

  lemma LookedNext(b: Book, before: Book, after: Book, pending: seq<nat>, i: nat, left: seq<nat>, done: bool)
    requires i < |pending| && pending[i] !in pending[..i] && Looked(b, before, pending, i, left)
    requires OnlyMoved(before, after, pending[i])
    requires if done then Settled(after, pending[i]) else HeldOwned(after, pending[i])
    ensures Looked(b, after, pending, i + 1, if done then left else left + [pending[i]])
  {
    var key := pending[i];
    assert pending[..i + 1] == pending[..i] + [key];
    OnlyMovedElsewhere(before, after, key);
  }

  lemma MovedNone(b: Book, keys: seq<nat>)
    ensures MovedAmong(b, b, keys)
  {
  }

  /** Looking at one job leaves what is known of the others. */
  lemma OnlyMovedElsewhere(b: Book, b': Book, key: nat)
    requires OnlyMoved(b, b', key)
    ensures forall other | other != key && HeldOwned(b, other) :: HeldOwned(b', other)
    ensures forall other | other != key && Settled(b, other) :: Settled(b', other)
    ensures HasKey(b.entries, key) ==> HasKey(b'.entries, key)
  {
    forall other | HasKey(b.entries, other)
      ensures HasKey(b'.entries, other) && (other != key ==> Lookup(b'.entries, other) == Lookup(b.entries, other))
    {
      SameIndex(b.entries, b'.entries, other);
    }
  }

  lemma {:induction false} SameIndex(a: seq<Entry>, b: seq<Entry>, key: nat)
    requires |a| == |b| && (forall i | 0 <= i < |a| :: a[i].key == b[i].key)
    ensures IndexOfKey(a, key) == IndexOfKey(b, key)
    ensures HasKey(a, key) ==> HasKey(b, key)
  {
    if a != [] && a[0].key != key {
      SameIndex(a[1..], b[1..], key);
    }
    if HasKey(a, key) {
      var i :| 0 <= i < |a| && a[i].key == key;
      assert b[i] in b;
    }
  }

  /** The entry of `key` is where it was, and still of its stage and epoch. */
  lemma SameKeys(b: Book, b': Book, key: nat)
    requires OnlyMoved(b, b', key) && HeldOwned(b, key)
    ensures HasKey(b'.entries, key) && (Owned(Lookup(b'.entries, key)) ==> HeldOwned(b', key))
  {
    SameIndex(b.entries, b'.entries, key);
  }

  lemma MovedMore(a: Book, b: Book, c: Book, keys: seq<nat>, key: nat)
    requires MovedAmong(a, b, keys) && OnlyMoved(b, c, key) && key in keys
    ensures MovedAmong(a, c, keys)
  {
    forall i | 0 <= i < |a.entries|
      ensures var e, e' := a.entries[i], c.entries[i];
              && e'.key == e.key && e'.stage == e.stage && e'.attempt == e.attempt && e'.epoch == e.epoch
              && (if e.key in keys then e.status != Rejected ==> e'.status != Rejected else e' == e)
    {
      assert b.entries[i].key == a.entries[i].key;
    }
  }

  lemma MoveNothing(b: Book, key: nat)
    ensures OnlyMoved(b, b, key)
  {
  }

  lemma LatestActive(b: Book, e: Entry)
    requires Latest(b, Cost) == Some(e) && Active(e.status)
    ensures CostActive(b)
  {
  }

  lemma SubmittedOne(b: Book, b': Book)
    requires exists at, key: Option<nat> :: key.Some? && Grown(b, b', Cost, at, key)
    ensures CountTried(b'.entries, b.epoch) == CountTried(b.entries, b.epoch) + 1
  {
    assert b'.entries[..|b'.entries| - 1] == b.entries;
  }

  lemma ReservedLast(b: Book, e: Entry)
    requires forall x | x in b.entries :: x.key != e.key
    ensures IndexOfKey(Reserving(b, e).entries, e.key) == |b.entries|
  {
    assert Reserving(b, e).entries[|b.entries|].key == e.key;
  }

  lemma SetLast(b: Book, e: Entry, status: Status)
    requires IndexOfKey(Reserving(b, e).entries, e.key) == |b.entries|
    ensures HasKey(Reserving(b, e).entries, e.key)
    ensures SetStatus(Reserving(b, e), e.key, status) == Reserving(b, e.(status := status))
  {
  }

  lemma StopKeepsInv(w: World)
    requires Inv(w)
    ensures Inv(w.(book := w.book.(stopped := true)))
  {
  }

  lemma ExhaustKeepsInv(w: World)
    requires Inv(w) && Decide(w.book).exhausted
    ensures Inv(w.(book := w.book.(exhausted := Some(BudgetUsed(w.book)))))
    ensures BudgetUsed(w.book) == MAX_COST_ATTEMPTS && AllNoisy(w.book.entries, w.book.epoch) && CountTried(w.book.entries, w.book.epoch) == MAX_COST_ATTEMPTS
  {
    ExhaustBudget(w.book);
    LastNoisyAllNoisy(w.book);
  }

  lemma TriedWithinBudget(w: World)
    requires Inv(w)
    ensures CountTried(w.book.entries, w.book.epoch) <= MAX_COST_ATTEMPTS
  {
  }

  lemma LatestHeld(b: Book, e: Entry)
    requires Orderly(b.entries, b.epoch) && Latest(b, Cost) == Some(e)
    ensures HasKey(b.entries, e.key) && Lookup(b.entries, e.key) == e && Tried(e, Cost, b.epoch)
  {
    var i :| 0 <= i < |b.entries| && b.entries[i] == e;
    LookupUnique(b, b, e.key, i);
  }

  /** After the one active cost job is settled no cost job is active. */
  lemma NoneActive(b: Book, b': Book, key: nat)
    requires Orderly(b.entries, b.epoch) && OnlyMoved(b, b', key) && HasKey(b.entries, key) && HasKey(b'.entries, key)
    requires Lookup(b.entries, key).stage == Cost && Owned(Lookup(b.entries, key)) && !Active(Lookup(b'.entries, key).status)
    ensures !CostActive(b')
  {
    forall e' | e' in b'.entries && Tried(e', Cost, b'.epoch) ensures !Active(e'.status) {
      var i :| 0 <= i < |b'.entries| && b'.entries[i] == e';
      if e'.key == key {
        assert b.entries[i].key == key;
        var j := IndexOfKey(b'.entries, key);
        assert b.entries[j].key == key;
      } else if Active(e'.status) {
        OneOwnedCost(b, b.entries[i], Lookup(b.entries, key));
      }
    }
  }

  /** The latest cost entry is the last attempt, so no other cost job can be active. */
  lemma LatestIsLast(b: Book)
    requires Orderly(b.entries, b.epoch) && (Latest(b, Cost).Some? ==> !Active(Latest(b, Cost).value.status))
    ensures !CostActive(b)
  {
    forall e | e in b.entries && Tried(e, Cost, b.epoch) ensures !Active(e.status) {
      assert e in Tries(b.entries, Cost, b.epoch);
      var last := Latest(b, Cost).value;
      assert !Later(e, last);
      NoLaterActive(b, e, last);
    }
  }

  lemma NoLaterActive(b: Book, e: Entry, last: Entry)
    requires Orderly(b.entries, b.epoch) && e in b.entries && last in b.entries && Tried(e, Cost, b.epoch) && Tried(last, Cost, b.epoch)
    requires !Later(e, last) && !Active(last.status)
    ensures !Active(e.status)
  {
    var i, j :| 0 <= i < |b.entries| && 0 <= j < |b.entries| && b.entries[i] == e && b.entries[j] == last;
    if i < j {
      SuccessionAt(b, i, j);
    }
  }

  lemma StoppedAfter(b: Book, b': Book)
    requires !CostActive(b) && b'.epoch == b.epoch
    requires b' == b || exists at :: Grown(b, b', Cost, at, None)
    ensures !CostActive(b')
  {
  }

  // ----- The parallel stages

  /** What submitting for these stages may have done: at most one new entry for each, only where
      the epoch had no try of the stage yet, and no entry of another stage moved. */
  ghost predicate Submissions(b: Book, b': Book, stages: seq<Stage>) {
    && b'.epoch == b.epoch && |b.entries| <= |b'.entries|
    && (forall i | 0 <= i < |b.entries| :: Continues(b.entries[i], b'.entries[i], stages))
    && (forall i | |b.entries| <= i < |b'.entries| ::
          b'.entries[i].stage in stages && b'.entries[i].epoch == b.epoch && Latest(b, b'.entries[i].stage).None?)
    && (forall i, j | |b.entries| <= i < j < |b'.entries| :: b'.entries[i].stage != b'.entries[j].stage)
  }

  predicate Continues(e: Entry, e': Entry, stages: seq<Stage>) {
    && e'.key == e.key && e'.stage == e.stage && e'.attempt == e.attempt && e'.epoch == e.epoch
    && (e.status != Rejected ==> e'.status != Rejected)
    && (e.stage !in stages ==> e' == e)
  }

  /** Every active entry of these stages in this epoch has one of these keys. */
  ghost predicate Known(b: Book, stages: seq<Stage>, keys: seq<nat>) {
    forall e | e in b.entries && e.stage in stages && e.epoch == b.epoch && Active(e.status) :: e.key in keys
  }

  /** A stage other than cost has at most one try in an epoch, its latest entry. */
  lemma OnlyTry(b: Book, stage: Stage, e: Entry)
    requires Orderly(b.entries, b.epoch) && stage != Cost && e in b.entries && Tried(e, stage, b.epoch)
    ensures Latest(b, stage) == Some(e)
  {
    assert e in Tries(b.entries, stage, b.epoch);
    var last := Latest(b, stage).value;
    var i, j :| 0 <= i < |b.entries| && 0 <= j < |b.entries| && b.entries[i] == e && b.entries[j] == last;
    assert !Succession(e, last) && !Succession(last, e);
    assert !(i < j) && !(j < i);
  }

  ghost predicate OfStages(b: Book, stages: seq<Stage>, keys: seq<nat>) {
    forall e | e in b.entries && e.key in keys :: e.stage in stages
  }

  /** These stages were looked at, and these are the jobs to wait for. */
  ghost predicate Started(b: Book, b': Book, stages: seq<Stage>, keys: seq<nat>) {
    Submissions(b, b', stages) && AllOwned(b', keys) && Known(b', stages, keys) && OfStages(b', stages, keys)
  }

  lemma SubmissionsWiden(b: Book, b': Book, stages: seq<Stage>, stage: Stage)
    requires Submissions(b, b', stages)
    ensures Submissions(b, b', stages + [stage])
  {
    forall i | 0 <= i < |b.entries|
      ensures Continues(b.entries[i], b'.entries[i], stages + [stage])
    {
      assert Continues(b.entries[i], b'.entries[i], stages);
    }
  }

  lemma {:induction false} TriesSame(a: seq<Entry>, more: seq<Entry>, stage: Stage, epoch: nat)
    requires |a| <= |more|
    requires forall i | 0 <= i < |a| :: a[i].stage == more[i].stage && (a[i].stage == stage ==> more[i] == a[i])
    requires forall i | |a| <= i < |more| :: more[i].stage != stage
    ensures Tries(more, stage, epoch) == Tries(a, stage, epoch)
  {
    if more != [] {
      if a == [] {
        TriesSame(a, more[1..], stage, epoch);
      } else {
        TriesSame(a[1..], more[1..], stage, epoch);
      }
    }
  }

  /** A stage that was not looked at yet has the latest entry that it had. */
  lemma SameLatest(b: Book, b': Book, stages: seq<Stage>, stage: Stage)
    requires Submissions(b, b', stages) && stage !in stages
    ensures Latest(b', stage) == Latest(b, stage)
  {
    forall i | 0 <= i < |b.entries|
      ensures b.entries[i].stage == b'.entries[i].stage && (b.entries[i].stage == stage ==> b'.entries[i] == b.entries[i])
    {
      assert Continues(b.entries[i], b'.entries[i], stages);
    }
    TriesSame(b.entries, b'.entries, stage, b.epoch);
  }

  lemma Adopted(b: Book, stage: Stage, e: Entry)
    requires Orderly(b.entries, b.epoch) && Latest(b, stage) == Some(e) && Active(e.status)
    ensures HeldOwned(b, e.key) && forall x | x in b.entries && x.key == e.key :: x == e
  {
    var i :| 0 <= i < |b.entries| && b.entries[i] == e;
    LookupUnique(b, b, e.key, i);
    forall x | x in b.entries && x.key == e.key
      ensures x == e
    {
      var j :| 0 <= j < |b.entries| && b.entries[j] == x;
    }
  }

  /** One more stage: its latest entry, when it is active, is its only active one. */
  lemma KnownMore(b: Book, stages: seq<Stage>, keys: seq<nat>, stage: Stage)
    requires Orderly(b.entries, b.epoch) && stage != Cost && Known(b, stages, keys)
    ensures var latest := Latest(b, stage);
            if latest.Some? && Active(latest.value.status) then Known(b, stages + [stage], keys + [latest.value.key])
            else Known(b, stages + [stage], keys)
  {
    forall e | e in b.entries && e.stage == stage && e.epoch == b.epoch && Active(e.status)
      ensures Latest(b, stage) == Some(e)
    {
      OnlyTry(b, stage, e);
    }
  }

  lemma SubmittedMore(b: Book, before: Book, after: Book, stages: seq<Stage>, stage: Stage, at: int, key: Option<nat>)
    requires Submissions(b, before, stages) && stage !in stages && Latest(b, stage).None?
    requires Grown(before, after, stage, at, key)
    ensures Submissions(b, after, stages + [stage])
  {
    SubmissionsWiden(b, before, stages, stage);
    forall i | 0 <= i < |b.entries|
      ensures Continues(b.entries[i], after.entries[i], stages + [stage])
    {
      assert after.entries[i] == before.entries[i];
    }
    forall i | |b.entries| <= i < |after.entries| - 1
      ensures after.entries[i].stage in stages
    {
      assert after.entries[i] == before.entries[i];
    }
  }

  lemma SubmittedKnown(before: Book, after: Book, stages: seq<Stage>, stage: Stage, at: int, key: Option<nat>, keys: seq<nat>)
    requires Latest(before, stage).None? && Grown(before, after, stage, at, key)
    requires Known(before, stages, keys)
    ensures Known(after, stages + [stage], if key.Some? then keys + [key.value] else keys)
  {
    forall x | x in before.entries && x.stage == stage && x.epoch == before.epoch
      ensures x.status == Rejected
    {
      assert x in Tries(before.entries, stage, before.epoch) <==> Tried(x, stage, before.epoch);
    }
  }

  lemma SubmittedOwned(before: Book, after: Book, stage: Stage, at: int, key: Option<nat>, keys: seq<nat>)
    requires AllOwned(before, keys) && Grown(before, after, stage, at, key) && Orderly(after.entries, after.epoch)
    ensures AllOwned(after, if key.Some? then keys + [key.value] else keys)
  {
    StillOwned(before, after, keys);
    var n := |before.entries|;
    LookupUnique(after, after, after.entries[n].key, n);
  }

  lemma SubmittedOfStages(before: Book, after: Book, stages: seq<Stage>, stage: Stage, at: int, key: Option<nat>, keys: seq<nat>)
    requires OfStages(before, stages, keys) && Grown(before, after, stage, at, key) && Orderly(after.entries, after.epoch)
    ensures OfStages(after, stages + [stage], if key.Some? then keys + [key.value] else keys)
  {
    var last := after.entries[|before.entries|];
    forall e | e in after.entries && (e.key in keys || (key.Some? && e.key == key.value))
      ensures e.stage in stages + [stage]
    {
      if e != last {
        assert e in before.entries;
        if e.key !in keys { Unique(after, e, last); }
      }
    }
  }

  /** One more stage, submitted: the new entry is the only one of its stage in the epoch. */
  lemma SubmittedStage(b: Book, before: Book, after: Book, stages: seq<Stage>, stage: Stage, at: int, key: Option<nat>,
                       keys: seq<nat>)
    requires Started(b, before, stages, keys) && stage !in stages
    requires Latest(before, stage).None? && Latest(b, stage).None?
    requires Grown(before, after, stage, at, key) && Orderly(after.entries, after.epoch)
    ensures Started(b, after, stages + [stage], if key.Some? then keys + [key.value] else keys)
  {
    SubmittedMore(b, before, after, stages, stage, at, key);
    SubmittedKnown(before, after, stages, stage, at, key, keys);
    SubmittedOwned(before, after, stage, at, key, keys);
    SubmittedOfStages(before, after, stages, stage, at, key, keys);
  }

  lemma Unique(b: Book, x: Entry, y: Entry)
    requires Orderly(b.entries, b.epoch) && x in b.entries && y in b.entries && x.key == y.key
    ensures x == y
  {
    var i, j :| 0 <= i < |b.entries| && 0 <= j < |b.entries| && b.entries[i] == x && b.entries[j] == y;
  }

  lemma StillOwned(b: Book, b': Book, keys: seq<nat>)
    requires AllOwned(b, keys) && |b'.entries| == |b.entries| + 1 && b' == Reserving(b, b'.entries[|b.entries|])
    ensures AllOwned(b', keys)
  {
    forall key | key in keys
      ensures HeldOwned(b', key)
    {
      SameIndexPrefix(b.entries, b'.entries[|b.entries|], key);
      assert HeldOwned(b, key);
    }
  }

  lemma {:induction false} SameIndexPrefix(a: seq<Entry>, e: Entry, key: nat)
    requires HasKey(a, key)
    ensures HasKey(a + [e], key) && IndexOfKey(a + [e], key) == IndexOfKey(a, key) < |a|
  {
    var i :| 0 <= i < |a| && a[i].key == key;
    assert (a + [e])[i].key == key;
    if a[0].key != key {
      assert (a + [e])[1..] == a[1..] + [e];
      assert a[1..][i - 1].key == key;
      SameIndexPrefix(a[1..], e, key);
    }
  }

  /** Waiting for the known jobs moves nothing else, and leaves none of them active. */
  lemma WaitedSubmissions(b: Book, before: Book, after: Book, stages: seq<Stage>, keys: seq<nat>)
    requires Submissions(b, before, stages) && MovedAmong(before, after, keys)
    requires Known(before, stages, keys) && OfStages(before, stages, keys)
    ensures Submissions(b, after, stages)
    ensures NoneActiveOf(after, keys) && Orderly(after.entries, after.epoch) ==>
              forall e | e in after.entries && e.stage in stages && e.epoch == after.epoch :: !Active(e.status)
  {
    forall i | 0 <= i < |b.entries|
      ensures Continues(b.entries[i], after.entries[i], stages)
    {
      assert Continues(b.entries[i], before.entries[i], stages);
      assert before.entries[i] in before.entries;
    }
    if NoneActiveOf(after, keys) && Orderly(after.entries, after.epoch) {
      forall e | e in after.entries && e.stage in stages && e.epoch == after.epoch
        ensures !Active(e.status)
      {
        var i :| 0 <= i < |after.entries| && after.entries[i] == e;
        assert before.entries[i] in before.entries;
        if e.key in keys {
          LookupUnique(after, after, e.key, i);
          assert Settled(after, e.key);
        }
      }
    }
  }
}
