/** The durable orchestration ledger and the noise-retry budget computed from it. */
module Ledger {

  import opened Prelude

  datatype Stage = Compile | Quality | Correctness | UnitTests | Cost | Clean

  datatype Status = Reserved | Submitted | Ambiguous | Unreconciled | Terminal | Rejected

  datatype Kind =
    | Noisy | Complete | Skipped | AlreadyFinal | Failed | Precondition | Usage
    | Killed | Terminated | Inconsistent | Unknown | Lost | Cancelled

  /** `attempt` is 0 for stages without attempt numbers. */
  datatype Entry = Entry(key: nat, stage: Stage, attempt: nat, epoch: nat, reservedAt: int,
                         status: Status, outcome: Option<Kind>, consumes: Option<bool>)

  datatype Book = Book(entries: seq<Entry>, epoch: nat, exhausted: Option<nat>, stopped: bool)

  const MAX_COST_RETRIES: nat := 20
  const MAX_COST_ATTEMPTS: nat := MAX_COST_RETRIES + 1
  const MAX_REJECTIONS: nat := 3

  predicate Active(s: Status) {
    s in {Reserved, Submitted, Ambiguous}
  }

  /** May still have a job in LSF. */
  predicate Owned(e: Entry) {
    Active(e.status) || e.status == Unreconciled
  }

  /** An entry of the stage and epoch that was not positively rejected. */
  predicate Tried(e: Entry, stage: Stage, epoch: nat) {
    e.stage == stage && e.epoch == epoch && e.status != Rejected
  }

  function Tries(entries: seq<Entry>, stage: Stage, epoch: nat): (r: seq<Entry>)
    ensures forall e :: e in r <==> e in entries && Tried(e, stage, epoch)
  {
    if entries == [] then []
    else (if Tried(entries[0], stage, epoch) then [entries[0]] else []) + Tries(entries[1..], stage, epoch)
  }

  // ----- The entry that a stage's next step rests on

  predicate Later(a: Entry, b: Entry) {
    a.attempt > b.attempt || (a.attempt == b.attempt && a.reservedAt > b.reservedAt)
  }

  /** The first of the latest entries, as Python's `max` returns it. */
  function Newest(entries: seq<Entry>): (e: Entry)
    requires entries != []
    ensures e in entries && forall x | x in entries :: !Later(x, e)
  {
    if |entries| == 1 then entries[0]
    else
      var rest := Newest(entries[1..]);
      assert entries == [entries[0]] + entries[1..];
      if Later(rest, entries[0]) then rest else entries[0]
  }

  function Latest(b: Book, stage: Stage): Option<Entry> {
    var tries := Tries(b.entries, stage, b.epoch);
    if tries == [] then None else Some(Newest(tries))
  }

  // ----- Cost attempts and the retry budget

  function Insert(e: Entry, sorted: seq<Entry>): seq<Entry> {
    if sorted == [] || e.attempt <= sorted[0].attempt then [e] + sorted else [sorted[0]] + Insert(e, sorted[1..])
  }

  function SortByAttempt(entries: seq<Entry>): seq<Entry> {
    if entries == [] then [] else Insert(entries[0], SortByAttempt(entries[1..]))
  }

  function CostAttempts(b: Book): seq<Entry> {
    SortByAttempt(Tries(b.entries, Cost, b.epoch))
  }

  function NextAttempt(entries: seq<Entry>): (n: nat)
    ensures n >= 1 && forall e | e in entries && e.stage == Cost :: e.attempt < n
    ensures n == 1 || exists e | e in entries :: e.stage == Cost && e.attempt + 1 == n
  {
    if entries == [] then 1
    else
      var rest := NextAttempt(entries[1..]);
      if entries[0].stage == Cost && entries[0].attempt >= rest then entries[0].attempt + 1 else rest
  }

  function CountConsuming(entries: seq<Entry>): nat {
    if entries == [] then 0
    else (if entries[0].status != Rejected && entries[0].consumes != Some(false) then 1 else 0) + CountConsuming(entries[1..])
  }

  function BudgetUsed(b: Book): nat {
    CountConsuming(CostAttempts(b))
  }

  datatype Decision = Decision(allowed: bool, exhausted: bool)

  function Decide(b: Book): Decision {
    var attempts := CostAttempts(b);
    if attempts != [] && Active(attempts[|attempts| - 1].status) then Decision(false, false)
    else if attempts != [] && attempts[|attempts| - 1].outcome != Some(Noisy) then Decision(false, false)
    else if BudgetUsed(b) >= MAX_COST_ATTEMPTS then Decision(false, true)
    else Decision(true, false)
  }

  // ----- Writes

  predicate HasKey(entries: seq<Entry>, key: nat) {
    exists i | 0 <= i < |entries| :: entries[i].key == key
  }

  function IndexOfKey(entries: seq<Entry>, key: nat): (i: nat)
    ensures i <= |entries| && (i < |entries| ==> entries[i].key == key)
    ensures i == |entries| ==> forall j | 0 <= j < |entries| :: entries[j].key != key
  {
    if entries == [] || entries[0].key == key then 0 else IndexOfKey(entries[1..], key) + 1
  }

  function Lookup(entries: seq<Entry>, key: nat): (e: Entry)
    requires HasKey(entries, key)
    ensures e in entries && e.key == key
  {
    entries[IndexOfKey(entries, key)]
  }

  function Fresh(b: Book, stage: Stage, attempt: nat, key: nat, at: int): Entry {
    Entry(key, stage, attempt, b.epoch, at, Reserved, None, None)
  }

  function Reserving(b: Book, e: Entry): Book {
    b.(entries := b.entries + [e])
  }

  /** Replaces the entry of `e`'s key. */
  function Updating(b: Book, e: Entry): (after: Book)
    requires HasKey(b.entries, e.key)
    ensures |after.entries| == |b.entries| && after.epoch == b.epoch && after.exhausted == b.exhausted
  {
    b.(entries := b.entries[IndexOfKey(b.entries, e.key) := e])
  }

  function Settling(b: Book, e: Entry, kind: Kind): Book
    requires HasKey(b.entries, e.key)
  {
    Updating(b, e.(status := if e.status == Unreconciled then Unreconciled else Terminal, outcome := Some(kind),
                   consumes := Some(kind !in {Skipped, AlreadyFinal})))
  }

  function NextEpoch(b: Book): Book {
    Book(b.entries, b.epoch + 1, None, false)
  }

  // ----- The submission gates

  /** What `stage_jobs`, `cost_loop` and `cleanup_job` check before they submit. */
  predicate MaySubmit(b: Book, stage: Stage) {
    if stage == Cost then
      (Latest(b, Cost).Some? ==> !Active(Latest(b, Cost).value.status)) && Decide(b).allowed
    else Latest(b, stage).None?
  }

  function AttemptFor(b: Book, stage: Stage): nat {
    if stage == Cost then NextAttempt(b.entries) else 0
  }
}
