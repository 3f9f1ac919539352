/** The routing replay as it runs: per-wire queues and an in-place wire map, proved to compute
    `Replay.Judge`. */
module ReplayQueues {

  import opened Prelude
  import opened Circuits
  import opened Permutations
  import opened Replay

  type Queues = map<Wire, seq<nat>>

  /** A wire without a queue has an empty one. */
  function Waiting(queues: Queues, w: Wire): seq<nat> {
    if w in queues then queues[w] else []
  }

  function Head(queues: Queues, w: Wire): Option<nat> {
    var q := Waiting(queues, w);
    if q == [] then None else Some(q[0])
  }

  // ----- What the queues hold while the operations `rem` are pending

  predicate Indices(rem: seq<nat>, n: nat) {
    forall i | 0 <= i < |rem| :: rem[i] < n
  }

  function Pick(ops: seq<Op>, rem: seq<nat>): (r: seq<Op>)
    requires Indices(rem, |ops|)
    ensures |r| == |rem| && forall i | 0 <= i < |rem| :: r[i] == ops[rem[i]]
  {
    seq(|rem|, i requires 0 <= i < |rem| => ops[rem[i]])
  }

  /** How often a wire occurs: an operation enters the queue of a repeated wire repeatedly. */
  function Times(ws: seq<Wire>, w: Wire): nat {
    if ws == [] then 0 else (if ws[0] == w then 1 else 0) + Times(ws[1..], w)
  }

  function Copies(i: nat, k: nat): (s: seq<nat>)
    ensures |s| == k && forall j | 0 <= j < k :: s[j] == i
  {
    seq(k, _ => i)
  }

  function Queue(ops: seq<Op>, rem: seq<nat>, w: Wire): seq<nat>
    requires Indices(rem, |ops|)
  {
    if rem == [] then [] else Copies(rem[0], Times(ops[rem[0]].Wires(), w)) + Queue(ops, rem[1..], w)
  }

  ghost predicate Holds(queues: Queues, ops: seq<Op>, rem: seq<nat>)
    requires Indices(rem, |ops|)
  {
    forall w :: Waiting(queues, w) == Queue(ops, rem, w)
  }

  lemma {:induction false} TimesOn(ws: seq<Wire>, w: Wire)
    ensures Times(ws, w) > 0 <==> w in ws
  {
    if ws != [] {
      TimesOn(ws[1..], w);
    }
  }

  lemma {:induction false} TimesSnoc(ws: seq<Wire>, x: Wire, w: Wire)
    ensures Times(ws + [x], w) == Times(ws, w) + if x == w then 1 else 0
  {
    if ws == [] {
      assert ws + [x] == [x];
    } else {
      assert (ws + [x])[1..] == ws[1..] + [x];
      TimesSnoc(ws[1..], x, w);
    }
  }

  lemma {:induction false} QueueAppend(ops: seq<Op>, a: seq<nat>, b: seq<nat>, w: Wire)
    requires Indices(a, |ops|) && Indices(b, |ops|)
    ensures Queue(ops, a + b, w) == Queue(ops, a, w) + Queue(ops, b, w)
  {
    if a == [] {
      assert a + b == b;
    } else {
      assert (a + b)[1..] == a[1..] + b;
      QueueAppend(ops, a[1..], b, w);
      var first := Copies(a[0], Times(ops[a[0]].Wires(), w));
      assert first + (Queue(ops, a[1..], w) + Queue(ops, b, w)) == (first + Queue(ops, a[1..], w)) + Queue(ops, b, w);
    }
  }

  lemma {:induction false} QueueMoreOps(ops: seq<Op>, more: seq<Op>, rem: seq<nat>, w: Wire)
    requires Indices(rem, |ops|)
    ensures Queue(ops + more, rem, w) == Queue(ops, rem, w)
  {
    if rem != [] {
      QueueMoreOps(ops, more, rem[1..], w);
    }
  }

  lemma {:induction false} QueueEmpty(ops: seq<Op>, rem: seq<nat>, w: Wire)
    requires Indices(rem, |ops|) && forall i | 0 <= i < |rem| :: !ops[rem[i]].On(w)
    ensures Queue(ops, rem, w) == []
  {
    if rem != [] {
      TimesOn(ops[rem[0]].Wires(), w);
      QueueEmpty(ops, rem[1..], w);
    }
  }

  function Skip(rem: seq<nat>, k: nat): (r: seq<nat>)
    requires k < |rem|
    ensures forall n | Indices(rem, n) :: Indices(r, n)
  {
    rem[..k] + rem[k + 1..]
  }

  lemma QueueSplit(ops: seq<Op>, rem: seq<nat>, k: nat, w: Wire)
    requires Indices(rem, |ops|) && k < |rem|
    ensures Queue(ops, rem, w)
            == Queue(ops, rem[..k], w) + (Copies(rem[k], Times(ops[rem[k]].Wires(), w)) + Queue(ops, rem[k + 1..], w))
    ensures Queue(ops, Skip(rem, k), w) == Queue(ops, rem[..k], w) + Queue(ops, rem[k + 1..], w)
  {
    assert rem == rem[..k] + rem[k..];
    QueueAppend(ops, rem[..k], rem[k..], w);
    QueueAppend(ops, rem[..k], rem[k + 1..], w);
    assert rem[k..][1..] == rem[k + 1..];
  }

  /** Nothing waits on a wire of `o` ahead of the first pending operation that meets `o`. */
  lemma QueueBefore(ops: seq<Op>, rem: seq<nat>, o: Op, w: Wire)
    requires Indices(rem, |ops|) && o.On(w)
    ensures Queue(ops, rem[..FirstOn(Pick(ops, rem), o)], w) == []
  {
    var k := FirstOn(Pick(ops, rem), o);
    FirstOnMeets(Pick(ops, rem), o);
    forall i | 0 <= i < k ensures !ops[rem[..k][i]].On(w) {
      assert !Shares(Pick(ops, rem)[i], o);
    }
    QueueEmpty(ops, rem[..k], w);
  }

  lemma QueueHead(ops: seq<Op>, rem: seq<nat>, o: Op, w: Wire)
    requires Indices(rem, |ops|) && o.On(w)
    ensures var k := FirstOn(Pick(ops, rem), o);
            && (k == |rem| ==> Queue(ops, rem, w) == [])
            && (k < |rem| && ops[rem[k]].On(w) ==> Queue(ops, rem, w) != [] && Queue(ops, rem, w)[0] == rem[k])
  {
    var k := FirstOn(Pick(ops, rem), o);
    QueueBefore(ops, rem, o, w);
    if k == |rem| {
      assert rem[..k] == rem;
    } else if ops[rem[k]].On(w) {
      QueueSplit(ops, rem, k, w);
      TimesOn(ops[rem[k]].Wires(), w);
    }
  }

  /** All wires of `o` have a head, the same one, and it is `o`. */
  predicate HeadsMatch(queues: Queues, ops: seq<Op>, o: Op)
    requires o.Wires() != []
  {
    var first := Head(queues, o.Wires()[0]);
    && first.Some?
    && (forall w | w in o.Wires() :: Head(queues, w) == first)
    && first.value < |ops| && ops[first.value] == o
  }

  /** The first pending operation that meets `o` is `o`. */
  ghost predicate FirstIs(ops: seq<Op>, rem: seq<nat>, o: Op)
    requires Indices(rem, |ops|)
  {
    var k := FirstOn(Pick(ops, rem), o);
    k < |rem| && ops[rem[k]] == o
  }

  lemma HeadAt(queues: Queues, ops: seq<Op>, rem: seq<nat>, o: Op, w: Wire)
    requires Indices(rem, |ops|) && Holds(queues, ops, rem) && o.On(w)
    ensures var k := FirstOn(Pick(ops, rem), o);
            && (k == |rem| ==> Head(queues, w) == None)
            && (k < |rem| && ops[rem[k]].On(w) ==> Head(queues, w) == Some(rem[k]))
  {
    QueueHead(ops, rem, o, w);
    assert Waiting(queues, w) == Queue(ops, rem, w);
  }

  lemma HeadsAgree(queues: Queues, ops: seq<Op>, rem: seq<nat>, o: Op)
    requires Indices(rem, |ops|) && Holds(queues, ops, rem) && o.Wires() != [] && FirstIs(ops, rem, o)
    ensures HeadsMatch(queues, ops, o)
  {
    forall w | w in o.Wires() ensures Head(queues, w) == Some(rem[FirstOn(Pick(ops, rem), o)]) {
      HeadAt(queues, ops, rem, o, w);
    }
  }

  lemma AgreedHeads(queues: Queues, ops: seq<Op>, rem: seq<nat>, o: Op)
    requires Indices(rem, |ops|) && Holds(queues, ops, rem) && o.Wires() != []
    ensures HeadsMatch(queues, ops, o) ==> FirstIs(ops, rem, o)
  {
    if HeadsMatch(queues, ops, o) {
      var k := FirstOn(Pick(ops, rem), o);
      HeadAt(queues, ops, rem, o, o.Wires()[0]);
      FirstOnMeets(Pick(ops, rem), o);
      var w :| w in ops[rem[k]].Wires() && o.On(w);
      HeadAt(queues, ops, rem, o, w);
    }
  }

  /** The queue heads agree on `o` exactly when `o` can be taken out of the pending list. */
  lemma HeadsMatchPending(queues: Queues, ops: seq<Op>, rem: seq<nat>, o: Op)
    requires Indices(rem, |ops|) && Holds(queues, ops, rem) && o.Wires() != []
    ensures HeadsMatch(queues, ops, o) <==> FirstIs(ops, rem, o)
  {
    if FirstIs(ops, rem, o) {
      HeadsAgree(queues, ops, rem, o);
    } else if HeadsMatch(queues, ops, o) {
      AgreedHeads(queues, ops, rem, o);
    }
  }

  lemma PickWithout(ops: seq<Op>, rem: seq<nat>, k: nat)
    requires Indices(rem, |ops|) && k < |rem|
    ensures Indices(Skip(rem, k), |ops|) && Pick(ops, Skip(rem, k)) == Without(Pick(ops, rem), k)
  {
  }

  lemma PopOne(ops: seq<Op>, rem: seq<nat>, o: Op, w: Wire)
    requires Indices(rem, |ops|) && FirstIs(ops, rem, o)
    ensures var k := FirstOn(Pick(ops, rem), o);
            Queue(ops, rem, w) == Copies(rem[k], Times(o.Wires(), w)) + Queue(ops, Skip(rem, k), w)
  {
    var k := FirstOn(Pick(ops, rem), o);
    QueueSplit(ops, rem, k, w);
    TimesOn(o.Wires(), w);
    if o.On(w) {
      QueueBefore(ops, rem, o, w);
    }
    Reorder(Queue(ops, rem[..k], w), Copies(rem[k], Times(o.Wires(), w)), Queue(ops, rem[k + 1..], w));
  }

  lemma Reorder<T>(a: seq<T>, b: seq<T>, c: seq<T>)
    requires a == [] || b == []
    ensures a + (b + c) == b + (a + c)
  {
    assert [] + (b + c) == b + c && [] + (a + c) == a + c && [] + c == c;
  }

  lemma PopFits(queues: Queues, ops: seq<Op>, rem: seq<nat>, o: Op)
    requires Indices(rem, |ops|) && Holds(queues, ops, rem) && FirstIs(ops, rem, o)
    ensures forall w :: |Waiting(queues, w)| >= Times(o.Wires(), w)
  {
    forall w ensures |Waiting(queues, w)| >= Times(o.Wires(), w) {
      PopOne(ops, rem, o, w);
      assert Waiting(queues, w) == Queue(ops, rem, w);
    }
  }

  /** Dropping one queue entry per wire of the matched operation leaves the other operations. */
  lemma PopHolds(queues: Queues, after: Queues, ops: seq<Op>, rem: seq<nat>, o: Op)
    requires Indices(rem, |ops|) && Holds(queues, ops, rem) && FirstIs(ops, rem, o)
    requires forall w :: |Waiting(queues, w)| >= Times(o.Wires(), w) && Waiting(after, w) == Waiting(queues, w)[Times(o.Wires(), w)..]
    ensures var k := FirstOn(Pick(ops, rem), o); Indices(Skip(rem, k), |ops|) && Holds(after, ops, Skip(rem, k))
  {
    var k := FirstOn(Pick(ops, rem), o);
    forall w ensures Waiting(after, w) == Queue(ops, Skip(rem, k), w) {
      PopOne(ops, rem, o, w);
      assert Waiting(queues, w) == Queue(ops, rem, w);
      assert (Copies(rem[k], Times(o.Wires(), w)) + Queue(ops, Skip(rem, k), w))[Times(o.Wires(), w)..] == Queue(ops, Skip(rem, k), w);
    }
  }

  lemma EmptyQueues(queues: Queues, ops: seq<Op>, rem: seq<nat>)
    requires Indices(rem, |ops|) && Holds(queues, ops, rem) && Wired(ops)
    ensures (forall w | w in queues :: queues[w] == []) <==> rem == []
  {
    if rem == [] {
      forall w | w in queues ensures queues[w] == [] {
        assert Waiting(queues, w) == Queue(ops, rem, w);
      }
    } else {
      var o := ops[rem[0]];
      var w := o.Wires()[0];
      TimesOn(o.Wires(), w);
      assert Waiting(queues, w) == Queue(ops, rem, w) != [];
    }
  }

  // ----- The loops

  method Enqueue(queues: Queues, index: nat, ws: seq<Wire>) returns (after: Queues)
    ensures forall w :: Waiting(after, w) == Waiting(queues, w) + Copies(index, Times(ws, w))
  {
    after := queues;
    for j := 0 to |ws|
      invariant forall w :: Waiting(after, w) == Waiting(queues, w) + Copies(index, Times(ws[..j], w))
    {
      forall w { TimesSnoc(ws[..j], ws[j], w); }
      assert ws[..j + 1] == ws[..j] + [ws[j]];
      after := after[ws[j] := Waiting(after, ws[j]) + [index]];
    }
    assert ws[..|ws|] == ws;
  }

  /** The entries of `ws[..j]` are gone from the queue of `w`, those of `ws[j..]` are still there. */
  ghost predicate Popped(queues: Queues, after: Queues, ws: seq<Wire>, j: nat, w: Wire)
    requires j <= |ws|
  {
    && Times(ws[j..], w) <= Times(ws, w) <= |Waiting(queues, w)|
    && Waiting(after, w) == Waiting(queues, w)[Times(ws, w) - Times(ws[j..], w)..]
  }

  lemma PopNext(queues: Queues, after: Queues, ws: seq<Wire>, j: nat, w: Wire)
    requires j < |ws| && Popped(queues, after, ws, j, w) && Popped(queues, after, ws, j, ws[j])
    ensures Waiting(after, ws[j]) != []
    ensures Popped(queues, after[ws[j] := Waiting(after, ws[j])[1..]], ws, j + 1, w)
  {
    assert ws[j..][1..] == ws[j + 1..];
    assert Times(ws[j..], ws[j]) == 1 + Times(ws[j + 1..], ws[j]);
    if w == ws[j] {
      var n := Times(ws, w) - Times(ws[j..], w);
      assert Waiting(queues, w)[n..][1..] == Waiting(queues, w)[n + 1..];
    }
  }

  method Dequeue(queues: Queues, ws: seq<Wire>) returns (after: Queues)
    requires forall w :: |Waiting(queues, w)| >= Times(ws, w)
    ensures forall w :: Waiting(after, w) == Waiting(queues, w)[Times(ws, w)..]
  {
    after := queues;
    for j := 0 to |ws|
      invariant forall w :: Popped(queues, after, ws, j, w)
    {
      ghost var before := after;
      PopNext(queues, before, ws, j, ws[j]);
      after := after[ws[j] := Waiting(after, ws[j])[1..]];
      ghost var next := j + 1;
      forall w ensures Popped(queues, after, ws, next, w) {
        PopNext(queues, before, ws, j, w);
      }
    }
    forall w ensures Waiting(after, w) == Waiting(queues, w)[Times(ws, w)..] {
      assert Popped(queues, after, ws, |ws|, w);
    }
  }

  /** Queues every logical operation; `None` when the circuit is outside the static model. */
  method Load(logical: seq<Op>) returns (loaded: Option<(seq<Op>, Queues)>)
    ensures loaded.Some? <==> Static(logical)
    ensures loaded.Some? ==> loaded.value.0 == NoBarriers(logical) && Wired(loaded.value.0)
    ensures loaded.Some? ==> Holds(loaded.value.1, loaded.value.0, All(|loaded.value.0|))
  {
    var ops: seq<Op>, queues: Queues := [], map[];
    for i := 0 to |logical|
      invariant ops == NoBarriers(logical[..i])
      invariant forall o | o in ops :: o.name !in CONTROL_FLOW && o.Wires() != []
      invariant Holds(queues, ops, All(|ops|))
    {
      var o := logical[i];
      assert logical[..i + 1] == logical[..i] + [o];
      NoBarriersSnoc(logical[..i], o);
      if o.name == "barrier" { continue; }
      if o.name in CONTROL_FLOW || o.Wires() == [] {
        NoBarriersMember(logical, o);
        return None;
      }
      var after := Enqueue(queues, |ops|, o.Wires());
      LoadOne(queues, after, ops, o);
      queues, ops := after, ops + [o];
    }
    assert logical[..|logical|] == logical;
    loaded := Some((ops, queues));
  }

  function All(n: nat): (rem: seq<nat>)
    ensures |rem| == n && Indices(rem, n) && forall i | 0 <= i < n :: rem[i] == i
  {
    seq(n, i => i)
  }

  lemma LoadOne(queues: Queues, after: Queues, ops: seq<Op>, o: Op)
    requires Holds(queues, ops, All(|ops|))
    requires forall w :: Waiting(after, w) == Waiting(queues, w) + Copies(|ops|, Times(o.Wires(), w))
    ensures Holds(after, ops + [o], All(|ops + [o]|))
  {
    var more := ops + [o];
    assert All(|more|) == All(|ops|) + [|ops|];
    forall w ensures Waiting(after, w) == Queue(more, All(|more|), w) {
      QueueAppend(more, All(|ops|), [|ops|], w);
      QueueMoreOps(ops, [o], All(|ops|), w);
      var last := Copies(|ops|, Times(o.Wires(), w));
      assert Queue(more, [|ops|], w) == last + Queue(more, [], w) == last;
    }
  }

  method PlaceQubits(initial: seq<int>, n: nat) returns (p2v: array<int>)
    requires IsPermutation(initial, n)
    ensures fresh(p2v) && p2v[..] == Inverse(initial, n)
  {
    InverseBijective(initial, n);
    PermutationIsBijective(initial, n);
    p2v := new int[n](_ => 0);
    for v := 0 to n
      invariant forall u | 0 <= u < v :: p2v[initial[u]] == u
    {
      p2v[initial[v]] := v;
    }
    forall p | 0 <= p < n ensures p2v[p] == Inverse(initial, n)[p] {
      BijectiveIsOnto(initial, n, p);
      var v :| 0 <= v < n && initial[v] == p;
    }
    assert p2v[..] == Inverse(initial, n);
  }

  /** One routed operation against the queues, as `Next` says for the pending operations. */
  method Advance(queues: Queues, ops: seq<Op>, ghost rem: seq<nat>, signatures: set<(string, seq<string>, Option<string>)>, p2v: seq<int>, r: Op)
    returns (step: Step, after: Queues, ghost left: seq<nat>)
    requires Indices(rem, |ops|) && Holds(queues, ops, rem)
    requires signatures == set o | o in ops :: (o.name, o.params, o.payload)
    ensures Indices(left, |ops|) && Holds(after, ops, left)
    ensures step == (match Next(ops, Pick(ops, rem), p2v, r)
                     case Consume(_) => Consume([])
                     case other => other)
    ensures if step.Consume? then Next(ops, Pick(ops, rem), p2v, r) == Consume(Pick(ops, left)) else left == rem
  {
    after, left := queues, rem;
    if r.name == "barrier" { return Ignore, queues, rem; }
    if !Placed(r, |p2v|) { return Halt(Mismatch, BadWire), queues, rem; }
    var o := Relabel(r, p2v);
    if r.name in CONTROL_FLOW || o.Wires() == [] { return Halt(Unverified, OutsideModel), queues, rem; }
    HeadsMatchPending(queues, ops, rem, o);
    MatchAt(Pick(ops, rem), o);
    if HeadsMatch(queues, ops, o) {
      PopFits(queues, ops, rem, o);
      after := Dequeue(queues, o.Wires());
      PopHolds(queues, after, ops, rem, o);
      ghost var k := FirstOn(Pick(ops, rem), o);
      PickWithout(ops, rem, k);
      return Consume([]), after, Skip(rem, k);
    }
    if PlainSwap(r) { return Route, queues, rem; }
    assert (r.name, r.params, r.payload) in signatures <==> exists x | x in ops :: SameSignature(x, r);
    step := Halt(if (r.name, r.params, r.payload) in signatures then Mismatch else Unverified, CannotReplay(r.name));
  }

  /** The walk over the routed circuit, swapping entries of `p2v` in place. */
  method WalkQueues(ops: seq<Op>, loaded: Queues, p2v: array<int>, routed: seq<Op>, n: nat) returns (end: End, empty: bool)
    requires Holds(loaded, ops, All(|ops|)) && Wired(ops) && Bijective(p2v[..], n)
    modifies p2v
    ensures (match Walk(ops, ops, old(p2v[..]), routed, 0)
             case Stuck(status, detail) => end == Stuck(status, detail)
             case Done(pending, last, swaps) => end == Done([], last, swaps) && p2v[..] == last && empty == (pending == []))
  {
    var queues := loaded;
    var signatures := set o | o in ops :: (o.name, o.params, o.payload);
    ghost var start, rem := p2v[..], All(|ops|);
    assert Pick(ops, rem) == ops;
    var swaps := 0;
    for i := 0 to |routed|
      invariant Indices(rem, |ops|) && Holds(queues, ops, rem)
      invariant Bijective(p2v[..], n)
      invariant Walk(ops, ops, start, routed, 0) == Walk(ops, Pick(ops, rem), p2v[..], routed[i..], swaps)
    {
      var r := routed[i];
      assert routed[i..][1..] == routed[i + 1..];
      var step, after, left := Advance(queues, ops, rem, signatures, p2v[..], r);
      match step
      case Ignore =>
      case Consume(_) => queues, rem := after, left;
      case Route =>
        var a, b := r.qs[0], r.qs[1];
        SwappedBijective(p2v[..], a, b, n);
        ghost var before := p2v[..];
        p2v[a], p2v[b] := p2v[b], p2v[a];
        assert p2v[..] == Swapped(before, a, b);
        swaps := swaps + 1;
      case Halt(status, detail) =>
        return Stuck(status, detail), false;
    }
    EmptyQueues(queues, ops, rem);
    empty := forall w | w in queues :: queues[w] == [];
    end := Done([], p2v[..], swaps);
  }

  method ReplayCircuit(logical: seq<Op>, routed: seq<Op>, layout: Option<Layout>, nIn: nat, nOut: nat, elided: Option<seq<int>>)
    returns (report: Report)
    ensures report == Judge(logical, routed, layout, nIn, nOut, elided)
  {
    var errors := LayoutErrors(layout, nIn, nOut, None);
    if errors != [] { return Refused(Mismatch, BadLayout(errors)); }
    LayoutAccepted(layout, nIn, nOut);
    var target := Elided(elided, nIn, nOut);
    if !IsPermutation(target, nOut) { return Refused(Mismatch, BadElided); }
    PermutationIsBijective(target, nOut);
    var loaded := Load(logical);
    if loaded.None? { return Refused(Unverified, OutsideModel); }
    var (ops, queues) := loaded.value;
    var p2v := PlaceQubits(Initial(layout, nOut), nOut);
    InverseBijective(Initial(layout, nOut), nOut);
    WalkKeepsWidth(ops, ops, p2v[..], routed, 0, nOut);
    var end, empty := WalkQueues(ops, queues, p2v, routed, nOut);
    match end
    case Stuck(status, detail) => report := Refused(status, detail);
    case Done(_, _, swaps) =>
      var ok := empty && Arrived(Final(layout, nOut), target, p2v[..], nOut);
      report := Replayed(if ok then Verified else Mismatch, swaps);
  }
}
