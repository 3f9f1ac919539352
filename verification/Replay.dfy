/** The C6 routing replay: is a routed physical circuit the logical circuit plus routing swaps?

    `Replay` keeps one queue of pending logical operations per wire and the virtual qubit that
    sits on each physical qubit. Its specification, `Walk`, keeps instead the list of logical
    operations that are still pending. */
module Replay {

  import opened Prelude
  import opened Circuits
  import opened Permutations

  datatype Layout = Layout(nIn: int, nOut: int, initial: seq<int>, final: seq<int>, routing: seq<int>)

  datatype LayoutError =
    | MissingLayout
    | WidthMismatch
    | NotAPermutation(which: string)
    | FinalDisagrees
    | RequestNotHonored

  datatype Detail = BadLayout(errors: seq<LayoutError>) | BadElided | OutsideModel | BadWire | CannotReplay(name: string)

  datatype Status = Verified | Mismatch | Unverified

  datatype Report = Refused(status: Status, detail: Detail) | Replayed(status: Status, swaps: nat)

  // ----- Layouts

  function Initial(layout: Option<Layout>, n: nat): seq<int> {
    if layout.Some? then layout.value.initial else Range(n)
  }

  function Final(layout: Option<Layout>, n: nat): seq<int> {
    if layout.Some? then layout.value.final else Range(n)
  }

  function Routing(layout: Option<Layout>, n: nat): seq<int> {
    if layout.Some? then layout.value.routing else Range(n)
  }

  function Unless(ok: bool, error: LayoutError): seq<LayoutError> {
    if ok then [] else [error]
  }

  function LayoutErrors(layout: Option<Layout>, nIn: nat, nOut: nat, requested: Option<seq<int>>): seq<LayoutError> {
    if layout.None? && nIn != nOut then [MissingLayout]
    else if layout.Some? && (layout.value.nIn != nIn || layout.value.nOut != nOut) then [WidthMismatch]
    else
      var initial, final, routing := Initial(layout, nOut), Final(layout, nOut), Routing(layout, nOut);
      var shapes := Unless(IsPermutation(initial, nOut), NotAPermutation("initial"))
                    + Unless(IsPermutation(final, nOut), NotAPermutation("final"))
                    + Unless(IsPermutation(routing, nOut), NotAPermutation("routing"));
      if shapes != [] then shapes
      else
        assert IsPermutation(initial, nOut) && IsPermutation(final, nOut) && IsPermutation(routing, nOut);
        PermutationIsBijective(initial, nOut);
        PermutationIsBijective(final, nOut);
        PermutationIsBijective(routing, nOut);
        Unless(forall i | 0 <= i < nOut :: final[i] == routing[initial[i]], FinalDisagrees)
        + Unless(requested.None? || initial[..if nIn <= |initial| then nIn else |initial|] == requested.value, RequestNotHonored)
  }

  /** Three bijections of the output qubits, of which the final one is the initial one followed by
      the routing one; without a layout, circuits of one width. */
  ghost predicate LayoutFits(layout: Option<Layout>, nIn: nat, nOut: nat) {
    match layout
    case None => nIn == nOut
    case Some(l) =>
      && l.nIn == nIn && l.nOut == nOut
      && Bijective(l.initial, nOut) && Bijective(l.final, nOut) && Bijective(l.routing, nOut)
      && forall i | 0 <= i < nOut :: l.final[i] == l.routing[l.initial[i]]
  }

  /** A layout has no errors exactly when it fits. */
  lemma LayoutAccepted(layout: Option<Layout>, nIn: nat, nOut: nat)
    ensures LayoutErrors(layout, nIn, nOut, None) == [] <==> LayoutFits(layout, nIn, nOut)
    ensures LayoutFits(layout, nIn, nOut) ==>
              && IsPermutation(Initial(layout, nOut), nOut)
              && Bijective(Initial(layout, nOut), nOut) && Bijective(Final(layout, nOut), nOut)
  {
    PermutationExactly(Initial(layout, nOut), nOut);
    PermutationExactly(Final(layout, nOut), nOut);
    PermutationExactly(Routing(layout, nOut), nOut);
    var final, routing, initial := Final(layout, nOut), Routing(layout, nOut), Initial(layout, nOut);
    if layout.None? {
      assert forall i | 0 <= i < nOut :: final[i] == routing[initial[i]];
    }
  }

  /** The elided permutation, padded with the wires that widening added. A missing or empty
      list stands for the identity. */
  function Elided(given: Option<seq<int>>, nIn: nat, nOut: nat): seq<int> {
    (if given.None? || given.value == [] then Range(nIn) else given.value)
    + (if nIn <= nOut then Range(nOut)[nIn..] else [])
  }

  /** The list given, or the identity for none and for an empty one, is a bijection of the input
      wires. When the circuit narrows, only a bijection of the output wires will do. */
  ghost predicate ElidedFits(elided: Option<seq<int>>, nIn: nat, nOut: nat) {
    if elided.None? || elided.value == [] then nIn <= nOut
    else Bijective(elided.value, if nIn <= nOut then nIn else nOut)
  }

  lemma RangeSplit(n: nat, m: nat)
    requires n <= m
    ensures Range(m)[..n] == Range(n) && Range(m) == Range(n) + Range(m)[n..]
  {
  }

  lemma Cancel(a: multiset<int>, b: multiset<int>, c: multiset<int>)
    ensures a + c == b + c <==> a == b
  {
    if a + c == b + c {
      forall v ensures a[v] == b[v] {
        assert (a + c)[v] == (b + c)[v];
      }
    }
  }

  /** The padded list is a permutation of the output wires exactly when the list fits. */
  lemma ElidedAccepted(elided: Option<seq<int>>, nIn: nat, nOut: nat)
    ensures IsPermutation(Elided(elided, nIn, nOut), nOut) <==> ElidedFits(elided, nIn, nOut)
  {
    var given := if elided.None? || elided.value == [] then Range(nIn) else elided.value;
    PermutationExactly(given, nIn);
    PermutationExactly(given, nOut);
    if nIn <= nOut {
      RangeSplit(nIn, nOut);
      var tail := Range(nOut)[nIn..];
      assert multiset(given + tail) == multiset(given) + multiset(tail);
      assert multiset(Range(nOut)) == multiset(Range(nIn)) + multiset(tail);
      Cancel(multiset(given), multiset(Range(nIn)), multiset(tail));
    } else {
      assert given + [] == given;
    }
  }

  // ----- The logical circuit

  function NoBarriers(ops: seq<Op>): (r: seq<Op>)
    ensures forall o | o in r :: o in ops && o.name != "barrier"
  {
    if ops == [] then [] else (if ops[0].name == "barrier" then [] else [ops[0]]) + NoBarriers(ops[1..])
  }

  /** Barriers are dropped and everything else stays, in order. */
  lemma {:induction false} NoBarriersSnoc(ops: seq<Op>, o: Op)
    ensures NoBarriers(ops + [o]) == NoBarriers(ops) + if o.name == "barrier" then [] else [o]
  {
    if ops == [] {
      assert ops + [o] == [o];
    } else {
      assert (ops + [o])[1..] == ops[1..] + [o];
      NoBarriersSnoc(ops[1..], o);
    }
  }

  lemma {:induction false} NoBarriersMember(ops: seq<Op>, o: Op)
    ensures o in NoBarriers(ops) <==> o in ops && o.name != "barrier"
  {
    if ops != [] {
      assert ops == [ops[0]] + ops[1..];
      NoBarriersMember(ops[1..], o);
    }
  }

  /** Every operation but barriers acts on a wire and is not control flow. */
  predicate Static(ops: seq<Op>) {
    forall o | o in NoBarriers(ops) :: o.name !in CONTROL_FLOW && o.Wires() != []
  }

  // ----- The walk over the routed circuit

  predicate Placed(r: Op, n: nat) {
    forall i | 0 <= i < |r.qs| :: 0 <= r.qs[i] < n
  }

  /** A routed operation under its virtual qubits' names. */
  function Relabel(r: Op, p2v: seq<int>): (o: Op)
    requires Placed(r, |p2v|)
    ensures |o.qs| == |r.qs| && forall i | 0 <= i < |r.qs| :: o.qs[i] == p2v[r.qs[i]]
    ensures o.name == r.name && o.cs == r.cs && o.params == r.params && o.payload == r.payload
  {
    r.(qs := seq(|r.qs|, i requires 0 <= i < |r.qs| => p2v[r.qs[i]]))
  }

  predicate PlainSwap(r: Op) {
    r.name == "swap" && |r.qs| == 2 && r.cs == [] && r.params == [] && r.payload == None
  }

  predicate SameSignature(a: Op, b: Op) {
    a.name == b.name && a.params == b.params && a.payload == b.payload
  }

  /** What one routed operation does: nothing, consume a pending operation, or swap two wires. */
  datatype Step = Ignore | Consume(pending: seq<Op>) | Route | Halt(status: Status, detail: Detail)

  function Next(ops: seq<Op>, pending: seq<Op>, p2v: seq<int>, r: Op): (step: Step)
    ensures step.Route? ==> PlainSwap(r) && Placed(r, |p2v|)
    ensures step.Consume? ==> Placed(r, |p2v|) && Relabel(r, p2v).Wires() != [] && Match(pending, Relabel(r, p2v)) == Some(step.pending)
  {
    if r.name == "barrier" then Ignore
    else if !Placed(r, |p2v|) then Halt(Mismatch, BadWire)
    else
      var o := Relabel(r, p2v);
      if r.name in CONTROL_FLOW || o.Wires() == [] then Halt(Unverified, OutsideModel)
      else if Match(pending, o).Some? then Consume(Match(pending, o).value)
      else if PlainSwap(r) then Route
      else Halt(if exists x | x in ops :: SameSignature(x, r) then Mismatch else Unverified, CannotReplay(r.name))
  }

  datatype End = Stuck(status: Status, detail: Detail) | Done(pending: seq<Op>, p2v: seq<int>, swaps: nat)

  /** The walk: every routed operation is the next pending one on its wires, or else a swap. */
  function Walk(ops: seq<Op>, pending: seq<Op>, p2v: seq<int>, routed: seq<Op>, swaps: nat): End
    decreases |routed|
  {
    if routed == [] then Done(pending, p2v, swaps)
    else match Next(ops, pending, p2v, routed[0])
      case Ignore => Walk(ops, pending, p2v, routed[1..], swaps)
      case Consume(rest) => Walk(ops, rest, p2v, routed[1..], swaps)
      case Route => Walk(ops, pending, Swapped(p2v, routed[0].qs[0], routed[0].qs[1]), routed[1..], swaps + 1)
      case Halt(status, detail) => Stuck(status, detail)
  }

  function Inverse(initial: seq<int>, n: nat): (p2v: seq<int>)
    requires IsPermutation(initial, n)
    ensures |p2v| == n
  {
    seq(n, p => IndexOf(initial, p))
  }

  function IndexOf(s: seq<int>, x: int): (i: nat)
    ensures x in s ==> i < |s| && s[i] == x
  {
    if s == [] || s[0] == x then 0 else IndexOf(s[1..], x) + 1
  }

  function Arrived(final: seq<int>, elided: seq<int>, p2v: seq<int>, n: nat): bool
    requires Bijective(final, n) && |elided| == n && |p2v| == n
  {
    forall v | 0 <= v < n :: p2v[final[v]] == elided[v]
  }

  lemma {:induction false} WalkKeepsWidth(ops: seq<Op>, pending: seq<Op>, p2v: seq<int>, routed: seq<Op>, swaps: nat, n: nat)
    requires Bijective(p2v, n)
    ensures Walk(ops, pending, p2v, routed, swaps).Done? ==> Bijective(Walk(ops, pending, p2v, routed, swaps).p2v, n)
    decreases |routed|
  {
    if routed != [] {
      match Next(ops, pending, p2v, routed[0])
      case Ignore => WalkKeepsWidth(ops, pending, p2v, routed[1..], swaps, n);
      case Consume(rest) => WalkKeepsWidth(ops, rest, p2v, routed[1..], swaps, n);
      case Route =>
        SwappedBijective(p2v, routed[0].qs[0], routed[0].qs[1], n);
        WalkKeepsWidth(ops, pending, Swapped(p2v, routed[0].qs[0], routed[0].qs[1]), routed[1..], swaps + 1, n);
      case Halt(_, _) =>
    }
  }

  lemma InverseBijective(initial: seq<int>, n: nat)
    requires IsPermutation(initial, n)
    ensures |initial| == n && Bijective(Inverse(initial, n), n)
    ensures forall v | 0 <= v < n :: 0 <= initial[v] < n && Inverse(initial, n)[initial[v]] == v
  {
    PermutationIsBijective(initial, n);
    forall p | 0 <= p < n ensures p in initial {
      BijectiveIsOnto(initial, n, p);
    }
  }

  function Judge(logical: seq<Op>, routed: seq<Op>, layout: Option<Layout>, nIn: nat, nOut: nat, elided: Option<seq<int>>): Report {
    var errors := LayoutErrors(layout, nIn, nOut, None);
    if errors != [] then Refused(Mismatch, BadLayout(errors))
    else if !IsPermutation(Elided(elided, nIn, nOut), nOut) then Refused(Mismatch, BadElided)
    else if !Static(logical) then Refused(Unverified, OutsideModel)
    else
      LayoutAccepted(layout, nIn, nOut);
      PermutationIsBijective(Elided(elided, nIn, nOut), nOut);
      InverseBijective(Initial(layout, nOut), nOut);
      var ops, p2v := NoBarriers(logical), Inverse(Initial(layout, nOut), nOut);
      WalkKeepsWidth(ops, ops, p2v, routed, 0, nOut);
      match Walk(ops, ops, p2v, routed, 0)
      case Stuck(status, detail) => Refused(status, detail)
      case Done(pending, last, swaps) =>
        var ok := pending == [] && Arrived(Final(layout, nOut), Elided(elided, nIn, nOut), last, nOut);
        Replayed(if ok then Verified else Mismatch, swaps)
  }
}
