/** Readings of a routed circuit.

    A reading names the swaps that are routing swaps. Undoing it drops those swaps and renames
    the other operations back to their virtual qubits. What the replay does is a reading. */
module ReplayReadings {

  import opened Prelude
  import opened Circuits
  import opened Permutations
  import opened Replay

  datatype Reading = Reading(executed: seq<Op>, p2v: seq<int>, swaps: nat)

  /** Undoes `routed`; `routing[i]` says that operation `i` is a routing swap. `None` when the
      marks do not fit or an operation lies outside the static model. */
  function Undo(routed: seq<Op>, p2v: seq<int>, routing: seq<bool>): Option<Reading>
    decreases |routed|
  {
    if |routing| != |routed| then None
    else if routed == [] then Some(Reading([], p2v, 0))
    else
      var r := routed[0];
      if r.name == "barrier" then
        if routing[0] then None else Undo(routed[1..], p2v, routing[1..])
      else if !Placed(r, |p2v|) || r.name in CONTROL_FLOW || r.Wires() == [] then None
      else if routing[0] then
        if !PlainSwap(r) then None
        else
          match Undo(routed[1..], Swapped(p2v, r.qs[0], r.qs[1]), routing[1..])
          case None => None
          case Some(rest) => Some(rest.(swaps := rest.swaps + 1))
      else
        match Undo(routed[1..], p2v, routing[1..])
        case None => None
        case Some(rest) => Some(rest.(executed := [Relabel(r, p2v)] + rest.executed))
  }

  ghost predicate Explains(routing: seq<bool>, ops: seq<Op>, routed: seq<Op>, p2v: seq<int>, end: seq<int>) {
    && Undo(routed, p2v, routing).Some?
    && TraceEquivalent(ops, Undo(routed, p2v, routing).value.executed)
    && Undo(routed, p2v, routing).value.p2v == end
  }

  lemma RelabelWires(r: Op, p2v: seq<int>)
    requires Placed(r, |p2v|)
    ensures Relabel(r, p2v).Wires() == [] <==> r.Wires() == []
  {
    assert |Relabel(r, p2v).Wires()| == |r.Wires()|;
  }

  // ----- Every reading keeps the counts and the wire map

  /** No operation is lost: each non-barrier one is executed or a routing swap. */
  lemma {:induction false} UndoCounts(routed: seq<Op>, p2v: seq<int>, routing: seq<bool>)
    requires Undo(routed, p2v, routing).Some?
    ensures var u := Undo(routed, p2v, routing).value; |NoBarriers(routed)| == |u.executed| + u.swaps
    decreases |routed|
  {
    if routed != [] {
      var r := routed[0];
      if routing[0] {
        UndoCounts(routed[1..], Swapped(p2v, r.qs[0], r.qs[1]), routing[1..]);
      } else {
        UndoCounts(routed[1..], p2v, routing[1..]);
      }
    }
  }

  lemma {:induction false} UndoKeepsBijection(routed: seq<Op>, p2v: seq<int>, routing: seq<bool>, n: nat)
    requires Undo(routed, p2v, routing).Some? && Bijective(p2v, n)
    ensures Bijective(Undo(routed, p2v, routing).value.p2v, n) && Wired(Undo(routed, p2v, routing).value.executed)
    decreases |routed|
  {
    if routed != [] {
      var r := routed[0];
      if routing[0] {
        SwappedBijective(p2v, r.qs[0], r.qs[1], n);
        UndoKeepsBijection(routed[1..], Swapped(p2v, r.qs[0], r.qs[1]), routing[1..], n);
      } else {
        UndoKeepsBijection(routed[1..], p2v, routing[1..], n);
        if r.name != "barrier" {
          RelabelWires(r, p2v);
        }
      }
    }
  }

  // ----- Soundness: the walk is a reading

  /** The marks that the walk itself chooses. */
  function Chosen(ops: seq<Op>, pending: seq<Op>, p2v: seq<int>, routed: seq<Op>): seq<bool>
    decreases |routed|
  {
    if routed == [] then []
    else match Next(ops, pending, p2v, routed[0])
      case Ignore => [false] + Chosen(ops, pending, p2v, routed[1..])
      case Consume(rest) => [false] + Chosen(ops, rest, p2v, routed[1..])
      case Route => [true] + Chosen(ops, pending, Swapped(p2v, routed[0].qs[0], routed[0].qs[1]), routed[1..])
      case Halt(_, _) => []
  }

  lemma {:induction false} WalkIsReading(ops: seq<Op>, pending: seq<Op>, p2v: seq<int>, routed: seq<Op>, swaps: nat)
    requires Walk(ops, pending, p2v, routed, swaps).Done? && Walk(ops, pending, p2v, routed, swaps).pending == []
    ensures var u := Undo(routed, p2v, Chosen(ops, pending, p2v, routed)); var end := Walk(ops, pending, p2v, routed, swaps);
            u.Some? && SameOrder(pending, u.value.executed) && u.value.p2v == end.p2v && swaps + u.value.swaps == end.swaps
    decreases |routed|
  {
    if routed != [] {
      var r := routed[0];
      match Next(ops, pending, p2v, r)
      case Ignore =>
        WalkIsReading(ops, pending, p2v, routed[1..], swaps);
      case Consume(rest) =>
        WalkIsReading(ops, rest, p2v, routed[1..], swaps);
        var o := Relabel(r, p2v);
        RelabelWires(r, p2v);
        var u := Undo(routed[1..], p2v, Chosen(ops, rest, p2v, routed[1..])).value;
        forall w ensures OnWire(pending, w) == OnWire([o] + u.executed, w) {
          MatchOnWire(pending, o, w);
          OnWireCons(o, u.executed, w);
          assert OnWire(rest, w) == OnWire(u.executed, w);
        }
      case Route =>
        RelabelWires(r, p2v);
        WalkIsReading(ops, pending, Swapped(p2v, r.qs[0], r.qs[1]), routed[1..], swaps + 1);
    }
  }
}
