/** What a router does, and that the replay verifies exactly that: it takes the logical operations
    in an order that respects the wires, places each on the physical qubits where its virtual
    qubits sit, and inserts swaps and barriers anywhere. */
module ReplayEmit {

  import opened Prelude
  import opened Circuits
  import opened Permutations
  import opened Replay
  import opened ReplayReadings
  import opened ReplayExact

  datatype Move = Execute | Swap(a: int, b: int) | Fence(barrier: Op)

  /** A virtual operation on the physical qubits that hold its qubits. */
  function Place(o: Op, p2v: seq<int>): (r: Op)
    ensures |r.qs| == |o.qs| && forall i | 0 <= i < |o.qs| :: r.qs[i] == IndexOf(p2v, o.qs[i])
    ensures r.name == o.name && r.cs == o.cs && r.params == o.params && r.payload == o.payload
  {
    o.(qs := seq(|o.qs|, i requires 0 <= i < |o.qs| => IndexOf(p2v, o.qs[i])))
  }

  /** The plan uses up the order, swaps qubits that exist, and its fences are barriers. */
  predicate Fits(plan: seq<Move>, order: seq<Op>, n: nat) {
    if plan == [] then order == []
    else match plan[0]
      case Execute => order != [] && Executable(order[0], n) && Fits(plan[1..], order[1..], n)
      case Swap(a, b) => 0 <= a < n && 0 <= b < n && Fits(plan[1..], order, n)
      case Fence(barrier) => barrier.name == "barrier" && Fits(plan[1..], order, n)
  }

  predicate Executable(o: Op, n: nat) {
    Placed(o, n) && o.name != "barrier" && o.name !in CONTROL_FLOW && o.Wires() != []
  }

  function SwapOp(a: int, b: int): Op {
    Op("swap", [a, b], [], [], None)
  }

  /** The routed circuit. */
  function Emit(plan: seq<Move>, order: seq<Op>, p2v: seq<int>): seq<Op>
    requires Fits(plan, order, |p2v|)
  {
    if plan == [] then []
    else match plan[0]
      case Execute => [Place(order[0], p2v)] + Emit(plan[1..], order[1..], p2v)
      case Swap(a, b) => [SwapOp(a, b)] + Emit(plan[1..], order, Swapped(p2v, a, b))
      case Fence(barrier) => [barrier] + Emit(plan[1..], order, p2v)
  }

  function Marks(plan: seq<Move>): seq<bool> {
    if plan == [] then [] else [plan[0].Swap?] + Marks(plan[1..])
  }

  function Swaps(plan: seq<Move>): nat {
    if plan == [] then 0 else (if plan[0].Swap? then 1 else 0) + Swaps(plan[1..])
  }

  /** The wire map after the plan. */
  function EndMap(plan: seq<Move>, p2v: seq<int>): seq<int> {
    if plan == [] then p2v
    else if plan[0].Swap? && 0 <= plan[0].a < |p2v| && 0 <= plan[0].b < |p2v|
    then EndMap(plan[1..], Swapped(p2v, plan[0].a, plan[0].b))
    else EndMap(plan[1..], p2v)
  }

  /** Placing and renaming back are inverse to each other. */
  lemma PlaceRelabel(o: Op, p2v: seq<int>, n: nat)
    requires Bijective(p2v, n) && Placed(o, n)
    ensures Placed(Place(o, p2v), n) && Relabel(Place(o, p2v), p2v) == o
    ensures Place(Relabel(o, p2v), p2v) == o
  {
    forall i | 0 <= i < |o.qs|
      ensures 0 <= Place(o, p2v).qs[i] < n && p2v[Place(o, p2v).qs[i]] == o.qs[i]
      ensures IndexOf(p2v, p2v[o.qs[i]]) == o.qs[i]
    {
      BijectiveCovers(p2v, n, o.qs[i]);
      assert p2v[o.qs[i]] in p2v;
    }
    assert Relabel(Place(o, p2v), p2v).qs == o.qs;
    assert Place(Relabel(o, p2v), p2v).qs == o.qs;
  }

  lemma UndoPlaced(o: Op, rest: seq<Op>, p2v: seq<int>, marks: seq<bool>, u: Reading)
    requires Bijective(p2v, |p2v|) && Executable(o, |p2v|) && Undo(rest, p2v, marks) == Some(u)
    ensures Undo([Place(o, p2v)] + rest, p2v, [false] + marks) == Some(Reading([o] + u.executed, u.p2v, u.swaps))
  {
    PlaceRelabel(o, p2v, |p2v|);
    RelabelWires(Place(o, p2v), p2v);
    assert ([Place(o, p2v)] + rest)[1..] == rest && ([false] + marks)[1..] == marks;
  }

  lemma UndoSwapped(a: int, b: int, rest: seq<Op>, p2v: seq<int>, marks: seq<bool>, u: Reading)
    requires 0 <= a < |p2v| && 0 <= b < |p2v| && Undo(rest, Swapped(p2v, a, b), marks) == Some(u)
    ensures Undo([SwapOp(a, b)] + rest, p2v, [true] + marks) == Some(Reading(u.executed, u.p2v, u.swaps + 1))
  {
    SwapIsPlain(a, b, |p2v|);
    UndoRouted(SwapOp(a, b), rest, p2v, marks, u);
  }

  lemma SwapIsPlain(a: int, b: int, n: nat)
    requires 0 <= a < n && 0 <= b < n
    ensures PlainSwap(SwapOp(a, b)) && Executable(SwapOp(a, b), n)
  {
    assert SwapOp(a, b).Wires()[0] == Qubit(a);
  }

  lemma UndoRouted(r: Op, rest: seq<Op>, p2v: seq<int>, marks: seq<bool>, u: Reading)
    requires PlainSwap(r) && Executable(r, |p2v|) && Undo(rest, Swapped(p2v, r.qs[0], r.qs[1]), marks) == Some(u)
    ensures Undo([r] + rest, p2v, [true] + marks) == Some(Reading(u.executed, u.p2v, u.swaps + 1))
  {
    assert ([r] + rest)[1..] == rest && ([true] + marks)[1..] == marks;
  }

  lemma UndoFence(barrier: Op, rest: seq<Op>, p2v: seq<int>, marks: seq<bool>)
    requires barrier.name == "barrier"
    ensures Undo([barrier] + rest, p2v, [false] + marks) == Undo(rest, p2v, marks)
  {
    assert ([barrier] + rest)[1..] == rest && ([false] + marks)[1..] == marks;
  }

  /** Undoing what a plan emits gives the order back, whatever the swaps and barriers. */
  lemma {:induction false} EmitUndone(plan: seq<Move>, order: seq<Op>, p2v: seq<int>, n: nat)
    requires Bijective(p2v, n) && Fits(plan, order, n)
    ensures Undo(Emit(plan, order, p2v), p2v, Marks(plan)) == Some(Reading(order, EndMap(plan, p2v), Swaps(plan)))
    decreases |plan|
  {
    if plan != [] {
      var marks := Marks(plan[1..]);
      match plan[0]
      case Execute =>
        EmitUndone(plan[1..], order[1..], p2v, n);
        var u := Reading(order[1..], EndMap(plan[1..], p2v), Swaps(plan[1..]));
        UndoPlaced(order[0], Emit(plan[1..], order[1..], p2v), p2v, marks, u);
        assert Emit(plan, order, p2v) == [Place(order[0], p2v)] + Emit(plan[1..], order[1..], p2v);
        assert Marks(plan) == [false] + marks;
        assert [order[0]] + order[1..] == order;
      case Swap(a, b) =>
        SwappedBijective(p2v, a, b, n);
        EmitUndone(plan[1..], order, Swapped(p2v, a, b), n);
        var u := Reading(order, EndMap(plan[1..], Swapped(p2v, a, b)), Swaps(plan[1..]));
        UndoSwapped(a, b, Emit(plan[1..], order, Swapped(p2v, a, b)), p2v, marks, u);
        assert Emit(plan, order, p2v) == [SwapOp(a, b)] + Emit(plan[1..], order, Swapped(p2v, a, b));
        assert Marks(plan) == [true] + marks;
      case Fence(barrier) =>
        EmitUndone(plan[1..], order, p2v, n);
        UndoFence(barrier, Emit(plan[1..], order, p2v), p2v, marks);
    }
  }

  /** The plan that a reading of a routed circuit follows. */
  function PlanOf(routed: seq<Op>, routing: seq<bool>): seq<Move>
    requires |routing| == |routed|
    decreases |routed|
  {
    if routed == [] then []
    else
      var r := routed[0];
      [if r.name == "barrier" then Fence(r)
       else if routing[0] && |r.qs| == 2 then Swap(r.qs[0], r.qs[1])
       else Execute] + PlanOf(routed[1..], routing[1..])
  }

  lemma EmitExecuted(r: Op, plan: seq<Move>, order: seq<Op>, p2v: seq<int>)
    requires Bijective(p2v, |p2v|) && Executable(r, |p2v|) && Fits(plan, order, |p2v|)
    ensures Fits([Execute] + plan, [Relabel(r, p2v)] + order, |p2v|)
    ensures Emit([Execute] + plan, [Relabel(r, p2v)] + order, p2v) == [r] + Emit(plan, order, p2v)
    ensures EndMap([Execute] + plan, p2v) == EndMap(plan, p2v)
  {
    PlaceRelabel(r, p2v, |p2v|);
    RelabelWires(r, p2v);
    assert ([Execute] + plan)[1..] == plan && ([Relabel(r, p2v)] + order)[1..] == order;
  }

  /** Every circuit that can be undone is what its plan emits. */
  lemma {:induction false} UndoneIsEmitted(routed: seq<Op>, p2v: seq<int>, routing: seq<bool>, n: nat)
    requires Bijective(p2v, n) && Undo(routed, p2v, routing).Some?
    ensures |routing| == |routed|
    ensures var u, plan := Undo(routed, p2v, routing).value, PlanOf(routed, routing);
            Fits(plan, u.executed, n) && Emit(plan, u.executed, p2v) == routed && EndMap(plan, p2v) == u.p2v
    decreases |routed|
  {
    if routed != [] {
      var r := routed[0];
      if r.name == "barrier" {
        UndoneIsEmitted(routed[1..], p2v, routing[1..], n);
      } else if routing[0] {
        SwappedBijective(p2v, r.qs[0], r.qs[1], n);
        UndoneIsEmitted(routed[1..], Swapped(p2v, r.qs[0], r.qs[1]), routing[1..], n);
        assert r == SwapOp(r.qs[0], r.qs[1]);
      } else {
        UndoneIsEmitted(routed[1..], p2v, routing[1..], n);
        EmitExecuted(r, PlanOf(routed[1..], routing[1..]), Undo(routed[1..], p2v, routing[1..]).value.executed, p2v);
      }
    }
  }

  /** The logical operations in an order that respects the wires, routed by the plan, from the
      initial layout to where the final one promises. */
  ghost predicate Routes(plan: seq<Move>, order: seq<Op>, logical: seq<Op>, layout: Option<Layout>, nOut: nat,
                         elided: Option<seq<int>>, start: seq<int>) {
    && TraceEquivalent(NoBarriers(logical), order) && Fits(plan, order, nOut)
    && AtStart(start, layout, nOut) && AtPromise(EndMap(plan, start), layout, nOut, elided)
  }

  /** What a router emits is verified, with exactly the swaps that it inserted. */
  lemma EmittedIsVerified(plan: seq<Move>, order: seq<Op>, logical: seq<Op>, layout: Option<Layout>, nIn: nat, nOut: nat,
                          elided: Option<seq<int>>, start: seq<int>)
    requires WellPosed(logical, layout, nIn, nOut, elided)
    requires Routes(plan, order, logical, layout, nOut, elided, start)
    ensures Judge(logical, Emit(plan, order, start), layout, nIn, nOut, elided) == Replayed(Verified, Swaps(plan))
  {
    var routed := Emit(plan, order, start);
    EmitUndone(plan, order, start, nOut);
    ReplayComplete(logical, routed, layout, nIn, nOut, elided, start, Marks(plan), EndMap(plan, start));
    var first, routing, end := ReplaySound(logical, routed, layout, nIn, nOut, elided);
    EmittedCount(plan, order, start, nOut, NoBarriers(logical));
  }

  /** The routed circuit has the logical operations and the swaps, besides barriers. */
  lemma EmittedCount(plan: seq<Move>, order: seq<Op>, start: seq<int>, n: nat, ops: seq<Op>)
    requires Bijective(start, n) && Fits(plan, order, n) && TraceEquivalent(ops, order)
    ensures |NoBarriers(Emit(plan, order, start))| == |ops| + Swaps(plan)
  {
    EmitUndone(plan, order, start, n);
    UndoCounts(Emit(plan, order, start), start, Marks(plan));
    var path :| Commutes(ops, order, path);
    CommutesLength(ops, order, path);
  }

  /** And only what a router emits is. */
  lemma VerifiedIsEmitted(logical: seq<Op>, routed: seq<Op>, layout: Option<Layout>, nIn: nat, nOut: nat, elided: Option<seq<int>>)
    returns (plan: seq<Move>, order: seq<Op>, start: seq<int>)
    requires Judge(logical, routed, layout, nIn, nOut, elided).status == Verified
    ensures Routes(plan, order, logical, layout, nOut, elided, start) && routed == Emit(plan, order, start)
  {
    var routing, end;
    start, routing, end := ReplaySound(logical, routed, layout, nIn, nOut, elided);
    UndoneIsEmitted(routed, start, routing, nOut);
    plan, order := PlanOf(routed, routing), Undo(routed, start, routing).value.executed;
  }
}
