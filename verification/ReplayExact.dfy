/** What a verified replay means, and that every circuit with that meaning is verified: the
    replay is verified exactly when some reading undoes the routed circuit into the logical one,
    up to commuting wire-disjoint operations, and ends at the promised wire permutation. */
module ReplayExact {

  import opened Prelude
  import opened Circuits
  import opened Permutations
  import opened Replay
  import opened ReplayReadings
  import opened ReplayGreedy

  // ----- The exact meaning of a verified replay

  /** The layout and the elided permutation fit, and no operation but a barrier is control flow
      or without wires. */
  ghost predicate WellPosed(logical: seq<Op>, layout: Option<Layout>, nIn: nat, nOut: nat, elided: Option<seq<int>>) {
    && LayoutFits(layout, nIn, nOut) && ElidedFits(elided, nIn, nOut)
    && forall o | o in logical && o.name != "barrier" :: o.name !in CONTROL_FLOW && o.Wires() != []
  }

  /** The physical qubit that the initial layout names, or the qubit itself. */
  function InitialOf(layout: Option<Layout>, v: nat): int {
    if layout.Some? && v < |layout.value.initial| then layout.value.initial[v] else v
  }

  function FinalOf(layout: Option<Layout>, v: nat): int {
    if layout.Some? && v < |layout.value.final| then layout.value.final[v] else v
  }

  /** The wire that the given list names, or the qubit's own. */
  function WireOf(elided: Option<seq<int>>, v: nat): int {
    if elided.Some? && v < |elided.value| then elided.value[v] else v
  }

  /** The wire map at which every virtual qubit sits where the initial layout puts it. */
  ghost predicate AtStart(start: seq<int>, layout: Option<Layout>, nOut: nat) {
    && Bijective(start, nOut)
    && forall v | 0 <= v < nOut :: 0 <= InitialOf(layout, v) < nOut && start[InitialOf(layout, v)] == v
  }

  /** A wire map at which every virtual qubit sits where the final layout
      and the elided permutation promise. */
  ghost predicate AtPromise(end: seq<int>, layout: Option<Layout>, nOut: nat, elided: Option<seq<int>>) {
    && Bijective(end, nOut)
    && forall v | 0 <= v < nOut :: 0 <= FinalOf(layout, v) < nOut && end[FinalOf(layout, v)] == WireOf(elided, v)
  }

  lemma StaticExactly(logical: seq<Op>)
    ensures Static(logical) <==> forall o | o in logical && o.name != "barrier" :: o.name !in CONTROL_FLOW && o.Wires() != []
  {
    forall o ensures o in NoBarriers(logical) <==> o in logical && o.name != "barrier" {
      NoBarriersMember(logical, o);
    }
  }

  lemma InverseUnique(initial: seq<int>, n: nat, start: seq<int>)
    requires IsPermutation(initial, n) && Bijective(initial, n) && |start| == n
    requires forall v | 0 <= v < n :: start[initial[v]] == v
    ensures start == Inverse(initial, n)
  {
    InverseBijective(initial, n);
    forall p | 0 <= p < n
      ensures start[p] == Inverse(initial, n)[p]
    {
      BijectiveCovers(initial, n, p);
      var v :| 0 <= v < n && initial[v] == p;
    }
  }

  lemma InitialAt(layout: Option<Layout>, nIn: nat, nOut: nat, v: nat)
    requires LayoutFits(layout, nIn, nOut) && v < nOut
    ensures |Initial(layout, nOut)| == nOut && Initial(layout, nOut)[v] == InitialOf(layout, v)
  {
  }

  lemma InverseStarts(layout: Option<Layout>, nIn: nat, nOut: nat)
    requires LayoutFits(layout, nIn, nOut)
    ensures IsPermutation(Initial(layout, nOut), nOut) && Bijective(Initial(layout, nOut), nOut)
    ensures AtStart(Inverse(Initial(layout, nOut), nOut), layout, nOut)
  {
    LayoutAccepted(layout, nIn, nOut);
    var initial := Initial(layout, nOut);
    InverseBijective(initial, nOut);
    forall v | 0 <= v < nOut
      ensures 0 <= InitialOf(layout, v) < nOut && Inverse(initial, nOut)[InitialOf(layout, v)] == v
    {
      InitialAt(layout, nIn, nOut, v);
    }
  }

  /** The start is one map: the inverse of the initial layout. */
  lemma StartIsInverse(layout: Option<Layout>, nIn: nat, nOut: nat, start: seq<int>)
    requires LayoutFits(layout, nIn, nOut)
    ensures IsPermutation(Initial(layout, nOut), nOut)
    ensures AtStart(start, layout, nOut) <==> start == Inverse(Initial(layout, nOut), nOut)
  {
    InverseStarts(layout, nIn, nOut);
    if AtStart(start, layout, nOut) {
      forall v | 0 <= v < nOut
        ensures start[Initial(layout, nOut)[v]] == v
      {
        InitialAt(layout, nIn, nOut, v);
        assert start[InitialOf(layout, v)] == v;
      }
      InverseUnique(Initial(layout, nOut), nOut, start);
    }
  }

  /** A requested placement is honoured when the input qubits, as far as the circuit is wide, are
      where it asks for them. */
  lemma RequestHonoured(layout: Option<Layout>, nIn: nat, nOut: nat, requested: seq<int>)
    ensures LayoutErrors(layout, nIn, nOut, Some(requested)) == [] <==>
              && LayoutFits(layout, nIn, nOut) && |requested| == (if nIn <= nOut then nIn else nOut)
              && forall v | 0 <= v < |requested| :: requested[v] == InitialOf(layout, v)
  {
    LayoutAccepted(layout, nIn, nOut);
    if LayoutFits(layout, nIn, nOut) {
      forall v | 0 <= v < nOut ensures |Initial(layout, nOut)| == nOut && Initial(layout, nOut)[v] == InitialOf(layout, v) {
        InitialAt(layout, nIn, nOut, v);
      }
      RequestIsPrefix(Initial(layout, nOut), nIn, nOut, requested);
    }
  }

  lemma RequestIsPrefix(initial: seq<int>, nIn: nat, nOut: nat, requested: seq<int>)
    requires |initial| == nOut
    ensures initial[..if nIn <= |initial| then nIn else |initial|] == requested
            <==> |requested| == (if nIn <= nOut then nIn else nOut) && forall v | 0 <= v < |requested| :: requested[v] == initial[v]
  {
  }

  lemma RefusedUnlessPosed(logical: seq<Op>, routed: seq<Op>, layout: Option<Layout>, nIn: nat, nOut: nat, elided: Option<seq<int>>)
    ensures Judge(logical, routed, layout, nIn, nOut, elided).status == Verified ==> WellPosed(logical, layout, nIn, nOut, elided)
    ensures LayoutFits(layout, nIn, nOut) && !ElidedFits(elided, nIn, nOut) ==>
              Judge(logical, routed, layout, nIn, nOut, elided) == Refused(Mismatch, BadElided)
    ensures !LayoutFits(layout, nIn, nOut) ==>
              var report := Judge(logical, routed, layout, nIn, nOut, elided);
              report.Refused? && report.status == Mismatch && report.detail.BadLayout?
  {
    LayoutAccepted(layout, nIn, nOut);
    ElidedAccepted(elided, nIn, nOut);
    StaticExactly(logical);
  }

  /** When the circuit does not narrow, only a bijection of the input wires is taken; when it
      does, the check is against the output wires, and a list that is no permutation of the
      input wires is accepted. */
  lemma ElidedOfInputs(logical: seq<Op>, routed: seq<Op>, layout: Option<Layout>, nIn: nat, nOut: nat, given: seq<int>)
    requires given != [] && LayoutFits(layout, nIn, nOut) && !Bijective(given, nIn)
    ensures Judge(logical, routed, layout, nIn, nOut, Some(given)) == Refused(Mismatch, BadElided)
            <==> nIn <= nOut || !Bijective(given, nOut)
  {
    RefusedUnlessPosed(logical, routed, layout, nIn, nOut, Some(given));
    LayoutAccepted(layout, nIn, nOut);
    ElidedAccepted(Some(given), nIn, nOut);
    WalkDetail(NoBarriers(logical), NoBarriers(logical), Inverse(Initial(layout, nOut), nOut), routed, 0);
  }

  lemma {:induction false} WalkDetail(ops: seq<Op>, pending: seq<Op>, p2v: seq<int>, routed: seq<Op>, swaps: nat)
    ensures Walk(ops, pending, p2v, routed, swaps).Stuck? ==> Walk(ops, pending, p2v, routed, swaps).detail != BadElided
    decreases |routed|
  {
    if routed != [] {
      match Next(ops, pending, p2v, routed[0])
      case Ignore => WalkDetail(ops, pending, p2v, routed[1..], swaps);
      case Consume(rest) => WalkDetail(ops, rest, p2v, routed[1..], swaps);
      case Route => WalkDetail(ops, pending, Swapped(p2v, routed[0].qs[0], routed[0].qs[1]), routed[1..], swaps + 1);
      case Halt(_, _) =>
    }
  }

  /** An empty circuit from two wires to one, with a list of one wire. */
  lemma NarrowingExample()
    ensures var layout := Some(Layout(2, 1, [0], [0], [0]));
            !Bijective([0], 2) && Judge([], [], layout, 2, 1, Some([0])) == Replayed(Verified, 0)
  {
    var layout := Some(Layout(2, 1, [0], [0], [0]));
    assert AtStart([0], layout, 1) && AtPromise([0], layout, 1, Some([0]));
    assert Walk([], [], [0], [], 0) == Done([], [0], 0);
    JudgeByWalk([], [], layout, 2, 1, Some([0]), [0]);
  }

  /** The verdict, for inputs that pass the first checks, rests on the walk alone. */
  lemma JudgeByWalk(logical: seq<Op>, routed: seq<Op>, layout: Option<Layout>, nIn: nat, nOut: nat, elided: Option<seq<int>>, start: seq<int>)
    requires WellPosed(logical, layout, nIn, nOut, elided) && AtStart(start, layout, nOut)
    ensures var ops, report := NoBarriers(logical), Judge(logical, routed, layout, nIn, nOut, elided);
            var end := Walk(ops, ops, start, routed, 0);
            && (report.status == Verified <==> end.Done? && end.pending == [] && AtPromise(end.p2v, layout, nOut, elided))
            && (report.status == Verified ==> report.Replayed? && report.swaps == end.swaps)
  {
    StartIsInverse(layout, nIn, nOut, start);
    LayoutAccepted(layout, nIn, nOut);
    ElidedAccepted(elided, nIn, nOut);
    StaticExactly(logical);
    var ops := NoBarriers(logical);
    WalkKeepsWidth(ops, ops, start, routed, 0, nOut);
    WalkNeverVerifies(ops, ops, start, routed, 0);
    var end := Walk(ops, ops, start, routed, 0);
    if end.Done? {
      ArrivedAtPromise(end.p2v, layout, nIn, nOut, elided);
    }
  }

  lemma FinalAt(layout: Option<Layout>, nIn: nat, nOut: nat, v: nat)
    requires LayoutFits(layout, nIn, nOut) && v < nOut
    ensures |Final(layout, nOut)| == nOut && Final(layout, nOut)[v] == FinalOf(layout, v)
  {
  }

  lemma ElidedAt(elided: Option<seq<int>>, nIn: nat, nOut: nat, v: nat)
    requires ElidedFits(elided, nIn, nOut) && v < nOut
    ensures |Elided(elided, nIn, nOut)| == nOut && Elided(elided, nIn, nOut)[v] == WireOf(elided, v)
  {
    ElidedAccepted(elided, nIn, nOut);
    PermutationIsBijective(Elided(elided, nIn, nOut), nOut);
  }

  lemma ArrivedAtPromise(end: seq<int>, layout: Option<Layout>, nIn: nat, nOut: nat, elided: Option<seq<int>>)
    requires Bijective(end, nOut) && LayoutFits(layout, nIn, nOut) && ElidedFits(elided, nIn, nOut)
    ensures Bijective(Final(layout, nOut), nOut) && |Elided(elided, nIn, nOut)| == nOut
    ensures Arrived(Final(layout, nOut), Elided(elided, nIn, nOut), end, nOut) <==> AtPromise(end, layout, nOut, elided)
  {
    LayoutAccepted(layout, nIn, nOut);
    ElidedAccepted(elided, nIn, nOut);
    PermutationIsBijective(Elided(elided, nIn, nOut), nOut);
    SamePlaces(end, Final(layout, nOut), Elided(elided, nIn, nOut), layout, nIn, nOut, elided);
  }

  lemma SamePlaces(end: seq<int>, final: seq<int>, wires: seq<int>, layout: Option<Layout>, nIn: nat, nOut: nat, elided: Option<seq<int>>)
    requires Bijective(end, nOut) && LayoutFits(layout, nIn, nOut) && ElidedFits(elided, nIn, nOut)
    requires Bijective(final, nOut) && final == Final(layout, nOut) && |wires| == nOut && wires == Elided(elided, nIn, nOut)
    ensures (forall v | 0 <= v < nOut :: end[final[v]] == wires[v]) <==> AtPromise(end, layout, nOut, elided)
  {
    forall v | 0 <= v < nOut
      ensures final[v] == FinalOf(layout, v) && wires[v] == WireOf(elided, v)
    {
      FinalAt(layout, nIn, nOut, v);
      ElidedAt(elided, nIn, nOut, v);
    }
    if AtPromise(end, layout, nOut, elided) {
      forall v | 0 <= v < nOut ensures end[final[v]] == wires[v] {
        assert end[FinalOf(layout, v)] == WireOf(elided, v);
      }
    }
  }

  lemma {:induction false} WalkNeverVerifies(ops: seq<Op>, pending: seq<Op>, p2v: seq<int>, routed: seq<Op>, swaps: nat)
    ensures Walk(ops, pending, p2v, routed, swaps).Stuck? ==> Walk(ops, pending, p2v, routed, swaps).status != Verified
    decreases |routed|
  {
    if routed != [] {
      match Next(ops, pending, p2v, routed[0])
      case Ignore => WalkNeverVerifies(ops, pending, p2v, routed[1..], swaps);
      case Consume(rest) => WalkNeverVerifies(ops, rest, p2v, routed[1..], swaps);
      case Route => WalkNeverVerifies(ops, pending, Swapped(p2v, routed[0].qs[0], routed[0].qs[1]), routed[1..], swaps + 1);
      case Halt(_, _) =>
    }
  }

  /** A verified replay is a reading: the routed circuit without its routing swaps, under
      virtual names, is the logical circuit up to commuting wire-disjoint operations; the wire
      map stays a bijection and ends where the final layout and the elided permutation say;
      and every routed operation but the routing swaps is one logical operation. */
  lemma ReplaySound(logical: seq<Op>, routed: seq<Op>, layout: Option<Layout>, nIn: nat, nOut: nat, elided: Option<seq<int>>)
    returns (start: seq<int>, routing: seq<bool>, end: seq<int>)
    requires Judge(logical, routed, layout, nIn, nOut, elided).status == Verified
    ensures WellPosed(logical, layout, nIn, nOut, elided)
    ensures AtStart(start, layout, nOut) && AtPromise(end, layout, nOut, elided)
    ensures Explains(routing, NoBarriers(logical), routed, start, end)
    ensures var report := Judge(logical, routed, layout, nIn, nOut, elided);
            report.Replayed? && |NoBarriers(routed)| == |NoBarriers(logical)| + report.swaps
  {
    RefusedUnlessPosed(logical, routed, layout, nIn, nOut, elided);
    start := Start(layout, nIn, nOut);
    StaticExactly(logical);
    JudgeByWalk(logical, routed, layout, nIn, nOut, elided, start);
    routing, end := WalkExplains(NoBarriers(logical), start, routed, nOut);
  }

  lemma Start(layout: Option<Layout>, nIn: nat, nOut: nat) returns (start: seq<int>)
    requires LayoutFits(layout, nIn, nOut)
    ensures AtStart(start, layout, nOut)
  {
    InverseStarts(layout, nIn, nOut);
    start := Inverse(Initial(layout, nOut), nOut);
  }

  lemma WalkExplains(ops: seq<Op>, p2v: seq<int>, routed: seq<Op>, n: nat) returns (routing: seq<bool>, end: seq<int>)
    requires Bijective(p2v, n) && Wired(ops)
    requires Walk(ops, ops, p2v, routed, 0).Done? && Walk(ops, ops, p2v, routed, 0).pending == []
    ensures Explains(routing, ops, routed, p2v, end) && end == Walk(ops, ops, p2v, routed, 0).p2v
    ensures |NoBarriers(routed)| == |ops| + Walk(ops, ops, p2v, routed, 0).swaps
  {
    WalkIsReading(ops, ops, p2v, routed, 0);
    routing := Chosen(ops, ops, p2v, routed);
    var u := Undo(routed, p2v, routing).value;
    end := u.p2v;
    UndoCounts(routed, p2v, routing);
    UndoKeepsBijection(routed, p2v, routing, n);
    TraceIsWireOrder(ops, u.executed);
    var path :| Commutes(ops, u.executed, path);
    CommutesLength(ops, u.executed, path);
  }

  lemma {:induction false} CommutesLength(xs: seq<Op>, ys: seq<Op>, path: seq<nat>)
    requires Commutes(xs, ys, path)
    ensures |xs| == |ys|
    decreases |path|
  {
    if path != [] {
      CommutesLength(Exchange(xs, path[0]), ys, path[1..]);
    }
  }

  /** Conversely, a routed circuit that has such a reading is verified: taking the operations
      in any order that respects the wires, inserting routing swaps and barriers anywhere and
      relabelling through an accepted layout never makes the replay fail. */
  lemma ReplayComplete(logical: seq<Op>, routed: seq<Op>, layout: Option<Layout>, nIn: nat, nOut: nat, elided: Option<seq<int>>,
                       start: seq<int>, routing: seq<bool>, end: seq<int>)
    requires WellPosed(logical, layout, nIn, nOut, elided)
    requires AtStart(start, layout, nOut) && AtPromise(end, layout, nOut, elided)
    requires Explains(routing, NoBarriers(logical), routed, start, end)
    ensures Judge(logical, routed, layout, nIn, nOut, elided).status == Verified
  {
    StaticExactly(logical);
    JudgeByWalk(logical, routed, layout, nIn, nOut, elided, start);
    WalkCompletes(NoBarriers(logical), start, routed, nOut, routing, end);
  }

  lemma WalkCompletes(ops: seq<Op>, p2v: seq<int>, routed: seq<Op>, n: nat, routing: seq<bool>, end: seq<int>)
    requires Bijective(p2v, n) && Wired(ops) && Explains(routing, ops, routed, p2v, end)
    ensures var w := Walk(ops, ops, p2v, routed, 0); w.Done? && w.pending == [] && w.p2v == end
  {
    UndoKeepsBijection(routed, p2v, routing, n);
    TraceIsWireOrder(ops, Undo(routed, p2v, routing).value.executed);
    assert TakeAll(ops, []) == Some(ops);
    Greedy(ops, Race([], ops, p2v, ops, p2v), n, routed, routing, 0);
  }

  /** The replay is verified exactly when some choice of routing swaps explains the routed
      circuit, whether or not the logical circuit has swap gates of its own. */
  lemma ReplayExactly(logical: seq<Op>, routed: seq<Op>, layout: Option<Layout>, nIn: nat, nOut: nat, elided: Option<seq<int>>)
    requires WellPosed(logical, layout, nIn, nOut, elided)
    ensures Judge(logical, routed, layout, nIn, nOut, elided).status == Verified
            <==> exists start, routing, end ::
                   && AtStart(start, layout, nOut) && AtPromise(end, layout, nOut, elided)
                   && Explains(routing, NoBarriers(logical), routed, start, end)
  {
    if Judge(logical, routed, layout, nIn, nOut, elided).status == Verified {
      var start, routing, end := ReplaySound(logical, routed, layout, nIn, nOut, elided);
    }
    if start, routing, end :|
      && AtStart(start, layout, nOut) && AtPromise(end, layout, nOut, elided)
      && Explains(routing, NoBarriers(logical), routed, start, end) {
      ReplayComplete(logical, routed, layout, nIn, nOut, elided, start, routing, end);
    }
  }

  // ----- What the other verdicts mean

  /** The same gate with the same parameters and payload, whatever it acts on. */
  ghost predicate SameGate(o: Op, r: Op) {
    o.name == r.name && o.params == r.params && o.payload == r.payload
  }

  /** An operation that the static replay of these logical operations does not know. */
  ghost predicate Unknown(ops: seq<Op>, r: Op) {
    r.name != "barrier" && (r.name in CONTROL_FLOW || r.Wires() == [] || forall o | o in ops :: !SameGate(o, r))
  }

  ghost predicate Misplaced(r: Op, n: nat) {
    r.name != "barrier" && exists i | 0 <= i < |r.qs| :: r.qs[i] < 0 || r.qs[i] >= n
  }

  /** Why a walk stops: at an operation it does not know, at a wire that does not exist, or at a
      known gate that is not the next one on its wires. */
  ghost predicate Explained(end: End, ops: seq<Op>, routed: seq<Op>, n: nat) {
    end.Stuck? ==>
      || (end.status == Unverified && exists r | r in routed :: Unknown(ops, r))
      || (end.status == Mismatch && end.detail == BadWire && exists r | r in routed :: Misplaced(r, n))
      || (end.status == Mismatch && end.detail.CannotReplay?
          && exists r, o | r in routed && o in ops :: SameGate(o, r) && r.name == end.detail.name && !Unknown(ops, r))
  }

  lemma NextExplained(ops: seq<Op>, pending: seq<Op>, p2v: seq<int>, r: Op)
    ensures var step := Next(ops, pending, p2v, r);
            step.Halt? ==> Explained(Stuck(step.status, step.detail), ops, [r], |p2v|)
  {
    assert r in [r];
    if Placed(r, |p2v|) { RelabelWires(r, p2v); }
  }

  lemma ExplainedLater(end: End, ops: seq<Op>, routed: seq<Op>, more: seq<Op>, n: nat)
    requires Explained(end, ops, routed, n) && forall r | r in routed :: r in more
    ensures Explained(end, ops, more, n)
  {
  }

  lemma {:induction false} WalkExplained(ops: seq<Op>, pending: seq<Op>, p2v: seq<int>, routed: seq<Op>, swaps: nat)
    ensures Explained(Walk(ops, pending, p2v, routed, swaps), ops, routed, |p2v|)
    decreases |routed|
  {
    if routed != [] {
      NextExplained(ops, pending, p2v, routed[0]);
      match Next(ops, pending, p2v, routed[0])
      case Ignore => WalkExplained(ops, pending, p2v, routed[1..], swaps);
      case Consume(rest) => WalkExplained(ops, rest, p2v, routed[1..], swaps);
      case Route => WalkExplained(ops, pending, Swapped(p2v, routed[0].qs[0], routed[0].qs[1]), routed[1..], swaps + 1);
      case Halt(_, _) => ExplainedLater(Walk(ops, pending, p2v, routed, swaps), ops, [routed[0]], routed, |p2v|);
    }
  }

  /** A replay of well-posed inputs is left unverified only for a routed operation that is outside
      the static model or that no logical operation resembles; it is refused as a mismatch only
      for a wire that does not exist or for a known gate that cannot be replayed; otherwise it is
      replayed to the end. */
  lemma VerdictsMean(logical: seq<Op>, routed: seq<Op>, layout: Option<Layout>, nIn: nat, nOut: nat, elided: Option<seq<int>>)
    requires WellPosed(logical, layout, nIn, nOut, elided)
    ensures var report, ops := Judge(logical, routed, layout, nIn, nOut, elided), NoBarriers(logical);
            report.Replayed? || Explained(Stuck(report.status, report.detail), ops, routed, nOut)
  {
    var start := Start(layout, nIn, nOut);
    StartIsInverse(layout, nIn, nOut, start);
    LayoutAccepted(layout, nIn, nOut);
    ElidedAccepted(elided, nIn, nOut);
    StaticExactly(logical);
    WalkExplained(NoBarriers(logical), NoBarriers(logical), start, routed, 0);
  }
}
