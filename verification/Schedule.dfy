/** The schedule check (C5): start times and durations of an operation list, in integer ticks,
    against the target; and what a verified schedule is. */
module Schedule {

  import opened Prelude
  import opened Circuits
  import opened Depth

  type Positive = x: int | x > 0 witness 1

  /** The timing constraints, and the duration in ticks that the target gives an operation. */
  datatype Target = Target(
    pulseAlignment: Positive, acquireAlignment: Positive, granularity: Positive, minLength: int,
    duration: (string, seq<int>) -> Option<int>)

  datatype Timetable = Timetable(ops: seq<Op>, starts: seq<int>, durations: seq<int>)
  {
    predicate Sized() {
      |ops| == |starts| == |durations|
    }
  }

  datatype Error = Missing | Negative | Overlap | IdleGap | Alignment | PulseDuration | DurationDiffers

  function Occupied(t: Timetable, target: Target, k: nat): int
    requires t.Sized() && k < |t.ops|
  {
    match target.duration(t.ops[k].name, t.ops[k].qs)
    case None => t.durations[k]
    case Some(d) => d
  }

  /** When a wire is free again after the first `n` operations. */
  function End(t: Timetable, target: Target, n: nat, w: Wire): int
    requires t.Sized() && n <= |t.ops|
  {
    if n == 0 then 0
    else if t.ops[n - 1].On(w) then t.starts[n - 1] + Occupied(t, target, n - 1)
    else End(t, target, n - 1, w)
  }

  /** Operation `k` starts when its qubits are free, not before its classical bits are, and fits
      the target. */
  predicate Fits(t: Timetable, target: Target, k: nat)
    requires t.Sized() && k < |t.ops|
  {
    var op, start, duration := t.ops[k], t.starts[k], t.durations[k];
    && start >= 0 && duration >= 0
    && (forall w | w in op.Wires() :: End(t, target, k, w) <= start)
    && (forall w | w in op.Wires() && w.Qubit? :: End(t, target, k, w) == start)
    && (op.name !in {"barrier", "delay"} ==>
          start % (if op.name == "measure" then target.acquireAlignment else target.pulseAlignment) == 0)
    && (op.name !in {"barrier", "delay", "measure"} && duration != 0 ==>
          duration % target.granularity == 0 && duration >= target.minLength)
    && Occupied(t, target, k) == duration
  }

  ghost predicate Verified(t: Timetable, target: Target) {
    t.Sized() && forall k :: 0 <= k < |t.ops| ==> Fits(t, target, k)
  }

  // ----- The check

  /** The end of a wire, zero before its first use. */
  function EndOf(ends: map<Wire, int>, w: Wire): int {
    if w in ends then ends[w] else 0
  }

  predicate Used(t: Timetable, n: nat, w: Wire)
    requires n <= |t.ops|
  {
    exists k | 0 <= k < n :: t.ops[k].On(w)
  }

  /** `ends` holds the wires in use so far, with their ends. */
  ghost predicate Tracks(t: Timetable, target: Target, n: nat, ends: map<Wire, int>)
    requires t.Sized() && n <= |t.ops|
  {
    && (forall w :: w in ends <==> Used(t, n, w))
    && (forall w :: EndOf(ends, w) == End(t, target, n, w))
  }

  /** All of the wires are free again at `end`. */
  method Occupy(ends: map<Wire, int>, wires: seq<Wire>, end: int) returns (ends': map<Wire, int>)
    ensures forall w :: w in ends' <==> w in ends || w in wires
    ensures forall w :: w in ends' ==> ends'[w] == if w in wires then end else ends[w]
  {
    ends' := ends;
    for i := 0 to |wires|
      invariant forall w :: w in ends' <==> w in ends || w in wires[..i]
      invariant forall w :: w in ends' ==> ends'[w] == if w in wires[..i] then end else ends[w]
    {
      assert wires[..i + 1] == wires[..i] + [wires[i]];
      ends' := ends'[wires[i] := end];
    }
    assert wires[..|wires|] == wires;
  }

  lemma TracksNext(t: Timetable, target: Target, k: nat, ends: map<Wire, int>, ends': map<Wire, int>)
    requires t.Sized() && k < |t.ops| && Tracks(t, target, k, ends)
    requires forall w :: w in ends' <==> w in ends || t.ops[k].On(w)
    requires forall w :: w in ends' ==>
               ends'[w] == if t.ops[k].On(w) then t.starts[k] + Occupied(t, target, k) else ends[w]
    ensures Tracks(t, target, k + 1, ends')
  {
    forall w
      ensures w in ends' <==> Used(t, k + 1, w)
      ensures EndOf(ends', w) == End(t, target, k + 1, w)
    {
      assert EndOf(ends, w) == End(t, target, k, w);
      assert Used(t, k, w) ==> Used(t, k + 1, w);
      if Used(t, k + 1, w) && !t.ops[k].On(w) {
        var j :| 0 <= j < k + 1 && t.ops[j].On(w);
        assert Used(t, k, w);
      }
    }
  }

  /** Whether some wire is not free yet, and whether some qubit has been free for a while. */
  method ScanWires(wires: seq<Wire>, start: int, ends: map<Wire, int>) returns (overlap: bool, gap: bool)
    ensures !overlap <==> forall w | w in wires :: EndOf(ends, w) <= start
    ensures !gap <==> forall w | w in wires && w.Qubit? :: EndOf(ends, w) >= start
  {
    overlap, gap := false, false;
    for i := 0 to |wires|
      invariant !overlap <==> forall w | w in wires[..i] :: EndOf(ends, w) <= start
      invariant !gap <==> forall w | w in wires[..i] && w.Qubit? :: EndOf(ends, w) >= start
    {
      assert wires[..i + 1] == wires[..i] + [wires[i]];
      var end := EndOf(ends, wires[i]);
      if start < end { overlap := true; }
      if wires[i].Qubit? && start > end { gap := true; }
    }
    assert wires[..|wires|] == wires;
  }

  /** The errors of one operation; none exactly when it fits. */
  method StepErrors(t: Timetable, target: Target, k: nat, ends: map<Wire, int>) returns (found: seq<Error>)
    requires t.Sized() && k < |t.ops|
    requires Tracks(t, target, k, ends)
    ensures found == [] <==> Fits(t, target, k)
  {
    var op, start, duration := t.ops[k], t.starts[k], t.durations[k];
    found := [];
    if start < 0 || duration < 0 { found := found + [Negative]; }
    var overlap, gap := ScanWires(op.Wires(), start, ends);
    if overlap { found := found + [Overlap]; }
    if gap { found := found + [IdleGap]; }
    var alignment := if op.name == "measure" then target.acquireAlignment else target.pulseAlignment;
    if op.name !in {"barrier", "delay"} && start % alignment != 0 { found := found + [Alignment]; }
    if op.name !in {"barrier", "delay", "measure"} && duration != 0 {
      if duration % target.granularity != 0 || duration < target.minLength { found := found + [PulseDuration]; }
    }
    var property := target.duration(op.name, op.qs);
    if property.Some? && duration != property.value { found := found + [DurationDiffers]; }
  }

  /** `makespan` is the latest end of any wire in use, or zero. */
  ghost predicate Latest(t: Timetable, target: Target, n: nat, makespan: int)
    requires t.Sized() && n <= |t.ops|
  {
    && (forall w :: Used(t, n, w) ==> End(t, target, n, w) <= makespan)
    && ((exists w :: Used(t, n, w) && End(t, target, n, w) == makespan) || (makespan == 0 && !exists w :: Used(t, n, w)))
  }

  /** The largest end, zero when no wire is in use. */
  method MaxEnd(ends: map<Wire, int>) returns (latest: int)
    ensures forall w :: w in ends ==> ends[w] <= latest
    ensures (exists w :: w in ends && ends[w] == latest) || (latest == 0 && ends == map[])
  {
    latest := 0;
    var rest := ends.Keys;
    while rest != {}
      invariant rest <= ends.Keys
      invariant forall w :: w in ends && w !in rest ==> ends[w] <= latest
      invariant (exists w :: w in ends && w !in rest && ends[w] == latest) || (latest == 0 && rest == ends.Keys)
      decreases |rest|
    {
      var w :| w in rest;
      if rest == ends.Keys || ends[w] > latest { latest := ends[w]; }
      rest := rest - {w};
    }
  }

  method VerifySchedule(t: Timetable, target: Target) returns (errors: seq<Error>, makespan: int)
    ensures errors == [] <==> Verified(t, target)
    ensures t.Sized() ==> Latest(t, target, |t.ops|, makespan)
    ensures !t.Sized() ==> errors == [Missing] && makespan == 0
  {
    if |t.ops| != |t.starts| || |t.starts| != |t.durations| {
      return [Missing], 0;
    }
    errors := [];
    var ends: map<Wire, int> := map[];
    for k := 0 to |t.ops|
      invariant errors == [] <==> forall j :: 0 <= j < k ==> Fits(t, target, j)
      invariant Tracks(t, target, k, ends)
    {
      var found := StepErrors(t, target, k, ends);
      errors := errors + found;
      ghost var before := ends;
      ends := Occupy(ends, t.ops[k].Wires(), t.starts[k] + Occupied(t, target, k));
      TracksNext(t, target, k, before, ends);
    }
    makespan := MaxEnd(ends);
  }

  // ----- What a verified schedule is

  lemma {:induction false} EndGrows(t: Timetable, target: Target, i: nat, j: nat, w: Wire)
    requires Verified(t, target) && i <= j <= |t.ops|
    ensures End(t, target, i, w) <= End(t, target, j, w)
    decreases j - i
  {
    if i < j {
      EndGrows(t, target, i, j - 1, w);
      assert Fits(t, target, j - 1);
    }
  }

  /** Operations that share a wire, quantum or classical, are disjoint in time and in list order. */
  lemma SharedWireDisjoint(t: Timetable, target: Target, i: nat, j: nat)
    requires Verified(t, target) && i < j < |t.ops| && Shares(t.ops[i], t.ops[j])
    ensures t.starts[i] + t.durations[i] <= t.starts[j]
  {
    var w :| w in t.ops[i].Wires() && t.ops[j].On(w);
    assert Fits(t, target, i) && Fits(t, target, j);
    EndGrows(t, target, i + 1, j, w);
  }

  /** The total duration of the operations on a wire among the first `n`. */
  function Busy(t: Timetable, n: nat, w: Wire): int
    requires t.Sized() && n <= |t.ops|
  {
    if n == 0 then 0 else Busy(t, n - 1, w) + if t.ops[n - 1].On(w) then t.durations[n - 1] else 0
  }

  /** A qubit is free again after exactly the durations of its operations. */
  lemma {:induction false} EndIsBusy(t: Timetable, target: Target, n: nat, q: int)
    requires Verified(t, target) && n <= |t.ops|
    ensures End(t, target, n, Qubit(q)) == Busy(t, n, Qubit(q))
  {
    if n > 0 {
      EndIsBusy(t, target, n - 1, q);
      assert Fits(t, target, n - 1);
    }
  }

  predicate Covers(t: Timetable, k: nat, w: Wire, time: int)
    requires t.Sized() && k < |t.ops|
  {
    t.ops[k].On(w) && t.starts[k] <= time < t.starts[k] + t.durations[k]
  }

  /** The operations on a qubit tile the time up to its end: every tick is covered, once. */
  lemma {:induction false} QubitTiled(t: Timetable, target: Target, n: nat, q: int, time: int)
    requires Verified(t, target) && n <= |t.ops|
    ensures 0 <= time < End(t, target, n, Qubit(q)) <==> exists k :: 0 <= k < n && Covers(t, k, Qubit(q), time)
    ensures forall i, j :: 0 <= i < j < n && Covers(t, i, Qubit(q), time) ==> !Covers(t, j, Qubit(q), time)
  {
    forall i, j | 0 <= i < j < n && Covers(t, i, Qubit(q), time)
      ensures !Covers(t, j, Qubit(q), time)
    {
      if t.ops[j].On(Qubit(q)) {
        assert Shares(t.ops[i], t.ops[j]);
        SharedWireDisjoint(t, target, i, j);
      }
    }
    if n > 0 {
      QubitTiled(t, target, n - 1, q, time);
      assert Fits(t, target, n - 1);
      EndGrows(t, target, 0, n - 1, Qubit(q));
      if 0 <= time < End(t, target, n, Qubit(q)) && !(time < End(t, target, n - 1, Qubit(q))) {
        assert Covers(t, n - 1, Qubit(q), time);
      }
    }
  }

  /** The total duration along a chain. */
  ghost function Length(durations: seq<int>, path: seq<nat>): int {
    if path == [] then 0
    else
      var last := path[|path| - 1];
      Length(durations, path[..|path| - 1]) + if last < |durations| then durations[last] else 0
  }

  lemma {:induction false} ChainFits(t: Timetable, target: Target, path: seq<nat>)
    requires Verified(t, target) && Chain(t.ops, path) && path != []
    ensures Length(t.durations, path) <= t.starts[path[|path| - 1]] + t.durations[path[|path| - 1]]
    decreases |path|
  {
    var n := |path| - 1;
    assert Fits(t, target, path[n]);
    if n > 0 {
      var shorter := path[..n];
      assert shorter[n - 1] == path[n - 1];
      ChainInit(t.ops, path);
      ChainFits(t, target, shorter);
      SharedWireDisjoint(t, target, path[n - 1], path[n]);
    } else {
      assert path[..0] == [];
    }
  }

  lemma OperationWithinMakespan(t: Timetable, target: Target, k: nat, makespan: int)
    requires Verified(t, target) && Latest(t, target, |t.ops|, makespan)
    requires k < |t.ops| && t.ops[k].Wires() != []
    ensures t.starts[k] + t.durations[k] <= makespan
  {
    var w := t.ops[k].Wires()[0];
    assert t.ops[k].On(w) && Fits(t, target, k);
    EndGrows(t, target, k + 1, |t.ops|, w);
    assert Used(t, |t.ops|, w);
  }

  lemma ChainWithinMakespan(t: Timetable, target: Target, path: seq<nat>, makespan: int)
    requires Verified(t, target) && Latest(t, target, |t.ops|, makespan)
    requires Chain(t.ops, path) && (path != [] ==> t.ops[path[|path| - 1]].Wires() != [])
    ensures Length(t.durations, path) <= makespan
  {
    if path == [] {
      if w :| Used(t, |t.ops|, w) { EndGrows(t, target, 0, |t.ops|, w); }
    } else {
      ChainFits(t, target, path);
      OperationWithinMakespan(t, target, path[|path| - 1], makespan);
    }
  }

  /** Every operation that acts on no wire at all is as short as the makespan. */
  ghost predicate WirelessShort(t: Timetable, makespan: int)
    requires t.Sized()
  {
    forall k | 0 <= k < |t.ops| && t.ops[k].Wires() == [] :: t.durations[k] <= makespan
  }

  /** An operation without wires shares none, so it is a whole chain. */
  lemma WirelessAlone(t: Timetable, path: seq<nat>)
    requires t.Sized() && Chain(t.ops, path) && path != []
    ensures t.ops[path[|path| - 1]].Wires() == [] ==> |path| == 1 && Length(t.durations, path) == t.durations[path[0]]
  {
    var n := |path| - 1;
    if n > 0 { assert Shares(t.ops[path[n - 1]], t.ops[path[n]]); }
    assert path[..0] == [];
  }

  /** The makespan is at least the length of every dependency chain exactly when no operation
      without wires takes longer: such an operation is in no wire's end. */
  lemma MakespanBoundsChains(t: Timetable, target: Target, makespan: int)
    requires Verified(t, target) && Latest(t, target, |t.ops|, makespan)
    ensures (forall path | Chain(t.ops, path) :: Length(t.durations, path) <= makespan) <==> WirelessShort(t, makespan)
  {
    if WirelessShort(t, makespan) {
      forall path | Chain(t.ops, path)
        ensures Length(t.durations, path) <= makespan
      {
        if path != [] && t.ops[path[|path| - 1]].Wires() == [] {
          WirelessAlone(t, path);
        } else {
          ChainWithinMakespan(t, target, path, makespan);
        }
      }
    }
    if forall path | Chain(t.ops, path) :: Length(t.durations, path) <= makespan {
      forall k | 0 <= k < |t.ops| && t.ops[k].Wires() == []
        ensures t.durations[k] <= makespan
      {
        assert Chain(t.ops, [k]);
        WirelessAlone(t, [k]);
      }
    }
  }

  const BARE: Timetable := Timetable([Op("barrier", [], [], [], None)], [0], [5])

  /** A barrier without wires that takes five ticks: verified with a makespan of zero, which the
      barrier alone exceeds. */
  lemma WirelessMissed(target: Target)
    requires target.duration("barrier", []).None?
    ensures Verified(BARE, target) && Latest(BARE, target, 1, 0)
    ensures Chain(BARE.ops, [0]) && Length(BARE.durations, [0]) == 5
  {
    assert BARE.ops[0].Wires() == [];
    assert Fits(BARE, target, 0);
    WirelessAlone(BARE, [0]);
  }

  /** The operations on a wire among the first `n`, in order. */
  ghost function OnWirePath(t: Timetable, n: nat, w: Wire): seq<nat>
    requires n <= |t.ops|
  {
    if n == 0 then []
    else if t.ops[n - 1].On(w) then OnWirePath(t, n - 1, w) + [n - 1]
    else OnWirePath(t, n - 1, w)
  }

  lemma LengthSnoc(durations: seq<int>, path: seq<nat>, k: nat)
    requires k < |durations|
    ensures Length(durations, path + [k]) == Length(durations, path) + durations[k]
  {
    assert (path + [k])[..|path|] == path;
  }

  lemma {:induction false} PathLength(t: Timetable, n: nat, w: Wire)
    requires t.Sized() && n <= |t.ops|
    ensures Length(t.durations, OnWirePath(t, n, w)) == Busy(t, n, w)
  {
    if n > 0 {
      PathLength(t, n - 1, w);
      LengthSnoc(t.durations, OnWirePath(t, n - 1, w), n - 1);
    }
  }

  ghost predicate InOrder(ops: seq<Op>, path: seq<nat>, n: nat, w: Wire)
    requires n <= |ops|
  {
    && (forall i | 0 <= i < |path| :: path[i] < n && ops[path[i]].On(w))
    && forall i | 0 <= i < |path| - 1 :: path[i] < path[i + 1]
  }

  lemma InOrderIsChain(ops: seq<Op>, path: seq<nat>, n: nat, w: Wire)
    requires n <= |ops| && InOrder(ops, path, n, w)
    ensures Chain(ops, path)
  {
    forall i | 0 <= i < |path| - 1
      ensures Shares(ops[path[i]], ops[path[i + 1]])
    {
      assert ops[path[i]].On(w) && ops[path[i + 1]].On(w);
    }
  }

  lemma InOrderSnoc(ops: seq<Op>, path: seq<nat>, n: nat, w: Wire)
    requires 0 < n <= |ops| && InOrder(ops, path, n - 1, w) && ops[n - 1].On(w)
    ensures InOrder(ops, path + [n - 1], n, w)
  {
  }

  lemma {:induction false} OnWireInOrder(t: Timetable, n: nat, w: Wire)
    requires n <= |t.ops|
    ensures InOrder(t.ops, OnWirePath(t, n, w), n, w)
  {
    if n > 0 {
      OnWireInOrder(t, n - 1, w);
      if t.ops[n - 1].On(w) { InOrderSnoc(t.ops, OnWirePath(t, n - 1, w), n, w); }
    }
  }

  /** The last operation on a wire that is in use. */
  lemma {:induction false} LastOn(t: Timetable, target: Target, n: nat, w: Wire) returns (k: nat)
    requires t.Sized() && n <= |t.ops| && Used(t, n, w)
    ensures k < n && t.ops[k].On(w) && End(t, target, n, w) == End(t, target, k + 1, w)
  {
    if t.ops[n - 1].On(w) {
      k := n - 1;
    } else {
      k := LastOn(t, target, n - 1, w);
    }
  }

  lemma QubitChain(t: Timetable, target: Target, n: nat, q: int)
    requires Verified(t, target) && n <= |t.ops|
    ensures Chain(t.ops, OnWirePath(t, n, Qubit(q)))
    ensures Length(t.durations, OnWirePath(t, n, Qubit(q))) == End(t, target, n, Qubit(q))
  {
    OnWireInOrder(t, n, Qubit(q));
    InOrderIsChain(t.ops, OnWirePath(t, n, Qubit(q)), n, Qubit(q));
    PathLength(t, n, Qubit(q));
    EndIsBusy(t, target, n, q);
  }

  lemma EndAfter(t: Timetable, target: Target, k: nat, w: Wire)
    requires t.Sized() && k < |t.ops| && t.ops[k].On(w)
    ensures End(t, target, k + 1, w) == t.starts[k] + Occupied(t, target, k)
  {
  }

  /** A wire that is in use ends when some chain of that length ends, if its last operation acts
      on a qubit. */
  lemma EndIsChain(t: Timetable, target: Target, n: nat, w: Wire) returns (path: seq<nat>)
    requires Verified(t, target) && n <= |t.ops| && Used(t, n, w)
    requires forall k | 0 <= k < |t.ops| :: t.ops[k].qs != []
    ensures Chain(t.ops, path) && Length(t.durations, path) == End(t, target, n, w)
  {
    var k := LastOn(t, target, n, w);
    var q := t.ops[k].qs[0];
    assert t.ops[k].Wires()[0] == Qubit(q);
    EndAfter(t, target, k, w);
    EndAfter(t, target, k, Qubit(q));
    QubitChain(t, target, k + 1, q);
    path := OnWirePath(t, k + 1, Qubit(q));
  }

  /** When every operation acts on a qubit, the makespan is the length of a longest chain: a
      verified schedule is as short as its dependencies and durations allow. */
  lemma MakespanIsLongestChain(t: Timetable, target: Target, makespan: int) returns (path: seq<nat>)
    requires Verified(t, target) && Latest(t, target, |t.ops|, makespan)
    requires forall k | 0 <= k < |t.ops| :: t.ops[k].qs != []
    ensures Chain(t.ops, path) && Length(t.durations, path) == makespan
    ensures forall other | Chain(t.ops, other) :: Length(t.durations, other) <= makespan
  {
    if w :| Used(t, |t.ops|, w) && End(t, target, |t.ops|, w) == makespan {
      path := EndIsChain(t, target, |t.ops|, w);
    } else {
      path := [];
    }
    forall other | Chain(t.ops, other)
      ensures Length(t.durations, other) <= makespan
    {
      if other != [] {
        var last := t.ops[other[|other| - 1]];
        assert last.Wires()[0] == Qubit(last.qs[0]);
      }
      ChainWithinMakespan(t, target, other, makespan);
    }
  }
}
