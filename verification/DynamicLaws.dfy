/** What single instructions mean, in terms of the device and of the classical bits alone. Indices
    are those of a well-formed block: each names a wire of its scope. */
module DynamicLaws {

  import opened Prelude
  import opened Dynamic

  /** A run of one instruction on one branch. */
  function Alone<S(!new)>(d: Device<S>, i: Instr, b: Branch<S>, sc: Scope, fuel: nat): Option<Out<S>> {
    Run(d, [i], [b], sc, fuel)
  }

  lemma AloneIsOne<S(!new)>(d: Device<S>, i: Instr, b: Branch<S>, sc: Scope, fuel: nat)
    requires fuel > 0
    ensures Alone(d, i, b, sc, fuel) == One(d, i, b, sc, fuel - 1)
  {
    AloneIsSpread(d, i, b, sc, fuel);
    assert [b][1..] == [];
    var one := One(d, i, b, sc, fuel - 1);
    if one.Some? && !i.Barrier? { assert one.value.branches + [] == one.value.branches; }
  }

  // ----- Measurement

  /** The branch in which a measurement found `bit`, if anything of the state is left. */
  ghost predicate Recorded<S(!new)>(d: Device<S>, b: Branch<S>, wire: nat, clbit: nat, bit: bool, left: seq<Branch<S>>) {
    match d.project(b.state, wire, bit)
    case None => left == []
    case Some(part) =>
      && |left| == 1 && left[0].state == part
      && (clbit in left[0].bits <==> bit)
      && forall k: nat | k != clbit :: k in left[0].bits <==> k in b.bits
  }

  /** After a measurement each branch has the classical bit set exactly when its state is what
      the projection onto one left, no other bit changes, and zero comes first. */
  lemma MeasureRecords<S(!new)>(d: Device<S>, q: nat, c: nat, b: Branch<S>, sc: Scope, fuel: nat)
    returns (zero: seq<Branch<S>>, one: seq<Branch<S>>)
    requires fuel > 0 && q < |sc.qmap| && c < |sc.cmap|
    ensures Alone(d, Measure(q, c), b, sc, fuel) == Some(Out(zero + one, fuel - 1))
    ensures Recorded(d, b, sc.qmap[q], sc.cmap[c], false, zero)
    ensures Recorded(d, b, sc.qmap[q], sc.cmap[c], true, one)
  {
    AloneIsOne(d, Measure(q, c), b, sc, fuel);
    zero := Measured(d, sc, Measure(q, c), b, false);
    one := Measured(d, sc, Measure(q, c), b, true);
  }

  /** The branch of a reset in which the wire was found at `bit`: flipped back when that is one. */
  ghost predicate Cleared<S(!new)>(d: Device<S>, b: Branch<S>, wire: nat, bit: bool, left: seq<Branch<S>>) {
    match d.project(b.state, wire, bit)
    case None => left == []
    case Some(part) => left == [Branch(if bit then d.flip(part, wire) else part, b.bits)]
  }

  lemma ResetClears<S(!new)>(d: Device<S>, q: nat, b: Branch<S>, sc: Scope, fuel: nat)
    returns (zero: seq<Branch<S>>, one: seq<Branch<S>>)
    requires fuel > 0 && q < |sc.qmap|
    ensures Alone(d, Reset(q), b, sc, fuel) == Some(Out(zero + one, fuel - 1))
    ensures Cleared(d, b, sc.qmap[q], false, zero) && Cleared(d, b, sc.qmap[q], true, one)
  {
    AloneIsOne(d, Reset(q), b, sc, fuel);
    zero := Measured(d, sc, Reset(q), b, false);
    one := Measured(d, sc, Reset(q), b, true);
  }

  // ----- Conditions

  /** The binary digit of weight two to the `i`. */
  function Digit(value: nat, i: nat): bool
    decreases i
  {
    if i == 0 then value % 2 == 1 else Digit(value / 2, i - 1)
  }

  function Power(n: nat): nat {
    if n == 0 then 1 else 2 * Power(n - 1)
  }

  /** A register holds a value exactly when the value fits it and each bit is its digit. */
  lemma {:induction false} ValueDigits(bits: seq<nat>, on: set<nat>, value: nat)
    ensures Value(bits, on) == value
            <==> value < Power(|bits|) && forall i | 0 <= i < |bits| :: (bits[i] in on) == Digit(value, i)
    decreases |bits|
  {
    if bits != [] {
      ValueDigits(bits[1..], on, value / 2);
      var rest := bits[1..];
      assert value < Power(|bits|) <==> value / 2 < Power(|rest|);
      DigitsShift(bits, on, value);
    }
  }

  lemma DigitsShift(bits: seq<nat>, on: set<nat>, value: nat)
    requires bits != []
    ensures (forall i | 0 <= i < |bits| :: (bits[i] in on) == Digit(value, i))
            <==> && (bits[0] in on) == Digit(value, 0)
                 && forall i | 0 <= i < |bits[1..]| :: (bits[1..][i] in on) == Digit(value / 2, i)
  {
    var rest := bits[1..];
    if forall i | 0 <= i < |bits| :: (bits[i] in on) == Digit(value, i) {
      forall i | 0 <= i < |rest| ensures (rest[i] in on) == Digit(value / 2, i) {
        assert (bits[i + 1] in on) == Digit(value, i + 1);
      }
    }
    if (bits[0] in on) == Digit(value, 0) && forall i | 0 <= i < |rest| :: (rest[i] in on) == Digit(value / 2, i) {
      forall i | 0 <= i < |bits| ensures (bits[i] in on) == Digit(value, i) {
        if i > 0 { assert (rest[i - 1] in on) == Digit(value / 2, i - 1); }
      }
    }
  }

  /** The register of a condition has this value, digit by digit, the least significant first. */
  ghost predicate Matches(sc: Scope, bits: seq<nat>, value: nat, on: set<nat>)
    requires forall i | 0 <= i < |bits| :: bits[i] < |sc.cmap|
  {
    value < Power(|bits|) && forall i | 0 <= i < |bits| :: (sc.cmap[bits[i]] in on) == Digit(value, i)
  }

  lemma HoldsMatches(sc: Scope, bits: seq<nat>, value: nat, on: set<nat>)
    requires forall i | 0 <= i < |bits| :: bits[i] < |sc.cmap|
    ensures Holds(sc, bits, value, on) <==> Matches(sc, bits, value, on)
  {
    var mapped := MapAll(sc.cmap, bits);
    ValueDigits(mapped, on, value);
    forall i | 0 <= i < |bits| ensures mapped[i] == sc.cmap[bits[i]] {
    }
  }

  /** The scope of a block: its wires stand for those that the instruction names. */
  ghost predicate Within(sc: Scope, qs: seq<nat>, cs: seq<nat>, inner: Scope) {
    && |inner.qmap| == |qs| && |inner.cmap| == |cs|
    && (forall i | 0 <= i < |qs| :: qs[i] < |sc.qmap| && inner.qmap[i] == sc.qmap[qs[i]])
    && (forall i | 0 <= i < |cs| :: cs[i] < |sc.cmap| && inner.cmap[i] == sc.cmap[cs[i]])
  }

  lemma InnerWithin(sc: Scope, qs: seq<nat>, cs: seq<nat>, inner: Scope)
    requires Within(sc, qs, cs, inner)
    ensures inner == Inner(sc, qs, cs).(bound := inner.bound)
  {
  }

  /** A conditional runs its first block exactly when every bit of the register is the binary
      digit of the value, and its second block otherwise. */
  lemma IfElseTakes<S(!new)>(d: Device<S>, i: Instr, b: Branch<S>, sc: Scope, fuel: nat, inner: Scope)
    requires i.IfElse? && fuel > 0 && forall k | 0 <= k < |i.bits| :: i.bits[k] < |sc.cmap|
    requires Within(sc, i.qs, i.cs, inner) && inner.bound == sc.bound
    ensures Alone(d, i, b, sc, fuel)
         == Run(d, if Matches(sc, i.bits, i.value, b.bits) then i.yes else i.no, [b], inner, fuel - 1)
  {
    AloneIsOne(d, i, b, sc, fuel);
    HoldsMatches(sc, i.bits, i.value, b.bits);
    InnerWithin(sc, i.qs, i.cs, inner);
  }

  /** A while loop ends at once when its register does not match, and is otherwise its body
      followed by the loop again. */
  lemma WhileUnrolls<S(!new)>(d: Device<S>, i: Instr, b: Branch<S>, sc: Scope, fuel: nat, inner: Scope)
    requires i.While? && fuel > 0 && forall k | 0 <= k < |i.bits| :: i.bits[k] < |sc.cmap|
    requires Within(sc, i.qs, i.cs, inner) && inner.bound == sc.bound
    ensures !Matches(sc, i.bits, i.value, b.bits) ==> Alone(d, i, b, sc, fuel) == Some(Out([b], fuel - 1))
    ensures Matches(sc, i.bits, i.value, b.bits) ==>
              var body := Run(d, i.body, [b], inner, fuel - 1);
              Alone(d, i, b, sc, fuel)
              == if body.None? then None else Run(d, [i], body.value.branches, sc, body.value.fuel)
  {
    AloneIsOne(d, i, b, sc, fuel);
    HoldsMatches(sc, i.bits, i.value, b.bits);
    InnerWithin(sc, i.qs, i.cs, inner);
  }

  // ----- Counted loops

  lemma {:induction false} RepeatSnoc<S(!new)>(
      d: Device<S>, i: Instr, indices: seq<int>, k: int, branches: seq<Branch<S>>, sc: Scope, fuel: nat)
    requires i.For?
    ensures var before := Repeat(d, i, indices, branches, sc, fuel);
            Repeat(d, i, indices + [k], branches, sc, fuel)
            == if before.None? then None else Run(d, i.body, before.value.branches, Turn(sc, i, k), before.value.fuel)
    decreases |indices|
  {
    if indices == [] {
      assert indices + [k] == [k] && [k][1..] == [];
    } else {
      assert (indices + [k])[1..] == indices[1..] + [k];
      var first := Run(d, i.body, branches, Turn(sc, i, indices[0]), fuel);
      if first.Some? { RepeatSnoc(d, i, indices[1..], k, first.value.branches, sc, first.value.fuel); }
    }
  }

  /** A for loop runs its body once per index, in order, with the index bound when it has a
      parameter; over no index it does nothing. */
  lemma ForRepeats<S(!new)>(
      d: Device<S>, indices: seq<int>, k: int, bound: bool, body: seq<Instr>, qs: seq<nat>, cs: seq<nat>,
      b: Branch<S>, sc: Scope, fuel: nat, inner: Scope)
    requires fuel > 0 && Within(sc, qs, cs, inner) && inner.bound == if bound then sc.bound + [k] else sc.bound
    ensures Alone(d, For([], bound, body, qs, cs), b, sc, fuel) == Some(Out([b], fuel - 1))
    ensures var before := Alone(d, For(indices, bound, body, qs, cs), b, sc, fuel);
            Alone(d, For(indices + [k], bound, body, qs, cs), b, sc, fuel)
            == if before.None? then None else Run(d, body, before.value.branches, inner, before.value.fuel)
  {
    var none, some, more := For([], bound, body, qs, cs), For(indices, bound, body, qs, cs), For(indices + [k], bound, body, qs, cs);
    AloneIsOne(d, none, b, sc, fuel);
    AloneIsOne(d, some, b, sc, fuel);
    AloneIsOne(d, more, b, sc, fuel);
    InnerWithin(sc, qs, cs, inner);
    RepeatSame(d, some, more, indices, [b], sc, fuel - 1);
    RepeatSnoc(d, more, indices, k, [b], sc, fuel - 1);
  }

  /** Only the body and the wires of the loop matter to the turns that are left. */
  lemma {:induction false} RepeatSame<S(!new)>(
      d: Device<S>, i: Instr, j: Instr, indices: seq<int>, branches: seq<Branch<S>>, sc: Scope, fuel: nat)
    requires i.For? && j.For? && i.body == j.body && i.bound == j.bound && i.qs == j.qs && i.cs == j.cs
    ensures Repeat(d, i, indices, branches, sc, fuel) == Repeat(d, j, indices, branches, sc, fuel)
    decreases |indices|
  {
    if indices != [] {
      var first := Run(d, i.body, branches, Turn(sc, i, indices[0]), fuel);
      if first.Some? { RepeatSame(d, i, j, indices[1..], first.value.branches, sc, first.value.fuel); }
    }
  }

  // ----- Gates and barriers

  lemma BarrierPasses<S(!new)>(d: Device<S>, branches: seq<Branch<S>>, sc: Scope, fuel: nat)
    requires fuel > 0
    ensures Run(d, [Barrier], branches, sc, fuel) == Some(Out(branches, fuel - 1))
  {
    assert [Barrier][1..] == [];
  }

  /** A gate acts on the wires that its own stand for and leaves the classical bits alone. */
  lemma GateActs<S(!new)>(d: Device<S>, name: string, qs: seq<nat>, wires: seq<nat>, b: Branch<S>, sc: Scope, fuel: nat)
    requires fuel > 0 && |wires| == |qs| && forall i | 0 <= i < |qs| :: qs[i] < |sc.qmap| && wires[i] == sc.qmap[qs[i]]
    ensures var state := d.gate(name, wires, sc.bound, b.state);
            Alone(d, Gate(name, qs), b, sc, fuel)
            == if state.None? then None else Some(Out([Branch(state.value, b.bits)], fuel - 1))
  {
    AloneIsOne(d, Gate(name, qs), b, sc, fuel);
    assert MapAll(sc.qmap, qs) == wires;
  }

  // ----- A reset is a measurement and a conditional flip

  function States<S(!new)>(branches: seq<Branch<S>>): (s: seq<S>)
    ensures |s| == |branches| && forall i | 0 <= i < |s| :: s[i] == branches[i].state
  {
    seq(|branches|, i requires 0 <= i < |branches| => branches[i].state)
  }

  /** Flips the wire when the classical bit is set. */
  function FlipIf(q: nat, c: nat): Instr {
    IfElse([c], 1, [Gate("x", [0])], [], [q], [c])
  }

  lemma FlipIfOne<S(!new)>(d: Device<S>, q: nat, c: nat, b: Branch<S>, sc: Scope, fuel: nat)
    requires fuel > 1 && q < |sc.qmap| && c < |sc.cmap|
    requires forall s :: d.gate("x", [sc.qmap[q]], sc.bound, s) == Some(d.flip(s, sc.qmap[q]))
    ensures Alone(d, FlipIf(q, c), b, sc, fuel)
         == Some(if sc.cmap[c] in b.bits then Out([Branch(d.flip(b.state, sc.qmap[q]), b.bits)], fuel - 2) else Out([b], fuel - 1))
  {
    var inner := Scope([sc.qmap[q]], [sc.cmap[c]], sc.bound);
    IfElseTakes(d, FlipIf(q, c), b, sc, fuel, inner);
    assert Power(1) == 2 by { assert Power(0) == 1; }
    assert Digit(1, 0);
    assert Matches(sc, [c], 1, b.bits) <==> sc.cmap[c] in b.bits;
    GateActs(d, "x", [0], [sc.qmap[q]], b, inner, fuel - 1);
    assert Run(d, [], [b], inner, fuel - 1) == Some(Out([b], fuel - 1));
  }

  /** The states that are left of a wire found at `bit`, once it is cleared. */
  function LeftOf<S(!new)>(d: Device<S>, state: S, wire: nat, bit: bool): seq<S> {
    match d.project(state, wire, bit)
    case None => []
    case Some(part) => [if bit then d.flip(part, wire) else part]
  }

  lemma FlipMeasured<S(!new)>(d: Device<S>, q: nat, c: nat, b: Branch<S>, sc: Scope, bit: bool, left: seq<Branch<S>>, fuel: nat)
    returns (out: Out<S>)
    requires fuel > 1 && q < |sc.qmap| && c < |sc.cmap|
    requires forall s :: d.gate("x", [sc.qmap[q]], sc.bound, s) == Some(d.flip(s, sc.qmap[q]))
    requires Recorded(d, b, sc.qmap[q], sc.cmap[c], bit, left)
    ensures Spread(d, FlipIf(q, c), left, sc, fuel - 1) == Some(out)
    ensures States(out.branches) == LeftOf(d, b.state, sc.qmap[q], bit) && out.fuel + 2 >= fuel && (!bit ==> out.fuel + 1 == fuel)
  {
    if left == [] {
      out := Out([], fuel - 1);
    } else {
      assert left == [left[0]];
      FlipIfOne(d, q, c, left[0], sc, fuel);
      AloneIsSpread(d, FlipIf(q, c), left[0], sc, fuel);
      out := Alone(d, FlipIf(q, c), left[0], sc, fuel).value;
    }
  }

  lemma AloneIsSpread<S(!new)>(d: Device<S>, i: Instr, b: Branch<S>, sc: Scope, fuel: nat)
    requires fuel > 0
    ensures Alone(d, i, b, sc, fuel) == Spread(d, i, [b], sc, fuel - 1)
  {
    assert [i][0] == i && [i][1..] == [];
    var spread := Spread(d, i, [b], sc, fuel - 1);
    if spread.Some? { assert Run(d, [], spread.value.branches, sc, spread.value.fuel) == spread; }
  }

  /** Measuring a wire and flipping it when it was one leaves the states that a reset leaves, in
      the same order. */
  lemma MeasureAndFlipResets<S(!new)>(d: Device<S>, q: nat, c: nat, b: Branch<S>, sc: Scope, fuel: nat)
    requires fuel > 3 && q < |sc.qmap| && c < |sc.cmap|
    requires forall s :: d.gate("x", [sc.qmap[q]], sc.bound, s) == Some(d.flip(s, sc.qmap[q]))
    ensures var both, reset := Run(d, [Measure(q, c), FlipIf(q, c)], [b], sc, fuel), Run(d, [Reset(q)], [b], sc, fuel);
            both.Some? && reset.Some? && States(both.value.branches) == States(reset.value.branches)
  {
    var wire := sc.qmap[q];
    var zero, one := MeasureRecords(d, q, c, b, sc, fuel);
    AloneIsSpread(d, Measure(q, c), b, sc, fuel);
    var first := FlipMeasured(d, q, c, b, sc, false, zero, fuel - 1);
    var second := FlipMeasured(d, q, c, b, sc, true, one, first.fuel + 1);
    SpreadJoined(d, FlipIf(q, c), zero, one, sc, fuel - 2, first, second);
    TwoInstructions(d, Measure(q, c), FlipIf(q, c), b, sc, fuel, zero + one);
    var kept, flipped := ResetClears(d, q, b, sc, fuel);
    assert States(first.branches + second.branches) == States(kept + flipped);
  }

  lemma TwoInstructions<S(!new)>(d: Device<S>, i: Instr, j: Instr, b: Branch<S>, sc: Scope, fuel: nat, mid: seq<Branch<S>>)
    requires fuel > 1 && Alone(d, i, b, sc, fuel) == Some(Out(mid, fuel - 1))
    ensures Run(d, [i, j], [b], sc, fuel) == Spread(d, j, mid, sc, fuel - 2)
  {
    AloneIsSpread(d, i, b, sc, fuel);
    assert [i, j][1..] == [j] && [j][1..] == [];
    var spread := Spread(d, j, mid, sc, fuel - 2);
    if spread.Some? { assert Run(d, [], spread.value.branches, sc, spread.value.fuel) == spread; }
  }

  lemma SpreadJoined<S(!new)>(d: Device<S>, i: Instr, one: seq<Branch<S>>, two: seq<Branch<S>>, sc: Scope, fuel: nat, a: Out<S>, b: Out<S>)
    requires !i.Barrier? && Spread(d, i, one, sc, fuel) == Some(a) && Spread(d, i, two, sc, a.fuel) == Some(b)
    ensures Spread(d, i, one + two, sc, fuel) == Some(Out(a.branches + b.branches, b.fuel))
  {
    SpreadAppend(d, i, one, two, sc, fuel);
  }
}
