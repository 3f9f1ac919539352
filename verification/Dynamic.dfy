/** The bounded branching simulator (C3) of dynamic circuits.

    Quantum states, projections and gates are abstract: a `Device` says what they do. A run
    carries a list of branches through a program with conditionals, loops and measurements,
    and gives up after a bounded number of executed instructions. The bound is held as `fuel`, the
    instructions that may still be executed. */
module Dynamic {

  import opened Prelude

  /** Instructions name wires of their own block; blocks are mapped to their parent's wires.
      A conditional without an else-block is one whose else-block is empty. */
  datatype Instr =
    | Barrier
    | Measure(q: nat, c: nat)
    | Reset(q: nat)
    | IfElse(bits: seq<nat>, value: nat, yes: seq<Instr>, no: seq<Instr>, qs: seq<nat>, cs: seq<nat>)
    | While(bits: seq<nat>, value: nat, body: seq<Instr>, qs: seq<nat>, cs: seq<nat>)
    | For(indices: seq<int>, bound: bool, body: seq<Instr>, qs: seq<nat>, cs: seq<nat>)
    | Gate(name: string, qs: seq<nat>)

  datatype Branch<S> = Branch(state: S, bits: set<nat>)

  /** `project` is `None` when nothing of the state is left; `gate` when it is unsupported. */
  datatype Device<!S(!new)> = Device(
    project: (S, nat, bool) -> Option<S>,
    flip: (S, nat) -> S,
    gate: (string, seq<nat>, seq<int>, S) -> Option<S>)

  /** Where a block's wires are, and the loop parameters that are bound in it. */
  datatype Scope = Scope(qmap: seq<nat>, cmap: seq<nat>, bound: seq<int>)

  datatype Out<S> = Out(branches: seq<Branch<S>>, fuel: nat)

  function At(m: seq<nat>, i: nat): nat {
    if i < |m| then m[i] else 0
  }

  function MapAll(m: seq<nat>, xs: seq<nat>): seq<nat> {
    seq(|xs|, i requires 0 <= i < |xs| => At(m, xs[i]))
  }

  function Inner(sc: Scope, qs: seq<nat>, cs: seq<nat>): Scope {
    Scope(MapAll(sc.qmap, qs), MapAll(sc.cmap, cs), sc.bound)
  }

  /** The scope of one turn of a for loop. */
  function Turn(sc: Scope, i: Instr, index: int): Scope
    requires i.For?
  {
    var inner := Inner(sc, i.qs, i.cs);
    if i.bound then inner.(bound := inner.bound + [index]) else inner
  }

  /** The classical value of a condition register, least significant bit first. */
  function Value(bits: seq<nat>, on: set<nat>): nat {
    if bits == [] then 0 else (if bits[0] in on then 1 else 0) + 2 * Value(bits[1..], on)
  }

  predicate Holds(sc: Scope, bits: seq<nat>, value: nat, classical: set<nat>) {
    Value(MapAll(sc.cmap, bits), classical) == value
  }

  /** What is left of a branch whose wire is found to carry `bit`. */
  function Measured<S(!new)>(d: Device<S>, sc: Scope, i: Instr, b: Branch<S>, bit: bool): seq<Branch<S>>
    requires i.Measure? || i.Reset?
  {
    var q := At(sc.qmap, i.q);
    match d.project(b.state, q, bit)
    case None => []
    case Some(part) =>
      if i.Measure? then
        var c := At(sc.cmap, i.c);
        [Branch(part, if bit then b.bits + {c} else b.bits - {c})]
      else [Branch(if bit then d.flip(part, q) else part, b.bits)]
  }

  /** `tail` with branches already collected before it. */
  function After<S(!new)>(done: seq<Branch<S>>, tail: Option<Out<S>>): (r: Option<Out<S>>)
    ensures r.Some? <==> tail.Some?
    ensures r.Some? ==> r.value.fuel == tail.value.fuel
  {
    match tail
    case None => None
    case Some(o) => Some(Out(done + o.branches, o.fuel))
  }

  lemma AfterNothing<S(!new)>(tail: Option<Out<S>>)
    ensures After([], tail) == tail
  {
    if tail.Some? { assert [] + tail.value.branches == tail.value.branches; }
  }

  lemma AfterAfter<S(!new)>(done: seq<Branch<S>>, part: seq<Branch<S>>, tail: Option<Out<S>>)
    ensures After(done, After(part, tail)) == After(done + part, tail)
  {
    if tail.Some? {
      assert done + (part + tail.value.branches) == (done + part) + tail.value.branches;
    }
  }

  /** Runs a program over all branches: each instruction costs one unit of fuel. */
  function Run<S(!new)>(d: Device<S>, prog: seq<Instr>, branches: seq<Branch<S>>, sc: Scope, fuel: nat)
    : (r: Option<Out<S>>)
    ensures r.Some? ==> r.value.fuel <= fuel
    decreases fuel, 0, 0
  {
    if prog == [] then Some(Out(branches, fuel))
    else if fuel == 0 then None
    else
      match Spread(d, prog[0], branches, sc, fuel - 1)
      case None => None
      case Some(o) => Run(d, prog[1..], o.branches, sc, o.fuel)
  }

  /** One instruction on each branch in turn. */
  function Spread<S(!new)>(d: Device<S>, i: Instr, branches: seq<Branch<S>>, sc: Scope, fuel: nat)
    : (r: Option<Out<S>>)
    ensures r.Some? ==> r.value.fuel <= fuel
    decreases fuel, 3, |branches|
  {
    if i.Barrier? then Some(Out(branches, fuel))
    else if branches == [] then Some(Out([], fuel))
    else
      match One(d, i, branches[0], sc, fuel)
      case None => None
      case Some(first) => After(first.branches, Spread(d, i, branches[1..], sc, first.fuel))
  }

  function One<S(!new)>(d: Device<S>, i: Instr, b: Branch<S>, sc: Scope, fuel: nat): (r: Option<Out<S>>)
    ensures r.Some? ==> r.value.fuel <= fuel
    decreases fuel, 2, 0
  {
    match i
    case Barrier => Some(Out([b], fuel))
    case Measure(_, _) => Some(Out(Measured(d, sc, i, b, false) + Measured(d, sc, i, b, true), fuel))
    case Reset(_) => Some(Out(Measured(d, sc, i, b, false) + Measured(d, sc, i, b, true), fuel))
    case IfElse(bits, value, yes, no, qs, cs) =>
      Run(d, if Holds(sc, bits, value, b.bits) then yes else no, [b], Inner(sc, qs, cs), fuel)
    case While(bits, value, body, qs, cs) =>
      if !Holds(sc, bits, value, b.bits) then Some(Out([b], fuel))
      else (match Run(d, body, [b], Inner(sc, qs, cs), fuel)
            case None => None
            case Some(o) => Run(d, [i], o.branches, sc, o.fuel))
    case For(indices, _, _, _, _) => Repeat(d, i, indices, [b], sc, fuel)
    case Gate(name, qs) =>
      match d.gate(name, MapAll(sc.qmap, qs), sc.bound, b.state)
      case None => None
      case Some(s) => Some(Out([Branch(s, b.bits)], fuel))
  }

  /** The remaining turns of a for loop. */
  function Repeat<S(!new)>(d: Device<S>, i: Instr, indices: seq<int>, branches: seq<Branch<S>>, sc: Scope, fuel: nat)
    : (r: Option<Out<S>>)
    requires i.For?
    ensures r.Some? ==> r.value.fuel <= fuel
    decreases fuel, 1, |indices|
  {
    if indices == [] then Some(Out(branches, fuel))
    else
      match Run(d, i.body, branches, Turn(sc, i, indices[0]), fuel)
      case None => None
      case Some(o) => Repeat(d, i, indices[1..], o.branches, sc, o.fuel)
  }

  // -----------------------------------------------------------------------------------------
  // The bound only decides whether there is an answer
  // -----------------------------------------------------------------------------------------

  /** `more` is the run of `less` with `k` more units of fuel: the same answer with `k` more
      units left over, and no answer without the extra units exactly when some of them are used. */
  ghost predicate Shifted<S(!new)>(less: Option<Out<S>>, more: Option<Out<S>>, k: nat) {
    && (less.Some? <==> more.Some? && more.value.fuel >= k)
    && (less.Some? ==> more == Some(Out(less.value.branches, less.value.fuel + k)))
  }

  /** Raising the bound never changes an answer, and an answer needs no more than it used. */
  lemma {:induction false} RunShift<S(!new)>(
      d: Device<S>, prog: seq<Instr>, branches: seq<Branch<S>>, sc: Scope, fuel: nat, k: nat)
    ensures Shifted(Run(d, prog, branches, sc, fuel), Run(d, prog, branches, sc, fuel + k), k)
    decreases fuel, 0, 0
  {
    if prog != [] && fuel > 0 {
      SpreadShift(d, prog[0], branches, sc, fuel - 1, k);
      var less := Spread(d, prog[0], branches, sc, fuel - 1);
      if less.Some? {
        RunShift(d, prog[1..], less.value.branches, sc, less.value.fuel, k);
      }
    }
  }

  lemma {:induction false} SpreadShift<S(!new)>(
      d: Device<S>, i: Instr, branches: seq<Branch<S>>, sc: Scope, fuel: nat, k: nat)
    ensures Shifted(Spread(d, i, branches, sc, fuel), Spread(d, i, branches, sc, fuel + k), k)
    decreases fuel, 3, |branches|
  {
    if !i.Barrier? && branches != [] {
      OneShift(d, i, branches[0], sc, fuel, k);
      var less := One(d, i, branches[0], sc, fuel);
      if less.Some? {
        SpreadShift(d, i, branches[1..], sc, less.value.fuel, k);
      }
    }
  }

  lemma {:induction false} OneShift<S(!new)>(d: Device<S>, i: Instr, b: Branch<S>, sc: Scope, fuel: nat, k: nat)
    ensures Shifted(One(d, i, b, sc, fuel), One(d, i, b, sc, fuel + k), k)
    decreases fuel, 2, 0
  {
    match i
    case IfElse(bits, value, yes, no, qs, cs) =>
      RunShift(d, if Holds(sc, bits, value, b.bits) then yes else no, [b], Inner(sc, qs, cs), fuel, k);
    case While(bits, value, body, qs, cs) =>
      RunShift(d, body, [b], Inner(sc, qs, cs), fuel, k);
      var less := Run(d, body, [b], Inner(sc, qs, cs), fuel);
      if less.Some? {
        RunShift(d, [i], less.value.branches, sc, less.value.fuel, k);
      }
    case For(indices, _, _, _, _) => RepeatShift(d, i, indices, [b], sc, fuel, k);
    case _ =>
  }

  lemma {:induction false} RepeatShift<S(!new)>(
      d: Device<S>, i: Instr, indices: seq<int>, branches: seq<Branch<S>>, sc: Scope, fuel: nat, k: nat)
    requires i.For?
    ensures Shifted(Repeat(d, i, indices, branches, sc, fuel), Repeat(d, i, indices, branches, sc, fuel + k), k)
    decreases fuel, 1, |indices|
  {
    if indices != [] {
      RunShift(d, i.body, branches, Turn(sc, i, indices[0]), fuel, k);
      var less := Run(d, i.body, branches, Turn(sc, i, indices[0]), fuel);
      if less.Some? {
        RepeatShift(d, i, indices[1..], less.value.branches, sc, less.value.fuel, k);
      }
    }
  }

  // -----------------------------------------------------------------------------------------
  // Branches do not interfere
  // -----------------------------------------------------------------------------------------

  /** The instruction on `two`, after it took whatever it took before. */
  ghost function Then<S(!new)>(d: Device<S>, i: Instr, before: Option<Out<S>>, two: seq<Branch<S>>, sc: Scope)
    : Option<Out<S>>
  {
    match before
    case None => None
    case Some(a) => After(a.branches, Spread(d, i, two, sc, a.fuel))
  }

  lemma AfterThen<S(!new)>(
      d: Device<S>, i: Instr, done: seq<Branch<S>>, before: Option<Out<S>>, two: seq<Branch<S>>, sc: Scope)
    ensures After(done, Then(d, i, before, two, sc)) == Then(d, i, After(done, before), two, sc)
  {
    if before.Some? {
      AfterAfter(done, before.value.branches, Spread(d, i, two, sc, before.value.fuel));
    }
  }

  /** One instruction on two lists is the instruction on the one and then on the other. */
  lemma {:induction false} SpreadAppend<S(!new)>(
      d: Device<S>, i: Instr, one: seq<Branch<S>>, two: seq<Branch<S>>, sc: Scope, fuel: nat)
    ensures Spread(d, i, one + two, sc, fuel) == Then(d, i, Spread(d, i, one, sc, fuel), two, sc)
    decreases |one|
  {
    if i.Barrier? {
    } else if one == [] {
      assert one + two == two;
      AfterNothing(Spread(d, i, two, sc, fuel));
    } else {
      var both := one + two;
      assert both[0] == one[0] && both[1..] == one[1..] + two;
      var first := One(d, i, one[0], sc, fuel);
      if first.Some? {
        SpreadAppend(d, i, one[1..], two, sc, first.value.fuel);
        AfterThen(d, i, first.value.branches, Spread(d, i, one[1..], sc, first.value.fuel), two, sc);
      }
    }
  }

  /** The two separate runs `a` and `b` against the joint run `both`, from the same bound: the
      joint answer is the one after the other, and running jointly saves one walk over the
      top-level instructions. */
  ghost predicate Joined<S(!new)>(both: Option<Out<S>>, a: Option<Out<S>>, b: Option<Out<S>>, fuel: nat, size: nat) {
    && both.Some? && a.Some? && b.Some?
    && both.value.branches == a.value.branches + b.value.branches
    && fuel - both.value.fuel + size == (fuel - a.value.fuel) + (fuel - b.value.fuel)
  }

  /** A run from more fuel, in terms of its first instruction and of the rest from less fuel. */
  lemma RunFrom<S(!new)>(
      d: Device<S>, prog: seq<Instr>, branches: seq<Branch<S>>, sc: Scope, fuel: nat, mid: Out<S>, less: nat)
    requires prog != [] && fuel > 0 && less <= mid.fuel
    requires Spread(d, prog[0], branches, sc, fuel - 1) == Some(mid)
    ensures var rest := Run(d, prog[1..], mid.branches, sc, less);
            rest.Some? ==>
              Run(d, prog, branches, sc, fuel) == Some(Out(rest.value.branches, rest.value.fuel + (mid.fuel - less)))
  {
    RunShift(d, prog[1..], mid.branches, sc, less, mid.fuel - less);
  }

  /** Whenever the joint run returns, both separate runs return and it is their concatenation. */
  lemma {:induction false} RunConcat<S(!new)>(
      d: Device<S>, prog: seq<Instr>, one: seq<Branch<S>>, two: seq<Branch<S>>, sc: Scope, fuel: nat)
    requires Run(d, prog, one + two, sc, fuel).Some?
    ensures Joined(
              Run(d, prog, one + two, sc, fuel), Run(d, prog, one, sc, fuel), Run(d, prog, two, sc, fuel),
              fuel, |prog|)
    decreases |prog|
  {
    if prog != [] {
      SpreadAppend(d, prog[0], one, two, sc, fuel - 1);
      var a := Spread(d, prog[0], one, sc, fuel - 1).value;
      var b := Spread(d, prog[0], two, sc, a.fuel).value;
      var saved := fuel - 1 - a.fuel;
      RunConcat(d, prog[1..], a.branches, b.branches, sc, b.fuel);
      RunFrom(d, prog, one + two, sc, fuel, Out(a.branches + b.branches, b.fuel), b.fuel);
      RunFrom(d, prog, one, sc, fuel, a, b.fuel);
      SpreadShift(d, prog[0], two, sc, a.fuel, saved);
      RunFrom(d, prog, two, sc, fuel, Out(b.branches, b.fuel + saved), b.fuel);
    }
  }

  /** Conversely, what the two separate runs need together is enough for the joint run. */
  lemma {:induction false} JointReturns<S(!new)>(
      d: Device<S>, prog: seq<Instr>, one: seq<Branch<S>>, two: seq<Branch<S>>, sc: Scope, f1: nat, f2: nat)
    requires Run(d, prog, one, sc, f1).Some?
    requires Run(d, prog, two, sc, f2).Some?
    ensures Run(d, prog, one + two, sc, f1 + f2).Some?
    decreases |prog|
  {
    if prog != [] {
      var a := Spread(d, prog[0], one, sc, f1 - 1).value;
      var b := Spread(d, prog[0], two, sc, f2 - 1).value;
      SpreadShift(d, prog[0], one, sc, f1 - 1, f2);
      SpreadShift(d, prog[0], two, sc, f2 - 1, a.fuel + 1);
      SpreadAppend(d, prog[0], one, two, sc, f1 + f2 - 1);
      JointReturns(d, prog[1..], a.branches, b.branches, sc, a.fuel, b.fuel);
      RunFrom(d, prog, one + two, sc, f1 + f2, Out(a.branches + b.branches, a.fuel + b.fuel + 1), a.fuel + b.fuel);
    }
  }
}
