/** The simulator of `Dynamic` as it runs: it counts its steps upwards in one counter that all
    nested runs share, and walks instructions, branches and loop indices in loops. */
module Simulator {

  import opened Prelude
  import opened Dynamic

  class Simulation<!S(!new)> {
    const device: Device<S>
    const maxSteps: nat
    var steps: nat

    constructor (device: Device<S>, maxSteps: nat)
      ensures this.device == device && this.maxSteps == maxSteps && steps == 0
    {
      this.device, this.maxSteps, steps := device, maxSteps, 0;
    }

    /** `r` and the counter are what `spec` says; a raised error leaves no answer. */
    ghost predicate Agrees(spec: Option<Out<S>>, r: Option<seq<Branch<S>>>)
      reads this
    {
      match spec
      case None => r.None?
      case Some(o) => r == Some(o.branches) && steps <= maxSteps && maxSteps - steps == o.fuel
    }

    method RunAll(prog: seq<Instr>, branches: seq<Branch<S>>, sc: Scope) returns (r: Option<seq<Branch<S>>>)
      requires steps <= maxSteps
      modifies `steps
      ensures Agrees(Dynamic.Run(device, prog, branches, sc, maxSteps - old(steps)), r)
      decreases maxSteps - steps, 0
    {
      var current := branches;
      var i := 0;
      while i < |prog|
        invariant 0 <= i <= |prog| && old(steps) <= steps <= maxSteps
        invariant Dynamic.Run(device, prog, branches, sc, maxSteps - old(steps))
               == Dynamic.Run(device, prog[i..], current, sc, maxSteps - steps)
        invariant i > 0 ==> steps > old(steps)
      {
        ghost var rest := prog[i..];
        assert rest[0] == prog[i] && rest[1..] == prog[i + 1..];
        steps := steps + 1;
        if steps > maxSteps { return None; }
        var following := SpreadAll(prog[i], current, sc);
        if following.None? { return None; }
        current := following.value;
        i := i + 1;
      }
      assert prog[i..] == [];
      return Some(current);
    }

    method SpreadAll(inst: Instr, branches: seq<Branch<S>>, sc: Scope) returns (r: Option<seq<Branch<S>>>)
      requires steps <= maxSteps
      modifies `steps
      ensures r.Some? ==> steps >= old(steps)
      ensures Agrees(Dynamic.Spread(device, inst, branches, sc, maxSteps - old(steps)), r)
      decreases maxSteps - steps, 3
    {
      if inst.Barrier? { return Some(branches); }
      var following: seq<Branch<S>> := [];
      var j := 0;
      AfterNothing(Dynamic.Spread(device, inst, branches, sc, maxSteps - steps));
      assert branches[0..] == branches;
      while j < |branches|
        invariant 0 <= j <= |branches| && old(steps) <= steps <= maxSteps
        invariant Dynamic.Spread(device, inst, branches, sc, maxSteps - old(steps))
               == After(following, Dynamic.Spread(device, inst, branches[j..], sc, maxSteps - steps))
      {
        ghost var rest := branches[j..];
        assert rest[0] == branches[j] && rest[1..] == branches[j + 1..];
        ghost var fuel := maxSteps - steps;
        var part := OneBranch(inst, branches[j], sc);
        if part.None? { return None; }
        ghost var tail := Dynamic.Spread(device, inst, branches[j + 1..], sc, maxSteps - steps);
        AfterAfter(following, part.value, tail);
        following := following + part.value;
        j := j + 1;
      }
      assert branches[j..] == [];
      assert following + [] == following;
      return Some(following);
    }

    method OneBranch(inst: Instr, b: Branch<S>, sc: Scope) returns (r: Option<seq<Branch<S>>>)
      requires steps <= maxSteps
      modifies `steps
      ensures r.Some? ==> steps >= old(steps)
      ensures Agrees(Dynamic.One(device, inst, b, sc, maxSteps - old(steps)), r)
      decreases maxSteps - steps, 2
    {
      match inst
      case Barrier => r := Some([b]);
      case Measure(_, _) =>
        r := Some(Measured(device, sc, inst, b, false) + Measured(device, sc, inst, b, true));
      case Reset(_) =>
        r := Some(Measured(device, sc, inst, b, false) + Measured(device, sc, inst, b, true));
      case IfElse(bits, value, yes, no, qs, cs) =>
        r := RunAll(if Holds(sc, bits, value, b.bits) then yes else no, [b], Inner(sc, qs, cs));
      case While(bits, value, body, qs, cs) =>
        if !Holds(sc, bits, value, b.bits) {
          r := Some([b]);
        } else {
          r := RunAll(body, [b], Inner(sc, qs, cs));
          if r.Some? { r := RunAll([inst], r.value, sc); }
        }
      case For(_, _, _, _, _) => r := RepeatAll(inst, b, sc);
      case Gate(name, qs) =>
        var s := device.gate(name, MapAll(sc.qmap, qs), sc.bound, b.state);
        r := match s case None => None case Some(state) => Some([Branch(state, b.bits)]);
    }

    method RepeatAll(inst: Instr, b: Branch<S>, sc: Scope) returns (r: Option<seq<Branch<S>>>)
      requires inst.For?
      requires steps <= maxSteps
      modifies `steps
      ensures r.Some? ==> steps >= old(steps)
      ensures Agrees(Dynamic.Repeat(device, inst, inst.indices, [b], sc, maxSteps - old(steps)), r)
      decreases maxSteps - steps, 1
    {
      var parts := [b];
      var j := 0;
      while j < |inst.indices|
        invariant 0 <= j <= |inst.indices| && old(steps) <= steps <= maxSteps
        invariant Dynamic.Repeat(device, inst, inst.indices, [b], sc, maxSteps - old(steps))
               == Dynamic.Repeat(device, inst, inst.indices[j..], parts, sc, maxSteps - steps)
      {
        ghost var rest := inst.indices[j..];
        assert rest[0] == inst.indices[j] && rest[1..] == inst.indices[j + 1..];
        r := RunAll(inst.body, parts, Turn(sc, inst, inst.indices[j]));
        if r.None? { return; }
        parts := r.value;
        j := j + 1;
      }
      assert inst.indices[j..] == [];
      return Some(parts);
    }
  }
}
