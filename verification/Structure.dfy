/** The streaming structural checker (C0): legality against a target at every nesting depth, and
    `D2`/`N2` from the same pass for a static circuit. */
module Structure {

  import opened Prelude
  import opened Circuits
  import opened Depth

  /** What a parameter's text denotes: a number, a symbolic expression of a known or an unknown
      kind, or neither. */
  datatype Parameter = Number(value: real) | Symbolic(known: bool) | NotNumeric

  /** What the target says of an instruction; `None` leaves the arity or the qubits free. Without
      bounds no parameter is bounded; with some, there is one entry per parameter. */
  datatype Support = Support(
    arity: Option<nat>, qargs: Option<set<seq<int>>>, parameters: nat,
    bounds: seq<Option<(real, real)>>, fixed: map<nat, real>)

  datatype Problem =
    | WidthDiffers
    | InvalidQubit
    | InvalidClbit
    | RepeatedWire
    | UnsupportedName(name: string)
    | WrongArity(name: string)
    | WrongClassicalArity(name: string)
    | IllegalQubits(name: string, qs: seq<int>)
    | WrongParameterCount(name: string)
    | InvalidSymbolic(name: string)
    | OutsideBounds(name: string)
    | FixedMismatch(name: string)
    | InvalidNumeric(name: string)
    | MissingPayload

  datatype Target = Target(width: nat, native2q: set<string>, support: map<string, Support>)

  /** An operation with, when it has a control-flow payload, the operations of its blocks. */
  datatype Instruction = Plain(op: Op) | Blocks(op: Op, children: seq<Instruction>)

  /** Instructions that loose constraints support when the target does not name them: arity
      and, when it is fixed, the number of classical bits. */
  const IMPLIED: map<string, (Option<nat>, Option<nat>, nat)> :=
    map["measure" := (Some(1), Some(1), 0), "reset" := (Some(1), Some(0), 0), "delay" := (Some(1), Some(0), 1),
        "if_else" := (None, None, 0), "for_loop" := (None, None, 0), "while_loop" := (None, None, 0), "switch_case" := (None, None, 0)]

  function Only(bad: bool, problem: Problem): seq<Problem> {
    if bad then [problem] else []
  }

  /** The errors, the qubits that something acts on, whether there is control flow, and the
      operations that reached the level count. */
  datatype Findings = Findings(errors: seq<Problem>, active: set<int>, dynamic: bool, counted: seq<Op>)
  {
    function Then(next: Findings): Findings {
      Findings(errors + next.errors, active + next.active, dynamic || next.dynamic, counted + next.counted)
    }
  }

  const NOTHING := Findings([], {}, false, [])

  lemma ThenAssociates(a: Findings, b: Findings, c: Findings)
    ensures a.Then(b).Then(c) == a.Then(b.Then(c)) && a.Then(NOTHING) == a
  {
  }

  /** The first `n` findings together; `None` when one of them raised an error. */
  function Joined(each: seq<Option<Findings>>, n: nat): Option<Findings>
    requires n <= |each|
  {
    if n == 0 then Some(NOTHING)
    else
      var before := Joined(each, n - 1);
      if before.None? || each[n - 1].None? then None else Some(before.value.Then(each[n - 1].value))
  }

  predicate Faultless(found: Option<Findings>) {
    found.Some? && found.value.errors == []
  }

  lemma {:induction false} JoinedFaultless(each: seq<Option<Findings>>, n: nat)
    requires n <= |each|
    ensures Faultless(Joined(each, n)) <==> forall k | 0 <= k < n :: Faultless(each[k])
  {
    if n > 0 { JoinedFaultless(each, n - 1); }
  }

  /** A list with an error raised in it has no findings. */
  lemma {:induction false} JoinedRaises(each: seq<Option<Findings>>, k: nat, n: nat)
    requires k < n <= |each| && each[k].None?
    ensures Joined(each, n).None?
  {
    if k < n - 1 { JoinedRaises(each, k, n - 1); }
  }

  lemma {:induction false} JoinedWhole(each: seq<Option<Findings>>, n: nat)
    requires n <= |each|
    ensures Joined(each, n).Some? <==> forall k | 0 <= k < n :: each[k].Some?
  {
    if n > 0 { JoinedWhole(each, n - 1); }
  }

  // ----- The rules for one operation

  datatype Rules = Rules(
    qubits: nat, clbits: nat, support: map<string, Support>, impliedLoose: set<string>, read: string -> Parameter)
  {
    /** A malformed operation ends the check of that operation, before its levels. */
    function Shape(op: Op): Option<Problem> {
      if exists q | q in op.qs :: !(0 <= q < qubits) then Some(InvalidQubit)
      else if exists c | c in op.cs :: !(0 <= c < clbits) then Some(InvalidClbit)
      else if !Distinct(op.qs) || !Distinct(op.cs) then Some(RepeatedWire)
      else None
    }

    /** Every wire is one of the circuit's, and none is named twice. */
    ghost predicate WellFormed(op: Op) {
      && (forall k | 0 <= k < |op.qs| :: 0 <= op.qs[k] && op.qs[k] < qubits)
      && (forall k | 0 <= k < |op.cs| :: 0 <= op.cs[k] && op.cs[k] < clbits)
      && (forall j, k | 0 <= j < k < |op.qs| :: op.qs[j] != op.qs[k])
      && (forall j, k | 0 <= j < k < |op.cs| :: op.cs[j] != op.cs[k])
    }

    lemma ShapeExactly(op: Op)
      ensures Shape(op).None? <==> WellFormed(op)
    {
      InRange(op.qs, qubits);
      InRange(op.cs, clbits);
    }

    lemma InRange(xs: seq<int>, n: nat)
      ensures (exists x | x in xs :: !(0 <= x < n)) <==> !forall k | 0 <= k < |xs| :: 0 <= xs[k] && xs[k] < n
    {
      if x :| x in xs && !(0 <= x < n) {
        var k :| 0 <= k < |xs| && xs[k] == x;
      }
      forall k | 0 <= k < |xs| && !(0 <= xs[k] < n)
        ensures exists x | x in xs :: !(0 <= x < n)
      {
        assert xs[k] in xs;
      }
    }

    predicate Within(bound: Option<(real, real)>, value: real) {
      bound.Some? ==> bound.value.0 <= value && value <= bound.value.1
    }

    function ParameterProblems(name: string, spec: Support, index: nat, p: Parameter): seq<Problem> {
      match p
      case Symbolic(known) => Only(!known, InvalidSymbolic(name))
      case NotNumeric => [InvalidNumeric(name)]
      case Number(value) =>
        if spec.bounds != [] && index >= |spec.bounds| then [InvalidNumeric(name)]
        else
          Only(spec.bounds != [] && !Within(spec.bounds[index], value), OutsideBounds(name))
          + Only(index in spec.fixed && value != spec.fixed[index], FixedMismatch(name))
    }

    /** The problems of the first `n` parameters. */
    function ParametersProblems(op: Op, spec: Support, n: nat): seq<Problem>
      requires n <= |op.params|
    {
      if n == 0 then []
      else ParametersProblems(op, spec, n - 1) + ParameterProblems(op.name, spec, n - 1, read(op.params[n - 1]))
    }

    function Problems(op: Op): seq<Problem> {
      if op.name == "barrier" then []
      else if op.name !in support then [UnsupportedName(op.name)]
      else
        var spec := support[op.name];
        Only(spec.arity.Some? && |op.qs| != spec.arity.value, WrongArity(op.name))
        + Only(op.name in impliedLoose && op.name in IMPLIED && IMPLIED[op.name].1.Some? && |op.cs| != IMPLIED[op.name].1.value,
               WrongClassicalArity(op.name))
        + Only(spec.qargs.Some? && op.qs !in spec.qargs.value, IllegalQubits(op.name, op.qs))
        + Only(op.name !in CONTROL_FLOW && |op.params| != spec.parameters, WrongParameterCount(op.name))
        + ParametersProblems(op, spec, |op.params|)
    }

    /** What the target allows at place `index`: a known expression, or a number that is bounded
        and fixed as the target says. */
    predicate Admits(spec: Support, index: nat, p: Parameter) {
      match p
      case Symbolic(known) => known
      case NotNumeric => false
      case Number(value) =>
        && (spec.bounds != [] ==> index < |spec.bounds|)
        && (spec.bounds != [] && spec.bounds[index].Some? ==>
              && spec.bounds[index].value.0 <= value
              && value <= spec.bounds[index].value.1)
        && (index in spec.fixed ==> value == spec.fixed[index])
    }

    /** A barrier, or a supported instruction with its arity, an allowed ordered list of qubits,
        and the parameters that the target asks for. */
    ghost predicate Legal(op: Op) {
      op.name == "barrier" ||
      (&& op.name in support
       && var spec := support[op.name];
          && (spec.arity.Some? ==> |op.qs| == spec.arity.value)
          && (op.name in impliedLoose && op.name in IMPLIED && IMPLIED[op.name].1.Some? ==> |op.cs| == IMPLIED[op.name].1.value)
          && (spec.qargs.Some? ==> op.qs in spec.qargs.value)
          && (op.name !in CONTROL_FLOW ==> |op.params| == spec.parameters)
          && forall k | 0 <= k < |op.params| :: Admits(spec, k, read(op.params[k])))
    }

    lemma {:induction false} ParametersExactly(op: Op, spec: Support, n: nat)
      requires n <= |op.params|
      ensures ParametersProblems(op, spec, n) == [] <==> forall k | 0 <= k < n :: Admits(spec, k, read(op.params[k]))
    {
      if n > 0 {
        ParametersExactly(op, spec, n - 1);
        assert ParameterProblems(op.name, spec, n - 1, read(op.params[n - 1])) == []
          <==> Admits(spec, n - 1, read(op.params[n - 1]));
      }
    }

    lemma ProblemsExactly(op: Op)
      ensures Problems(op) == [] <==> Legal(op)
    {
      if op.name in support { ParametersExactly(op, support[op.name], |op.params|); }
    }

    // ----- An operation with its blocks

    /** Every index has an entry in the enclosing block's list; an empty list maps nothing. */
    predicate Covered(xs: seq<int>, m: seq<int>) {
      m != [] ==> forall k | 0 <= k < |xs| :: 0 <= xs[k] < |m|
    }

    function Renamed(op: Op, qmap: seq<int>, cmap: seq<int>): Op
      requires Covered(op.qs, qmap) && Covered(op.cs, cmap)
    {
      op.(qs := Through(op.qs, qmap), cs := Through(op.cs, cmap))
    }

    function Through(xs: seq<int>, m: seq<int>): (ys: seq<int>)
      requires Covered(xs, m)
      ensures |ys| == |xs| && (m == [] ==> ys == xs)
      ensures m != [] ==> forall k | 0 <= k < |xs| :: ys[k] == m[xs[k]]
    {
      if m == [] then xs else seq(|xs|, k requires 0 <= k < |xs| => m[xs[k]])
    }

    /** What an operation contributes by itself, before its levels. */
    function Own(op: Op): Findings {
      Findings(Problems(op), if op.name == "barrier" then {} else (set q | q in op.qs), op.name in CONTROL_FLOW, [])
    }

    /** What one operation and everything nested in it contribute; `None` when an index of a
        nested operation has no entry in the enclosing list, which raises an error. */
    function One(i: Instruction, qmap: seq<int>, cmap: seq<int>): Option<Findings>
      decreases i, 1
    {
      if Shape(i.op).Some? then Some(NOTHING.(errors := [Shape(i.op).value]))
      else if !Covered(i.op.qs, qmap) || !Covered(i.op.cs, cmap) then None
      else
        var op := Renamed(i.op, qmap, cmap);
        var own := Own(op);
        if op.name !in CONTROL_FLOW then Some(own.(counted := [op]))
        else
          var nested := Nested(i, op);
          if nested.None? then None else Some(own.Then(nested.value))
    }

    /** The findings in the blocks of an operation whose wires are those of `op`. */
    function Nested(i: Instruction, op: Op): Option<Findings>
      decreases i, 0
    {
      if i.Plain? then Some(NOTHING.(errors := [MissingPayload]))
      else Joined(Each(i.children, op.qs, op.cs), |i.children|)
    }

    function Each(body: seq<Instruction>, qmap: seq<int>, cmap: seq<int>): (each: seq<Option<Findings>>)
      ensures |each| == |body|
      decreases body, 0
    {
      seq(|body|, k requires 0 <= k < |body| => One(body[k], qmap, cmap))
    }

    /** The block has these wires. */
    ghost predicate Has(m: seq<int>, xs: seq<int>) {
      m == [] || forall k | 0 <= k < |xs| :: 0 <= xs[k] && xs[k] < |m|
    }

    /** The wires that a block's wires stand for; the circuit's own stand for themselves. */
    ghost function Meant(xs: seq<int>, m: seq<int>): (ys: seq<int>)
      ensures |ys| == |xs|
    {
      seq(|xs|, k requires 0 <= k < |xs| => if m != [] && 0 <= xs[k] < |m| then m[xs[k]] else xs[k])
    }

    lemma MeantThrough(xs: seq<int>, m: seq<int>)
      ensures Covered(xs, m) <==> Has(m, xs)
      ensures Covered(xs, m) ==> Through(xs, m) == Meant(xs, m)
    {
    }

    lemma MeantRenamed(op: Op, qmap: seq<int>, cmap: seq<int>)
      ensures Covered(op.qs, qmap) && Covered(op.cs, cmap) <==> Has(qmap, op.qs) && Has(cmap, op.cs)
      ensures Covered(op.qs, qmap) && Covered(op.cs, cmap) ==>
                Renamed(op, qmap, cmap) == op.(qs := Meant(op.qs, qmap), cs := Meant(op.cs, cmap))
    {
      MeantThrough(op.qs, qmap);
      MeantThrough(op.cs, cmap);
    }

    /** Well-formed, legal on the wires it stands for, and the same for everything nested in it. */
    ghost predicate LegalInside(i: Instruction, qmap: seq<int>, cmap: seq<int>)
      decreases i
    {
      && WellFormed(i.op) && Has(qmap, i.op.qs) && Has(cmap, i.op.cs)
      && var op := i.op.(qs := Meant(i.op.qs, qmap), cs := Meant(i.op.cs, cmap));
         && Legal(op)
         && (op.name in CONTROL_FLOW ==> i.Blocks?)
         && (op.name in CONTROL_FLOW ==> forall k | 0 <= k < |i.children| :: LegalInside(i.children[k], op.qs, op.cs))
    }

    /** Every well-formed operation nested in a block only uses wires that its block has. */
    ghost predicate Contained(i: Instruction, qmap: seq<int>, cmap: seq<int>)
      decreases i
    {
      WellFormed(i.op) ==>
        && Has(qmap, i.op.qs) && Has(cmap, i.op.cs)
        && var op := i.op.(qs := Meant(i.op.qs, qmap), cs := Meant(i.op.cs, cmap));
           op.name in CONTROL_FLOW && i.Blocks? ==>
             forall k | 0 <= k < |i.children| :: Contained(i.children[k], op.qs, op.cs)
    }

    /** An error is raised exactly when some nested operation uses a wire that its block has not. */
    lemma {:induction false} RaisesExactly(i: Instruction, qmap: seq<int>, cmap: seq<int>)
      ensures One(i, qmap, cmap).None? <==> !Contained(i, qmap, cmap)
    {
      ShapeExactly(i.op);
      MeantRenamed(i.op, qmap, cmap);
      if Shape(i.op).None? && Covered(i.op.qs, qmap) && Covered(i.op.cs, cmap) {
        var op := Renamed(i.op, qmap, cmap);
        if op.name in CONTROL_FLOW && i.Blocks? {
          var each := Each(i.children, op.qs, op.cs);
          JoinedWhole(each, |each|);
          forall k | 0 <= k < |i.children|
            ensures each[k].Some? <==> Contained(i.children[k], op.qs, op.cs)
          {
            RaisesExactly(i.children[k], op.qs, op.cs);
          }
        }
      }
    }

    /** No finding at any depth exactly when every operation at every depth is legal. */
    lemma {:induction false} OneExactly(i: Instruction, qmap: seq<int>, cmap: seq<int>)
      ensures Faultless(One(i, qmap, cmap)) <==> LegalInside(i, qmap, cmap)
    {
      ShapeExactly(i.op);
      MeantRenamed(i.op, qmap, cmap);
      if Shape(i.op).None? && Covered(i.op.qs, qmap) && Covered(i.op.cs, cmap) {
        var op := Renamed(i.op, qmap, cmap);
        ProblemsExactly(op);
        if op.name in CONTROL_FLOW && i.Blocks? {
          var each := Each(i.children, op.qs, op.cs);
          JoinedFaultless(each, |each|);
          forall k | 0 <= k < |i.children|
            ensures Faultless(each[k]) <==> LegalInside(i.children[k], op.qs, op.cs)
          {
            OneExactly(i.children[k], op.qs, op.cs);
          }
        }
      }
    }
  }

  function RulesOf(qubits: nat, clbits: nat, target: Target, loose: bool, read: string -> Parameter): Rules {
    var implied := if loose then IMPLIED.Keys - target.support.Keys else {};
    Rules(qubits, clbits,
          target.support + map name | name in implied :: Support(IMPLIED[name].0, None, IMPLIED[name].2, [], map[]),
          implied, read)
  }

  /** What the rules support: the target's own instructions as it says, and under loose
      constraints also measurement, reset and delay of one qubit and control flow, on any qubits. */
  lemma RulesExactly(qubits: nat, clbits: nat, target: Target, loose: bool, read: string -> Parameter, name: string)
    ensures var rules := RulesOf(qubits, clbits, target, loose, read);
            var others := {"measure", "reset", "delay"} + CONTROL_FLOW;
            && rules.qubits == qubits && rules.clbits == clbits && rules.read == read
            && (name in rules.support <==> name in target.support || (loose && name in others))
            && (name in rules.impliedLoose <==> loose && name in others && name !in target.support)
            && (name in target.support ==> rules.support[name] == target.support[name])
            && (name in rules.impliedLoose ==>
                  var spec := rules.support[name];
                  && spec.arity == (if name in CONTROL_FLOW then None else Some(1))
                  && spec.qargs == None && spec.bounds == [] && spec.fixed == map[]
                  && spec.parameters == (if name == "delay" then 1 else 0)
                  && IMPLIED[name].1 == (if name in CONTROL_FLOW then None else Some(if name == "measure" then 1 else 0)))
  {
  }

  // ----- The streaming checker

  class StructuralChecker {
    const rules: Rules
    const native2q: set<string>
    var levels: Levels
    var n2: nat
    var errors: seq<Problem>
    var active: set<int>
    var dynamic: bool
    /** The operations that reached the level count. */
    ghost var counted: seq<Op>

    ghost predicate Valid()
      reads this
    {
      Tracks(levels, counted, |counted|, native2q) && n2 == N2(counted, |counted|, native2q)
    }

    /** What has been found so far. */
    ghost function Found(): Findings
      reads this
    {
      Findings(errors, active, dynamic, counted)
    }

    constructor (numQubits: nat, numClbits: nat, target: Target, loose: bool, read: string -> Parameter)
      ensures Valid() && Found() == NOTHING.(errors := Only(numQubits != target.width, WidthDiffers))
      ensures native2q == target.native2q && rules == RulesOf(numQubits, numClbits, target, loose, read)
    {
      rules, native2q := RulesOf(numQubits, numClbits, target, loose, read), target.native2q;
      levels, n2, active, dynamic, counted := map[], 0, {}, false, [];
      errors := Only(numQubits != target.width, WidthDiffers);
    }

    /** One operation and, when it is control flow, everything in its blocks, renamed to the
        wires that the blocks stand for. */
    method Consume(i: Instruction, qmap: seq<int>, cmap: seq<int>) returns (raised: bool)
      requires Valid()
      modifies this
      ensures Valid()
      ensures raised <==> rules.One(i, qmap, cmap).None?
      ensures !raised ==> Found() == old(Found()).Then(rules.One(i, qmap, cmap).value)
      decreases i, 1
    {
      var shape := rules.Shape(i.op);
      if shape.Some? {
        errors := errors + [shape.value];
        return false;
      }
      if !rules.Covered(i.op.qs, qmap) || !rules.Covered(i.op.cs, cmap) { return true; }
      var op := rules.Renamed(i.op, qmap, cmap);
      Note(op);
      if op.name !in CONTROL_FLOW {
        Count(op);
        return false;
      }
      raised := Enter(i, op);
      if !raised { ThenAssociates(old(Found()), rules.Own(op), rules.Nested(i, op).value); }
    }

    /** What is nested in an operation, on the wires of `op`. */
    method Enter(i: Instruction, op: Op) returns (raised: bool)
      requires Valid()
      modifies this
      ensures Valid()
      ensures raised <==> rules.Nested(i, op).None?
      ensures !raised ==> Found() == old(Found()).Then(rules.Nested(i, op).value)
      decreases i, 0
    {
      if i.Plain? {
        errors := errors + [MissingPayload];
        return false;
      }
      raised := ConsumeAll(i.children, op.qs, op.cs);
    }

    method Note(op: Op)
      requires Valid()
      modifies this`errors, this`active, this`dynamic
      ensures Valid() && Found() == old(Found()).Then(rules.Own(op))
    {
      if op.name != "barrier" { active := active + set q | q in op.qs; }
      errors := errors + rules.Problems(op);
      if op.name in CONTROL_FLOW { dynamic := true; }
    }

    method ConsumeAll(body: seq<Instruction>, qmap: seq<int>, cmap: seq<int>) returns (raised: bool)
      requires Valid()
      modifies this
      ensures Valid()
      ensures raised <==> Joined(rules.Each(body, qmap, cmap), |body|).None?
      ensures !raised ==> Found() == old(Found()).Then(Joined(rules.Each(body, qmap, cmap), |body|).value)
    {
      raised := false;
      ghost var before := Found();
      ghost var each := rules.Each(body, qmap, cmap);
      ghost var found := NOTHING;
      ThenAssociates(before, NOTHING, NOTHING);
      for k := 0 to |body|
        invariant Valid() && !raised
        invariant Joined(each, k) == Some(found)
        invariant Found() == before.Then(found)
      {
        ghost var one := each[k];
        assert one == rules.One(body[k], qmap, cmap);
        raised := Consume(body[k], qmap, cmap);
        if raised {
          JoinedRaises(each, k, |body|);
          return;
        }
        ThenAssociates(before, found, one.value);
        found := found.Then(one.value);
        assert Joined(each, k + 1) == Some(found);
      }
    }

    method Count(op: Op)
      requires Valid()
      modifies this`levels, this`n2, this`counted
      ensures Valid() && counted == old(counted) + [op]
    {
      var tick := if op.name in native2q && |op.qs| == 2 then 1 else 0;
      PrefixTracks(levels, counted, op, native2q);
      levels := Raise(levels, op, tick, counted + [op], |counted|, native2q);
      n2 := n2 + tick;
      counted := counted + [op];
    }

    /** `Some((D2, N2))` for a static circuit. */
    method Result() returns (clean: bool, metrics: Option<(nat, nat)>)
      requires Valid()
      ensures clean == (errors == []) && metrics.Some? == !dynamic
      ensures metrics.Some? ==> LongestChain(counted, native2q, metrics.value.0) && metrics.value.1 == N2(counted, |counted|, native2q)
    {
      clean, metrics := errors == [], None;
      if !dynamic {
        var d := MaxValue(levels);
        TrackedHighest(levels, counted, native2q, d);
        HighestIsLongestChain(counted, native2q, d);
        metrics := Some((d, n2));
      }
    }
  }

  function Ops(body: seq<Instruction>): (ops: seq<Op>)
    ensures |ops| == |body| && forall k | 0 <= k < |body| :: ops[k] == body[k].op
  {
    seq(|body|, k requires 0 <= k < |body| => body[k].op)
  }

  lemma {:induction false} PrefixLevel(ops: seq<Op>, o: Op, n: nat, native: set<string>, w: Wire)
    requires n <= |ops|
    ensures Level(ops + [o], n, native, w) == Level(ops, n, native, w)
    decreases n, 0, 1
  {
    if n > 0 {
      if ops[n - 1].On(w) {
        PrefixHighest(ops, o, n - 1, native, ops[n - 1].Wires());
      } else {
        PrefixLevel(ops, o, n - 1, native, w);
      }
    }
  }

  lemma {:induction false} PrefixHighest(ops: seq<Op>, o: Op, n: nat, native: set<string>, ws: seq<Wire>)
    requires n <= |ops|
    ensures Highest(ops + [o], n, native, ws) == Highest(ops, n, native, ws)
    decreases n, |ws| + 1, 0
  {
    if ws != [] {
      PrefixLevel(ops, o, n, native, ws[0]);
      PrefixHighest(ops, o, n, native, ws[1..]);
    }
  }

  lemma {:induction false} PrefixCount(ops: seq<Op>, o: Op, n: nat, native: set<string>)
    requires n <= |ops|
    ensures N2(ops + [o], n, native) == N2(ops, n, native)
    decreases n
  {
    if n > 0 {
      PrefixCount(ops, o, n - 1, native);
    }
  }

  lemma PrefixTracks(levels: Levels, ops: seq<Op>, o: Op, native: set<string>)
    requires Tracks(levels, ops, |ops|, native)
    ensures Tracks(levels, ops + [o], |ops|, native)
    ensures N2(ops + [o], |ops| + 1, native) == N2(ops, |ops|, native) + Tick(o, native)
  {
    PrefixCount(ops, o, |ops|, native);
    forall w ensures Get(levels, w) == Level(ops + [o], |ops|, native, w) {
      PrefixLevel(ops, o, |ops|, native, w);
    }
  }

  /** A legal operation of the circuit itself is counted as it stands, unless it is control flow. */
  /** The qubits that an operation acts on; a barrier acts on none. */
  ghost function Acted(op: Op): set<int> {
    set k | 0 <= k < |op.qs| && op.name != "barrier" :: op.qs[k]
  }

  ghost function ActedOn(ops: seq<Op>): set<int> {
    if ops == [] then {} else ActedOn(ops[..|ops| - 1]) + Acted(ops[|ops| - 1])
  }

  lemma {:induction false} ActedOnBy(ops: seq<Op>, q: int)
    ensures q in ActedOn(ops) <==> exists i, k | 0 <= i < |ops| && 0 <= k < |ops[i].qs| :: ops[i].name != "barrier" && ops[i].qs[k] == q
    decreases |ops|
  {
    if ops != [] {
      var n := |ops| - 1;
      ActedOnBy(ops[..n], q);
      assert forall i | 0 <= i < n :: ops[..n][i] == ops[i];
    }
  }

  ghost predicate Plainly(found: Option<Findings>, op: Op) {
    && found.Some?
    && (found.value.dynamic <==> op.name in CONTROL_FLOW)
    && (op.name !in CONTROL_FLOW ==> found.value.counted == [op] && found.value.active == Acted(op))
  }

  lemma LegalPlainly(rules: Rules, i: Instruction)
    requires rules.LegalInside(i, [], [])
    ensures Plainly(rules.One(i, [], []), i.op)
  {
    rules.OneExactly(i, [], []);
    rules.ShapeExactly(i.op);
    assert rules.Renamed(i.op, [], []) == i.op;
  }

  lemma {:induction false} JoinedPlainly(each: seq<Option<Findings>>, ops: seq<Op>, n: nat)
    requires n <= |each| == |ops| && forall k | 0 <= k < n :: Plainly(each[k], ops[k])
    ensures Joined(each, n).Some?
    ensures Joined(each, n).value.dynamic <==> exists k | 0 <= k < n :: ops[k].name in CONTROL_FLOW
    ensures !Joined(each, n).value.dynamic ==> Joined(each, n).value.counted == ops[..n]
    ensures !Joined(each, n).value.dynamic ==> Joined(each, n).value.active == ActedOn(ops[..n])
  {
    if n > 0 {
      JoinedPlainly(each, ops, n - 1);
      assert Plainly(each[n - 1], ops[n - 1]);
      assert ops[..n] == ops[..n - 1] + [ops[n - 1]];
      assert ops[..n][..n - 1] == ops[..n - 1];
    }
  }

  ghost predicate Static(body: seq<Instruction>) {
    forall k | 0 <= k < |body| :: body[k].op.name !in CONTROL_FLOW
  }

  ghost predicate ContainedThroughout(rules: Rules, body: seq<Instruction>) {
    forall k | 0 <= k < |body| :: rules.Contained(body[k], [], [])
  }

  ghost predicate LegalThroughout(rules: Rules, body: seq<Instruction>) {
    forall k | 0 <= k < |body| :: rules.LegalInside(body[k], [], [])
  }

  /** What the findings of a circuit say about it. */
  ghost predicate Telling(found: Option<Findings>, rules: Rules, body: seq<Instruction>) {
    && (Faultless(found) <==> LegalThroughout(rules, body))
    && (Faultless(found) ==>
          && (found.value.dynamic <==> !Static(body))
          && (!found.value.dynamic ==> found.value.counted == Ops(body) && found.value.active == ActedOn(Ops(body))))
  }

  lemma FoundExactly(rules: Rules, body: seq<Instruction>)
    ensures Telling(Joined(rules.Each(body, [], []), |body|), rules, body)
  {
    var each := rules.Each(body, [], []);
    JoinedFaultless(each, |body|);
    forall k | 0 <= k < |body|
      ensures Faultless(each[k]) <==> rules.LegalInside(body[k], [], [])
      ensures Faultless(each[k]) ==> Plainly(each[k], Ops(body)[k])
    {
      rules.OneExactly(body[k], [], []);
      if Faultless(each[k]) { LegalPlainly(rules, body[k]); }
    }
    if LegalThroughout(rules, body) {
      JoinedPlainly(each, Ops(body), |body|);
      assert Ops(body)[..|body|] == Ops(body);
    }
  }

  lemma FoundOrRaised(rules: Rules, body: seq<Instruction>)
    ensures Joined(rules.Each(body, [], []), |body|).Some? <==> ContainedThroughout(rules, body)
  {
    var each := rules.Each(body, [], []);
    JoinedWhole(each, |body|);
    forall k | 0 <= k < |body|
      ensures each[k].Some? <==> rules.Contained(body[k], [], [])
    {
      rules.RaisesExactly(body[k], [], []);
    }
  }

  /** One pass of the checker over a circuit. It raises an error exactly when some block uses a wire
      that it has not. Otherwise it is clean exactly when the width is the target's
      and every operation, at every nesting depth, is legal. A clean circuit has metrics exactly
      when it is static, and they are its longest chain and count of native two-qubit operations. */
  method Check(numQubits: nat, numClbits: nat, target: Target, loose: bool, read: string -> Parameter,
               body: seq<Instruction>)
    returns (raised: bool, clean: bool, metrics: Option<(nat, nat)>, active: set<int>)
    ensures raised <==> !ContainedThroughout(RulesOf(numQubits, numClbits, target, loose, read), body)
    ensures !raised && clean <==>
              numQubits == target.width && LegalThroughout(RulesOf(numQubits, numClbits, target, loose, read), body)
    ensures !raised && clean ==> (metrics.Some? <==> Static(body))
    ensures raised ==> !clean && metrics.None?
    ensures !raised && clean && metrics.Some? ==> active == ActedOn(Ops(body))
    ensures !raised && clean && metrics.Some? ==>
              && LongestChain(Ops(body), target.native2q, metrics.value.0)
              && metrics.value.1 == N2(Ops(body), |body|, target.native2q)
  {
    var checker := new StructuralChecker(numQubits, numClbits, target, loose, read);
    FoundExactly(checker.rules, body);
    FoundOrRaised(checker.rules, body);
    raised := checker.ConsumeAll(body, [], []);
    if raised { return true, false, None, {}; }
    ghost var found := Joined(checker.rules.Each(body, [], []), |body|);
    assert checker.errors == Only(numQubits != target.width, WidthDiffers) + found.value.errors;
    assert checker.dynamic == found.value.dynamic && checker.counted == found.value.counted;
    active := checker.active;
    clean, metrics := checker.Result();
    assert clean <==> numQubits == target.width && Faultless(found);
  }

  /** Two-qubit operations that the checker counts and `d2_n2` does not. */
  predicate Disputed(o: Op, native2q: set<string>) {
    o.name in native2q && o.name in NEVER_COUNTED && |o.qs| == 2
  }

  lemma {:induction false} CountsDiffer(ops: seq<Op>, native2q: set<string>, n: nat)
    requires n <= |ops|
    ensures N2(ops, n, native2q - NEVER_COUNTED) <= N2(ops, n, native2q)
    ensures N2(ops, n, native2q - NEVER_COUNTED) == N2(ops, n, native2q) <==> forall k | 0 <= k < n :: !Disputed(ops[k], native2q)
    decreases n
  {
    if n > 0 {
      CountsDiffer(ops, native2q, n - 1);
    }
  }

  lemma {:induction false} LevelsAgree(ops: seq<Op>, native2q: set<string>, n: nat, w: Wire)
    requires n <= |ops| && forall k | 0 <= k < n :: !Disputed(ops[k], native2q)
    ensures Level(ops, n, native2q - NEVER_COUNTED, w) == Level(ops, n, native2q, w)
    decreases n, 0, 1
  {
    if n > 0 {
      if ops[n - 1].On(w) {
        HighestAgrees(ops, native2q, n - 1, ops[n - 1].Wires());
      } else {
        LevelsAgree(ops, native2q, n - 1, w);
      }
    }
  }

  lemma {:induction false} HighestAgrees(ops: seq<Op>, native2q: set<string>, n: nat, ws: seq<Wire>)
    requires n <= |ops| && forall k | 0 <= k < n :: !Disputed(ops[k], native2q)
    ensures Highest(ops, n, native2q - NEVER_COUNTED, ws) == Highest(ops, n, native2q, ws)
    decreases n, |ws| + 1, 0
  {
    if ws != [] {
      LevelsAgree(ops, native2q, n, ws[0]);
      HighestAgrees(ops, native2q, n, ws[1..]);
    }
  }

  /** The checker's metrics are those of `d2_n2` exactly when the circuit has no two-qubit
      operation that the target calls native and that is named barrier, delay, measure or
      reset: then both numbers agree, and otherwise `N2` already differs. */
  lemma MetricsAgreeExactly(ops: seq<Op>, native2q: set<string>)
    ensures (forall o | o in ops :: !Disputed(o, native2q))
            <==> && N2(ops, |ops|, native2q) == N2(ops, |ops|, native2q - NEVER_COUNTED)
                 && forall d: nat :: LongestChain(ops, native2q, d) <==> LongestChain(ops, native2q - NEVER_COUNTED, d)
  {
    var strict := native2q - NEVER_COUNTED;
    CountsDiffer(ops, native2q, |ops|);
    if forall o | o in ops :: !Disputed(o, native2q) {
      forall w ensures Level(ops, |ops|, strict, w) == Level(ops, |ops|, native2q, w) {
        LevelsAgree(ops, native2q, |ops|, w);
      }
      var top := HighestLevelExists(ops, native2q, |ops|);
      HighestIsLongestChain(ops, native2q, top);
      HighestIsLongestChain(ops, strict, top);
      forall d: nat ensures LongestChain(ops, native2q, d) <==> LongestChain(ops, strict, d) {
        if LongestChain(ops, native2q, d) {
          LongestChainUnique(ops, native2q, d, top);
        }
        if LongestChain(ops, strict, d) {
          LongestChainUnique(ops, strict, d, top);
        }
      }
    }
  }

  /** A two-qubit measurement that the target calls native: the checker counts it, and `d2_n2`
      does not. */
  lemma DisputedMeasure()
    ensures var ops, native := [Op("measure", [0, 1], [], [], None)], {"cx", "measure"};
            && N2(ops, 1, native) == 1 && LongestChain(ops, native, 1)
            && N2(ops, 1, native - NEVER_COUNTED) == 0 && LongestChain(ops, native - NEVER_COUNTED, 0)
  {
    var ops, native := [Op("measure", [0, 1], [], [], None)], {"cx", "measure"};
    var strict := native - NEVER_COUNTED;
    OnlyOperation(ops, native);
    OnlyOperation(ops, strict);
  }

  lemma OnlyOperation(ops: seq<Op>, native: set<string>)
    requires |ops| == 1 && ops[0].Wires() != []
    ensures N2(ops, 1, native) == Tick(ops[0], native) && LongestChain(ops, native, Tick(ops[0], native))
  {
    assert N2(ops, 0, native) == 0;
    forall ws ensures Highest(ops, 0, native, ws) == 0 { NothingHigh(ops, native, ws); }
    assert Level(ops, 1, native, ops[0].Wires()[0]) == Tick(ops[0], native);
    HighestIsLongestChain(ops, native, Tick(ops[0], native));
  }

  lemma {:induction false} NothingHigh(ops: seq<Op>, native: set<string>, ws: seq<Wire>)
    ensures Highest(ops, 0, native, ws) == 0
  {
    if ws != [] { NothingHigh(ops, native, ws[1..]); }
  }

  const NESTED: Instruction :=
    Blocks(Op("if_else", [0], [0], [], None), [Plain(Op("x", [1], [], [], None))])

  /** A block on one qubit with an operation on its second qubit: the index is within the circuit,
      so it is not reported as invalid, and its lookup in the block's list raises. */
  lemma NestedIndexRaises(rules: Rules)
    requires rules.qubits == 2 && rules.clbits == 1
    ensures rules.One(NESTED, [], []).None?
  {
    var op := rules.Renamed(NESTED.op, [], []);
    assert op.qs == [0] && op.cs == [0];
    assert NESTED.children[0].op.qs[0] == 1;
    assert !rules.Covered(NESTED.children[0].op.qs, op.qs);
    rules.RaisesExactly(NESTED.children[0], op.qs, op.cs);
    rules.RaisesExactly(NESTED, [], []);
  }
}
