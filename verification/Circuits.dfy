/** Circuits as operation lists, and when two of them differ only by commuting operations.

    An operation is the five-element record of the canonical circuit format: a name, its
    qubits, its classical bits, its parameters and an optional payload. Parameters and
    payloads are only ever compared, so they are their canonical text. */
module Circuits {

  import opened Prelude

  datatype Wire = Qubit(index: int) | Clbit(index: int)

  datatype Op = Op(name: string, qs: seq<int>, cs: seq<int>, params: seq<string>, payload: Option<string>) {

    /** The wires in the order of an operation record: qubits, then classical bits. */
    function Wires(): (ws: seq<Wire>)
      ensures |ws| == |qs| + |cs|
      ensures forall i | 0 <= i < |qs| :: ws[i] == Qubit(qs[i])
      ensures forall i | 0 <= i < |cs| :: ws[|qs| + i] == Clbit(cs[i])
    {
      seq(|qs| + |cs|, i requires 0 <= i < |qs| + |cs| => if i < |qs| then Qubit(qs[i]) else Clbit(cs[i - |qs|]))
    }

    predicate On(w: Wire) {
      w in Wires()
    }
  }

  const CONTROL_FLOW: set<string> := {"if_else", "for_loop", "while_loop", "switch_case"}

  predicate Shares(a: Op, b: Op) {
    exists w | w in a.Wires() :: b.On(w)
  }

  predicate Wired(xs: seq<Op>) {
    forall x | x in xs :: x.Wires() != []
  }

  // ----- Commuting adjacent operations that share no wire

  function Exchange(xs: seq<Op>, k: nat): (ys: seq<Op>)
    requires k + 1 < |xs|
    ensures |ys| == |xs|
  {
    xs[k := xs[k + 1]][k + 1 := xs[k]]
  }

  /** `path` lists the positions at which adjacent, wire-disjoint operations trade places. */
  ghost predicate Commutes(xs: seq<Op>, ys: seq<Op>, path: seq<nat>)
    decreases |path|
  {
    if path == [] then xs == ys
    else path[0] + 1 < |xs| && !Shares(xs[path[0]], xs[path[0] + 1]) && Commutes(Exchange(xs, path[0]), ys, path[1..])
  }

  ghost predicate TraceEquivalent(xs: seq<Op>, ys: seq<Op>) {
    exists path :: Commutes(xs, ys, path)
  }

  // ----- The order of operations on each wire

  function OnWire(xs: seq<Op>, w: Wire): seq<Op> {
    if xs == [] then [] else (if xs[0].On(w) then [xs[0]] else []) + OnWire(xs[1..], w)
  }

  ghost predicate SameOrder(xs: seq<Op>, ys: seq<Op>) {
    forall w :: OnWire(xs, w) == OnWire(ys, w)
  }

  lemma {:induction false} OnWireAppend(xs: seq<Op>, ys: seq<Op>, w: Wire)
    ensures OnWire(xs + ys, w) == OnWire(xs, w) + OnWire(ys, w)
  {
    if xs == [] {
      assert xs + ys == ys;
    } else {
      assert (xs + ys)[1..] == xs[1..] + ys;
      OnWireAppend(xs[1..], ys, w);
    }
  }

  lemma {:induction false} OnWireEmpty(xs: seq<Op>, w: Wire)
    requires forall x | x in xs :: !x.On(w)
    ensures OnWire(xs, w) == []
  {
    if xs != [] {
      OnWireEmpty(xs[1..], w);
    }
  }

  lemma {:induction false} OnWireMember(xs: seq<Op>, w: Wire, x: Op)
    ensures x in OnWire(xs, w) <==> x in xs && x.On(w)
  {
    if xs != [] {
      assert xs == [xs[0]] + xs[1..];
      OnWireMember(xs[1..], w, x);
    }
  }

  // ----- Taking an operation out of a list when it comes first on all its wires

  function FirstOn(xs: seq<Op>, o: Op): (k: nat)
    ensures k <= |xs|
  {
    if xs == [] || Shares(xs[0], o) then 0 else FirstOn(xs[1..], o) + 1
  }

  lemma {:induction false} FirstOnMeets(xs: seq<Op>, o: Op)
    ensures forall j | 0 <= j < FirstOn(xs, o) :: !Shares(xs[j], o)
    ensures FirstOn(xs, o) < |xs| ==> Shares(xs[FirstOn(xs, o)], o)
  {
    if xs != [] && !Shares(xs[0], o) {
      FirstOnMeets(xs[1..], o);
    }
  }

  function Without(xs: seq<Op>, k: nat): seq<Op>
    requires k < |xs|
  {
    xs[..k] + xs[k + 1..]
  }

  /** The list left after `o`, when `o` is the next operation on every wire it touches. */
  function Match(xs: seq<Op>, o: Op): Option<seq<Op>> {
    if xs == [] then None
    else if Shares(xs[0], o) then if xs[0] == o then Some(xs[1..]) else None
    else match Match(xs[1..], o)
      case None => None
      case Some(rest) => Some([xs[0]] + rest)
  }

  lemma MatchCons(x: Op, rest: seq<Op>, o: Op)
    ensures Match([x] + rest, o)
            == if Shares(x, o) then if x == o then Some(rest) else None
               else match Match(rest, o) case None => None case Some(left) => Some([x] + left)
  {
    assert ([x] + rest)[1..] == rest;
  }

  lemma WithoutCons(xs: seq<Op>, k: nat)
    requires xs != []
    ensures Without(xs, 0) == xs[1..]
    ensures k < |xs[1..]| ==> Without(xs, k + 1) == [xs[0]] + Without(xs[1..], k)
  {
  }

  /** `Match` by position: it takes out the first operation that meets `o`, if that is `o`. */
  lemma {:induction false} MatchAt(xs: seq<Op>, o: Op)
    ensures Match(xs, o).Some? <==> FirstOn(xs, o) < |xs| && xs[FirstOn(xs, o)] == o
    ensures Match(xs, o).Some? ==> Match(xs, o).value == Without(xs, FirstOn(xs, o))
  {
    if xs != [] {
      WithoutCons(xs, FirstOn(xs[1..], o));
      MatchAt(xs[1..], o);
    }
  }

  lemma {:induction false} MatchWired(xs: seq<Op>, o: Op)
    requires Match(xs, o).Some? && Wired(xs)
    ensures Wired(Match(xs, o).value)
  {
    if !Shares(xs[0], o) {
      MatchWired(xs[1..], o);
    }
  }

  lemma SharesSelf(o: Op)
    requires o.Wires() != []
    ensures Shares(o, o)
  {
    assert o.On(o.Wires()[0]);
  }

  lemma SharesSymmetric(a: Op, b: Op)
    ensures Shares(a, b) <==> Shares(b, a)
  {
  }

  lemma OnWireCons(x: Op, xs: seq<Op>, w: Wire)
    ensures OnWire([x] + xs, w) == (if x.On(w) then [x] else []) + OnWire(xs, w)
  {
    assert ([x] + xs)[1..] == xs;
  }

  lemma OnWireSplit(xs: seq<Op>, k: nat, w: Wire)
    requires k < |xs|
    ensures OnWire(xs, w) == OnWire(xs[..k], w) + ((if xs[k].On(w) then [xs[k]] else []) + OnWire(xs[k + 1..], w))
    ensures OnWire(Without(xs, k), w) == OnWire(xs[..k], w) + OnWire(xs[k + 1..], w)
  {
    assert xs == xs[..k] + xs[k..];
    OnWireAppend(xs[..k], xs[k..], w);
    OnWireAppend(xs[..k], xs[k + 1..], w);
    assert xs[k..][1..] == xs[k + 1..];
  }

  /** The first operation that shares a wire with `o` comes first on that wire. */
  lemma FirstOnHeads(xs: seq<Op>, o: Op, w: Wire)
    requires FirstOn(xs, o) < |xs| && o.On(w)
    ensures OnWire(xs[..FirstOn(xs, o)], w) == []
  {
    var k := FirstOn(xs, o);
    FirstOnMeets(xs, o);
    forall x | x in xs[..k] ensures !x.On(w) {
      assert !Shares(x, o);
    }
    OnWireEmpty(xs[..k], w);
  }

  /** A matched operation heads every one of its wires; the other wires are untouched. */
  lemma MatchOnWire(xs: seq<Op>, o: Op, w: Wire)
    requires Match(xs, o).Some?
    ensures OnWire(xs, w) == (if o.On(w) then [o] else []) + OnWire(Match(xs, o).value, w)
  {
    var k := FirstOn(xs, o);
    MatchAt(xs, o);
    OnWireSplit(xs, k, w);
    var before, after := OnWire(xs[..k], w), OnWire(xs[k + 1..], w);
    if o.On(w) {
      FirstOnHeads(xs, o, w);
      assert [] + after == after && [] + ([o] + after) == [o] + after;
    } else {
      assert [] + after == after && [] + (before + after) == before + after;
    }
  }

  /** If `ys` has `x` first on every wire of `x`, then `x` can be taken out of `ys`, and what
      is left agrees with what follows `x`. */
  lemma MatchHead(x: Op, xs: seq<Op>, ys: seq<Op>)
    requires x.Wires() != [] && SameOrder([x] + xs, ys)
    ensures Match(ys, x).Some? && SameOrder(xs, Match(ys, x).value)
  {
    FirstIsHead(x, xs, ys);
    MatchAt(ys, x);
    forall u ensures OnWire(xs, u) == OnWire(Match(ys, x).value, u) {
      MatchOnWire(ys, x, u);
      OnWireCons(x, xs, u);
      var head := if x.On(u) then [x] else [];
      assert head + OnWire(xs, u) == head + OnWire(Match(ys, x).value, u);
      assert OnWire(xs, u) == (head + OnWire(xs, u))[|head|..];
    }
  }

  lemma FirstIsHead(x: Op, xs: seq<Op>, ys: seq<Op>)
    requires x.Wires() != [] && SameOrder([x] + xs, ys)
    ensures FirstOn(ys, x) < |ys| && ys[FirstOn(ys, x)] == x
  {
    var w0 := x.Wires()[0];
    OnWireCons(x, xs, w0);
    assert x in OnWire(ys, w0);
    OnWireMember(ys, w0, x);
    SharesSelf(x);
    FirstOnMeets(ys, x);
    var k := FirstOn(ys, x);
    var w :| w in ys[k].Wires() && x.On(w);
    OnWireSplit(ys, k, w);
    FirstOnHeads(ys, x, w);
    OnWireCons(x, xs, w);
    assert ys[k] == OnWire(ys, w)[0] == x;
  }

  // ----- The two notions agree

  lemma ExchangeKeepsOrder(xs: seq<Op>, k: nat)
    requires k + 1 < |xs| && !Shares(xs[k], xs[k + 1])
    ensures SameOrder(xs, Exchange(xs, k))
  {
    var a, b, before, after := xs[k], xs[k + 1], xs[..k], xs[k + 2..];
    forall w ensures OnWire(xs, w) == OnWire(Exchange(xs, k), w) {
      assert xs == before + ([a] + ([b] + after));
      assert Exchange(xs, k) == before + ([b] + ([a] + after));
      OnWireAppend(before, [a] + ([b] + after), w);
      OnWireAppend(before, [b] + ([a] + after), w);
      PairOnWire(a, b, after, w);
    }
  }

  lemma PairOnWire(a: Op, b: Op, after: seq<Op>, w: Wire)
    requires !Shares(a, b)
    ensures OnWire([a] + ([b] + after), w) == OnWire([b] + ([a] + after), w)
  {
    OnWireCons(a, [b] + after, w);
    OnWireCons(b, after, w);
    OnWireCons(b, [a] + after, w);
    OnWireCons(a, after, w);
    assert !(a.On(w) && b.On(w));
    assert [] + OnWire(after, w) == OnWire(after, w);
  }

  lemma {:induction false} CommutesKeepsOrder(xs: seq<Op>, ys: seq<Op>, path: seq<nat>)
    requires Commutes(xs, ys, path)
    ensures SameOrder(xs, ys)
    decreases |path|
  {
    if path != [] {
      ExchangeKeepsOrder(xs, path[0]);
      CommutesKeepsOrder(Exchange(xs, path[0]), ys, path[1..]);
    }
  }

  lemma {:induction false} CommutesAfter(x: Op, xs: seq<Op>, ys: seq<Op>, path: seq<nat>)
    requires Commutes(xs, ys, path)
    ensures Commutes([x] + xs, [x] + ys, seq(|path|, i requires 0 <= i < |path| => path[i] + 1))
    decreases |path|
  {
    if path != [] {
      var lifted := seq(|path|, i requires 0 <= i < |path| => path[i] + 1);
      CommutesAfter(x, Exchange(xs, path[0]), ys, path[1..]);
      assert lifted[1..] == seq(|path[1..]|, i requires 0 <= i < |path[1..]| => path[1..][i] + 1);
      assert Exchange([x] + xs, path[0] + 1) == [x] + Exchange(xs, path[0]);
    }
  }

  lemma {:induction false} CommutesTransitive(xs: seq<Op>, ys: seq<Op>, zs: seq<Op>, p: seq<nat>, q: seq<nat>)
    requires Commutes(xs, ys, p) && Commutes(ys, zs, q)
    ensures Commutes(xs, zs, p + q)
    decreases |p|
  {
    if p == [] {
      assert p + q == q;
    } else {
      assert (p + q)[1..] == p[1..] + q;
      CommutesTransitive(Exchange(xs, p[0]), ys, zs, p[1..], q);
    }
  }

  /** An operation that shares no wire with those before it can be carried to the front. */
  lemma {:induction false} CarryToFront(xs: seq<Op>, k: nat) returns (path: seq<nat>)
    requires k < |xs| && forall j | 0 <= j < k :: !Shares(xs[j], xs[k])
    ensures Commutes(xs, [xs[k]] + Without(xs, k), path)
    decreases k
  {
    if k == 0 {
      path := [];
      assert xs == [xs[0]] + Without(xs, 0);
    } else {
      var ys := Exchange(xs, k - 1);
      var rest := CarryToFront(ys, k - 1);
      path := [k - 1] + rest;
      assert path[1..] == rest;
      assert Without(ys, k - 1) == Without(xs, k);
    }
  }

  lemma {:induction false} SameOrderCommutes(xs: seq<Op>, ys: seq<Op>) returns (path: seq<nat>)
    requires Wired(xs) && Wired(ys) && SameOrder(xs, ys)
    ensures Commutes(ys, xs, path)
    decreases |xs|
  {
    if xs == [] {
      if ys != [] {
        var w := ys[0].Wires()[0];
        assert OnWire(ys, w) == OnWire(xs, w);
        assert ys[0].On(w);
        assert false;
      }
      path := [];
    } else {
      assert xs == [xs[0]] + xs[1..];
      MatchHead(xs[0], xs[1..], ys);
      var k := FirstOn(ys, xs[0]);
      MatchAt(ys, xs[0]);
      FirstIsHead(xs[0], xs[1..], ys);
      FirstOnMeets(ys, xs[0]);
      var front := CarryToFront(ys, k);
      var rest := SameOrderCommutes(xs[1..], Without(ys, k));
      CommutesAfter(xs[0], Without(ys, k), xs[1..], rest);
      var lifted := seq(|rest|, i requires 0 <= i < |rest| => rest[i] + 1);
      CommutesTransitive(ys, [xs[0]] + Without(ys, k), xs, front, lifted);
      path := front + lifted;
    }
  }

  /** Two circuits are equal up to commuting wire-disjoint neighbours exactly when every wire
      sees the same operations in the same order. */
  lemma TraceIsWireOrder(xs: seq<Op>, ys: seq<Op>)
    requires Wired(xs) && Wired(ys)
    ensures TraceEquivalent(xs, ys) <==> SameOrder(xs, ys)
  {
    if TraceEquivalent(xs, ys) {
      var path :| Commutes(xs, ys, path);
      CommutesKeepsOrder(xs, ys, path);
    }
    if SameOrder(xs, ys) {
      var path := SameOrderCommutes(ys, xs);
    }
  }
}
