/** The two-qubit metrics: `D2`, the depth counted in native two-qubit gates, and `N2`, their
    number. `D2` is computed with one level per wire; it is the largest number of counted
    gates on any chain of operations that share wires. */
module Depth {

  import opened Prelude
  import opened Circuits

  const NEVER_COUNTED: set<string> := {"barrier", "delay", "measure", "reset"}

  predicate Counted(o: Op, native: set<string>) {
    o.name in native && |o.qs| == 2
  }

  function Tick(o: Op, native: set<string>): nat {
    if Counted(o, native) then 1 else 0
  }

  /** The number of counted gates among the first `n` operations. */
  function N2(ops: seq<Op>, n: nat, native: set<string>): nat
    requires n <= |ops|
  {
    if n == 0 then 0 else N2(ops, n - 1, native) + Tick(ops[n - 1], native)
  }

  /** The level of a wire after the first `n` operations. */
  function Level(ops: seq<Op>, n: nat, native: set<string>, w: Wire): nat
    requires n <= |ops|
    decreases n, 0, 1
  {
    if n == 0 then 0
    else if ops[n - 1].On(w) then Highest(ops, n - 1, native, ops[n - 1].Wires()) + Tick(ops[n - 1], native)
    else Level(ops, n - 1, native, w)
  }

  function Highest(ops: seq<Op>, n: nat, native: set<string>, ws: seq<Wire>): (h: nat)
    requires n <= |ops|
    decreases n, |ws| + 1, 0
  {
    if ws == [] then 0 else Max(Level(ops, n, native, ws[0]), Highest(ops, n, native, ws[1..]))
  }

  function Max(a: nat, b: nat): nat {
    if a > b then a else b
  }

  // ----- Dependency chains

  /** Positions, in order, such that each operation shares a wire with the next one. */
  ghost predicate Chain(ops: seq<Op>, path: seq<nat>) {
    && (forall i | 0 <= i < |path| :: path[i] < |ops|)
    && forall i | 0 <= i < |path| - 1 :: path[i] < path[i + 1] && Shares(ops[path[i]], ops[path[i + 1]])
  }

  ghost function Weight(ops: seq<Op>, native: set<string>, path: seq<nat>): nat
    requires forall i | 0 <= i < |path| :: path[i] < |ops|
    decreases |path|
  {
    if path == [] then 0
    else Weight(ops, native, path[..|path| - 1]) + Tick(ops[path[|path| - 1]], native)
  }

  /** `d` is the largest number of counted gates on a chain. */
  ghost predicate LongestChain(ops: seq<Op>, native: set<string>, d: nat) {
    && (forall path | Chain(ops, path) :: Weight(ops, native, path) <= d)
    && exists path :: Chain(ops, path) && Weight(ops, native, path) == d
  }

  /** `d` is the highest level of any wire, or zero. */
  ghost predicate HighestLevel(ops: seq<Op>, native: set<string>, d: nat) {
    && (forall w :: Level(ops, |ops|, native, w) <= d)
    && (d > 0 ==> exists w :: Level(ops, |ops|, native, w) == d)
  }

  lemma {:induction false} HighestBound(ops: seq<Op>, n: nat, native: set<string>, ws: seq<Wire>, w: Wire)
    requires n <= |ops| && w in ws
    ensures Level(ops, n, native, w) <= Highest(ops, n, native, ws)
  {
    if ws[0] != w {
      HighestBound(ops, n, native, ws[1..], w);
    }
  }

  lemma {:induction false} HighestReached(ops: seq<Op>, n: nat, native: set<string>, ws: seq<Wire>) returns (w: Wire)
    requires n <= |ops| && ws != []
    ensures w in ws && Level(ops, n, native, w) == Highest(ops, n, native, ws)
  {
    w := ws[0];
    if ws[1..] != [] {
      var u := HighestReached(ops, n, native, ws[1..]);
      if Level(ops, n, native, u) > Level(ops, n, native, w) {
        w := u;
      }
    }
  }

  // ----- No chain beats the levels, and some chain reaches them

  lemma {:induction false} LevelsGrow(ops: seq<Op>, i: nat, j: nat, native: set<string>, w: Wire)
    requires i <= j <= |ops|
    ensures Level(ops, i, native, w) <= Level(ops, j, native, w)
    decreases j - i
  {
    if i < j {
      LevelsGrow(ops, i, j - 1, native, w);
      if ops[j - 1].On(w) {
        HighestBound(ops, j - 1, native, ops[j - 1].Wires(), w);
      }
    }
  }

  lemma SharesVia(a: Op, b: Op, w: Wire)
    requires a.On(w) && b.On(w)
    ensures Shares(a, b)
  {
  }

  /** A chain without its last position is a chain whose end meets that position. */
  lemma ChainInit(ops: seq<Op>, path: seq<nat>)
    requires Chain(ops, path) && |path| > 1
    ensures Chain(ops, path[..|path| - 1])
    ensures path[|path| - 2] < path[|path| - 1] && Shares(ops[path[|path| - 2]], ops[path[|path| - 1]])
  {
    assert path[|path| - 2] < path[|path| - 2 + 1];
  }

  lemma {:induction false} ChainBelowLevel(ops: seq<Op>, native: set<string>, path: seq<nat>, w: Wire)
    requires Chain(ops, path) && path != [] && ops[path[|path| - 1]].On(w)
    ensures Weight(ops, native, path) <= Level(ops, path[|path| - 1] + 1, native, w)
    decreases |path|
  {
    var last, before := path[|path| - 1], path[..|path| - 1];
    if before != [] {
      var prev := before[|before| - 1];
      ChainInit(ops, path);
      var u :| u in ops[prev].Wires() && ops[last].On(u);
      ChainBelowLevel(ops, native, before, u);
      LevelsGrow(ops, prev + 1, last, native, u);
      HighestBound(ops, last, native, ops[last].Wires(), u);
    }
  }

  lemma ChainBelowHighest(ops: seq<Op>, native: set<string>, path: seq<nat>, d: nat)
    requires Chain(ops, path) && HighestLevel(ops, native, d)
    ensures Weight(ops, native, path) <= d
  {
    if path != [] {
      var last := path[|path| - 1];
      if ops[last].Wires() == [] {
        NoWiresNoWeight(ops, native, path);
      } else {
        var w := ops[last].Wires()[0];
        ChainBelowLevel(ops, native, path, w);
        LevelsGrow(ops, last + 1, |ops|, native, w);
      }
    }
  }

  lemma SharesNothing(a: Op, b: Op)
    requires b.Wires() == []
    ensures !Shares(a, b)
  {
  }

  /** An operation without wires is alone on its chains and is not a two-qubit gate. */
  lemma NoWiresNoWeight(ops: seq<Op>, native: set<string>, path: seq<nat>)
    requires Chain(ops, path) && path != [] && ops[path[|path| - 1]].Wires() == []
    ensures Weight(ops, native, path) == 0
  {
    if |path| > 1 {
      SharesNothing(ops[path[|path| - 2]], ops[path[|path| - 2 + 1]]);
    } else {
      assert path[..|path| - 1] == [];
      assert |ops[path[0]].qs| == 0;
    }
  }

  /** A wire's level is the weight of a chain that ends on the wire. */
  lemma {:induction false} LevelHasChain(ops: seq<Op>, n: nat, native: set<string>, w: Wire) returns (path: seq<nat>)
    requires n <= |ops|
    ensures Chain(ops, path) && Weight(ops, native, path) == Level(ops, n, native, w)
    ensures path != [] ==> path[|path| - 1] < n && ops[path[|path| - 1]].On(w)
    decreases n
  {
    if n == 0 {
      path := [];
    } else if !ops[n - 1].On(w) {
      path := LevelHasChain(ops, n - 1, native, w);
    } else {
      var u := HighestReached(ops, n - 1, native, ops[n - 1].Wires());
      var prefix := LevelHasChain(ops, n - 1, native, u);
      path := ChainExtend(ops, native, prefix, n - 1, u);
    }
  }

  lemma ChainExtend(ops: seq<Op>, native: set<string>, prefix: seq<nat>, k: nat, u: Wire) returns (path: seq<nat>)
    requires Chain(ops, prefix) && k < |ops| && ops[k].On(u)
    requires prefix != [] ==> prefix[|prefix| - 1] < k && ops[prefix[|prefix| - 1]].On(u)
    ensures path != [] && path[|path| - 1] == k && Chain(ops, path)
    ensures Weight(ops, native, path) == Weight(ops, native, prefix) + Tick(ops[k], native)
  {
    path := prefix + [k];
    assert path[..|path| - 1] == prefix;
    if prefix != [] {
      SharesVia(ops[prefix[|prefix| - 1]], ops[k], u);
    }
  }

  /** The highest level of any wire is the weight of the heaviest dependency chain. */
  lemma HighestIsLongestChain(ops: seq<Op>, native: set<string>, d: nat)
    requires HighestLevel(ops, native, d)
    ensures LongestChain(ops, native, d)
  {
    forall path | Chain(ops, path) ensures Weight(ops, native, path) <= d {
      ChainBelowHighest(ops, native, path, d);
    }
    var path: seq<nat> := [];
    if d > 0 {
      var w :| Level(ops, |ops|, native, w) == d;
      path := LevelHasChain(ops, |ops|, native, w);
    }
    assert Chain(ops, path) && Weight(ops, native, path) == d;
  }

  lemma LongestChainUnique(ops: seq<Op>, native: set<string>, c: nat, d: nat)
    requires LongestChain(ops, native, c) && LongestChain(ops, native, d)
    ensures c == d
  {
    var p :| Chain(ops, p) && Weight(ops, native, p) == c;
    var q :| Chain(ops, q) && Weight(ops, native, q) == d;
  }

  // ----- Commuting operations that share no wire changes neither metric

  /** The two circuits have equal levels after `n` operations. */
  ghost predicate SameLevels(xs: seq<Op>, ys: seq<Op>, n: nat, native: set<string>)
    requires n <= |xs| && n <= |ys|
  {
    forall w :: Level(xs, n, native, w) == Level(ys, n, native, w)
  }

  lemma {:induction false} HighestEqual(xs: seq<Op>, i: nat, ys: seq<Op>, j: nat, native: set<string>, ws: seq<Wire>)
    requires i <= |xs| && j <= |ys| && forall w | w in ws :: Level(xs, i, native, w) == Level(ys, j, native, w)
    ensures Highest(xs, i, native, ws) == Highest(ys, j, native, ws)
  {
    if ws != [] {
      HighestEqual(xs, i, ys, j, native, ws[1..]);
    }
  }

  /** An operation reads levels that its wire-disjoint predecessor does not change. */
  lemma HighestApart(xs: seq<Op>, k: nat, native: set<string>)
    requires k + 1 < |xs| && !Shares(xs[k], xs[k + 1])
    ensures Highest(xs, k + 1, native, xs[k + 1].Wires()) == Highest(xs, k, native, xs[k + 1].Wires())
  {
    assert forall w | w in xs[k + 1].Wires() :: !xs[k].On(w) by {
      SharesSymmetric(xs[k], xs[k + 1]);
    }
    HighestEqual(xs, k + 1, xs, k, native, xs[k + 1].Wires());
  }

  lemma PairLevels(xs: seq<Op>, k: nat, native: set<string>)
    requires k + 1 < |xs| && !Shares(xs[k], xs[k + 1]) && SameLevels(xs, Exchange(xs, k), k, native)
    ensures SameLevels(xs, Exchange(xs, k), k + 2, native)
  {
    var ys := Exchange(xs, k);
    SharesSymmetric(xs[k], xs[k + 1]);
    HighestApart(xs, k, native);
    HighestApart(ys, k, native);
    HighestEqual(xs, k, ys, k, native, xs[k].Wires());
    HighestEqual(xs, k, ys, k, native, xs[k + 1].Wires());
    var n := k + 2;
    forall w ensures Level(xs, n, native, w) == Level(ys, n, native, w) {
      assert !(xs[k].On(w) && xs[k + 1].On(w));
      PairLevel(xs, k, native, w);
      PairLevel(ys, k, native, w);
    }
  }

  lemma PairLevel(xs: seq<Op>, k: nat, native: set<string>, w: Wire)
    requires k + 1 < |xs|
    ensures Level(xs, k + 2, native, w)
            == if xs[k + 1].On(w) then Highest(xs, k + 1, native, xs[k + 1].Wires()) + Tick(xs[k + 1], native)
               else if xs[k].On(w) then Highest(xs, k, native, xs[k].Wires()) + Tick(xs[k], native)
               else Level(xs, k, native, w)
  {
  }

  lemma NextLevels(xs: seq<Op>, ys: seq<Op>, n: nat, native: set<string>)
    requires n < |xs| && n < |ys| && xs[n] == ys[n] && SameLevels(xs, ys, n, native)
    ensures SameLevels(xs, ys, n + 1, native)
  {
    HighestEqual(xs, n, ys, n, native, xs[n].Wires());
    var m := n + 1;
    forall w ensures Level(xs, m, native, w) == Level(ys, m, native, w) {
      assert Level(xs, n, native, w) == Level(ys, n, native, w);
    }
  }

  lemma {:induction false} ExchangeKeepsLevels(xs: seq<Op>, k: nat, n: nat, native: set<string>)
    requires k + 1 < |xs| && !Shares(xs[k], xs[k + 1]) && n <= |xs| && n != k + 1
    ensures SameLevels(xs, Exchange(xs, k), n, native)
    decreases n
  {
    if n == k + 2 {
      ExchangeKeepsLevels(xs, k, k, native);
      PairLevels(xs, k, native);
    } else if n > 0 {
      ExchangeKeepsLevels(xs, k, n - 1, native);
      NextLevels(xs, Exchange(xs, k), n - 1, native);
    }
  }

  lemma {:induction false} ExchangeKeepsCount(xs: seq<Op>, k: nat, n: nat, native: set<string>)
    requires k + 1 < |xs| && n <= |xs|
    ensures N2(Exchange(xs, k), n, native) == N2(xs, n, native) + if n == k + 1 then Tick(xs[k + 1], native) - Tick(xs[k], native) else 0
    decreases n
  {
    if n > 0 {
      ExchangeKeepsCount(xs, k, n - 1, native);
    }
  }

  lemma {:induction false} CommutingKeepsMetrics(xs: seq<Op>, ys: seq<Op>, path: seq<nat>, native: set<string>)
    requires Commutes(xs, ys, path)
    ensures |xs| == |ys| && SameLevels(xs, ys, |xs|, native) && N2(xs, |xs|, native) == N2(ys, |ys|, native)
    decreases |path|
  {
    if path != [] {
      var zs := Exchange(xs, path[0]);
      ExchangeKeepsLevels(xs, path[0], |xs|, native);
      ExchangeKeepsCount(xs, path[0], |xs|, native);
      CommutingKeepsMetrics(zs, ys, path[1..], native);
    }
  }

  lemma {:induction false} HighestLevelExists(ops: seq<Op>, native: set<string>, n: nat) returns (d: nat)
    requires n <= |ops|
    ensures (forall w :: Level(ops, n, native, w) <= d) && (d > 0 ==> exists w :: Level(ops, n, native, w) == d)
    decreases n
  {
    if n == 0 {
      d := 0;
    } else {
      var o := ops[n - 1];
      d := HighestLevelExists(ops, native, n - 1);
      forall w ensures Level(ops, n - 1, native, w) <= Level(ops, n, native, w) {
        LevelsGrow(ops, n - 1, n, native, w);
      }
      var h := Highest(ops, n - 1, native, o.Wires()) + Tick(o, native);
      if o.Wires() != [] && h > d {
        d := h;
        assert Level(ops, n, native, o.Wires()[0]) == d;
      } else if d > 0 {
        var w :| Level(ops, n - 1, native, w) == d;
        assert Level(ops, n, native, w) == d;
      }
    }
  }

  /** Circuits that differ by commuting wire-disjoint operations have the same `D2` and `N2`. */
  lemma TraceKeepsMetrics(xs: seq<Op>, ys: seq<Op>, native: set<string>, d: nat)
    requires TraceEquivalent(xs, ys)
    ensures LongestChain(xs, native, d) <==> LongestChain(ys, native, d)
    ensures N2(xs, |xs|, native) == N2(ys, |ys|, native)
  {
    var path :| Commutes(xs, ys, path);
    CommutingKeepsMetrics(xs, ys, path, native);
    var top := HighestLevelExists(xs, native, |xs|);
    HighestIsLongestChain(xs, native, top);
    HighestIsLongestChain(ys, native, top);
    if LongestChain(xs, native, d) {
      LongestChainUnique(xs, native, d, top);
    }
    if LongestChain(ys, native, d) {
      LongestChainUnique(ys, native, d, top);
    }
  }

  // ----- The streaming computation

  type Levels = map<Wire, nat>

  function Get(levels: Levels, w: Wire): nat {
    if w in levels then levels[w] else 0
  }

  /** The levels in the map are those after the first `n` operations. */
  ghost predicate Tracks(levels: Levels, ops: seq<Op>, n: nat, native: set<string>)
    requires n <= |ops|
  {
    forall w :: Get(levels, w) == Level(ops, n, native, w)
  }

  lemma TrackedHighest(levels: Levels, ops: seq<Op>, native: set<string>, d: nat)
    requires Tracks(levels, ops, |ops|, native)
    requires (forall w | w in levels :: levels[w] <= d) && (d > 0 ==> exists w | w in levels :: levels[w] == d)
    ensures HighestLevel(ops, native, d)
  {
    if d > 0 {
      var w :| w in levels && levels[w] == d;
      assert Get(levels, w) == Level(ops, |ops|, native, w);
    }
    forall w ensures Level(ops, |ops|, native, w) <= d {
      assert Get(levels, w) == Level(ops, |ops|, native, w);
    }
  }

  method MaxOf(levels: Levels, ws: seq<Wire>, ghost ops: seq<Op>, ghost n: nat, ghost native: set<string>) returns (h: nat)
    requires n <= |ops| && Tracks(levels, ops, n, native)
    ensures h == Highest(ops, n, native, ws)
  {
    h := 0;
    for j := |ws| downto 0
      invariant h == Highest(ops, n, native, ws[j..])
    {
      assert ws[j..][1..] == ws[j + 1..];
      h := Max(Get(levels, ws[j]), h);
    }
  }

  method AssignLevels(levels: Levels, ws: seq<Wire>, v: nat) returns (after: Levels)
    ensures forall w :: Get(after, w) == if w in ws then v else Get(levels, w)
  {
    after := levels;
    for j := 0 to |ws|
      invariant forall w :: Get(after, w) == if w in ws[..j] then v else Get(levels, w)
    {
      assert ws[..j + 1] == ws[..j] + [ws[j]];
      after := after[ws[j] := v];
    }
    assert ws[..|ws|] == ws;
  }

  method MaxValue(levels: Levels) returns (d: nat)
    ensures forall w | w in levels :: levels[w] <= d
    ensures d > 0 ==> exists w | w in levels :: levels[w] == d
  {
    d := 0;
    var left := levels.Keys;
    while left != {}
      invariant left <= levels.Keys
      invariant forall w | w in levels.Keys - left :: levels[w] <= d
      invariant d > 0 ==> exists w | w in levels :: levels[w] == d
    {
      var w :| w in left;
      if levels[w] > d { d := levels[w]; }
      left := left - {w};
    }
  }

  /** One operation: its wires all get the highest of their levels, plus one if it is counted. */
  method Raise(levels: Levels, o: Op, tick: nat, ghost ops: seq<Op>, ghost n: nat, ghost native: set<string>) returns (after: Levels)
    requires n < |ops| && ops[n] == o && tick == Tick(o, native) && Tracks(levels, ops, n, native)
    ensures Tracks(after, ops, n + 1, native)
  {
    var h := MaxOf(levels, o.Wires(), ops, n, native);
    after := AssignLevels(levels, o.Wires(), h + tick);
    ghost var m := n + 1;
    forall w ensures Get(after, w) == Level(ops, m, native, w) {
      assert Get(levels, w) == Level(ops, n, native, w);
    }
  }

  /** `D2` and `N2` of a static circuit; `None` when it has control flow. */
  method D2N2(ops: seq<Op>, native2q: set<string>) returns (metrics: Option<(nat, nat)>)
    ensures metrics.None? <==> exists o | o in ops :: o.name in CONTROL_FLOW
    ensures metrics.Some? ==>
              var native := native2q - NEVER_COUNTED;
              LongestChain(ops, native, metrics.value.0) && metrics.value.1 == N2(ops, |ops|, native)
  {
    ghost var native := native2q - NEVER_COUNTED;
    var levels: Levels, count := map[], 0;
    for i := 0 to |ops|
      invariant forall k | 0 <= k < i :: ops[k].name !in CONTROL_FLOW
      invariant Tracks(levels, ops, i, native) && count == N2(ops, i, native)
    {
      var o := ops[i];
      if o.name in CONTROL_FLOW { return None; }
      var tick := if o.name in native2q && |o.qs| == 2 && o.name !in NEVER_COUNTED then 1 else 0;
      levels := Raise(levels, o, tick, ops, i, native);
      count := count + tick;
    }
    var d := MaxValue(levels);
    TrackedHighest(levels, ops, native, d);
    HighestIsLongestChain(ops, native, d);
    metrics := Some((d, count));
  }
}
