/** The replay decides greedily which swaps are routing swaps: a plain swap that can be taken as
    the next logical operation is. It is run here beside any other reading of the same circuit;
    that it never decides wrongly, also for logical circuits that contain swap gates, is the
    content of `Greedy`. */
module ReplayGreedy {

  import opened Prelude
  import opened Circuits
  import opened Permutations
  import opened Replay
  import opened ReplayReadings

  // ----- Completeness: taking several pending operations in turn

  function TakeAll(xs: seq<Op>, es: seq<Op>): Option<seq<Op>>
    decreases |es|
  {
    if es == [] then Some(xs)
    else match Match(xs, es[0])
      case None => None
      case Some(rest) => TakeAll(rest, es[1..])
  }

  lemma {:induction false} TakeAllSnoc(xs: seq<Op>, es: seq<Op>, e: Op)
    requires TakeAll(xs, es).Some? && Match(TakeAll(xs, es).value, e).Some?
    ensures TakeAll(xs, es + [e]) == Match(TakeAll(xs, es).value, e)
    decreases |es|
  {
    if es == [] {
      assert es + [e] == [e];
      assert TakeAll(Match(xs, e).value, [e][1..]) == Match(xs, e);
    } else {
      assert (es + [e])[1..] == es[1..] + [e];
      TakeAllSnoc(Match(xs, es[0]).value, es[1..], e);
    }
  }

  lemma TakeAllCons(xs: seq<Op>, e: Op, es: seq<Op>)
    requires Match(xs, e).Some?
    ensures TakeAll(xs, [e] + es) == TakeAll(Match(xs, e).value, es)
  {
    assert ([e] + es)[1..] == es;
  }

  /** Two next operations that share a wire are the same operation. */
  lemma {:induction false} NextUnique(xs: seq<Op>, a: Op, b: Op)
    ensures Match(xs, a).Some? && Match(xs, b).Some? && Shares(a, b) ==> a == b
  {
    if Match(xs, a).Some? && Match(xs, b).Some? && Shares(a, b) {
      if !Shares(xs[0], a) && !Shares(xs[0], b) {
        NextUnique(xs[1..], a, b);
      } else {
        SharesSymmetric(a, b);
      }
    }
  }

  /** Two next operations that share no wire can be taken in either order. */
  lemma {:induction false} Diamond(xs: seq<Op>, a: Op, b: Op)
    requires Match(xs, a).Some? && Match(xs, b).Some? && !Shares(a, b)
    ensures Match(Match(xs, a).value, b).Some? && Match(Match(xs, a).value, b) == Match(Match(xs, b).value, a)
  {
    var x, rest := xs[0], xs[1..];
    assert xs == [x] + rest;
    SharesSymmetric(a, b);
    MatchCons(x, rest, a);
    MatchCons(x, rest, b);
    if Shares(x, a) {
      MatchCons(x, Match(rest, b).value, a);
    } else if Shares(x, b) {
      MatchCons(x, Match(rest, a).value, b);
    } else {
      Diamond(rest, a, b);
      MatchCons(x, Match(rest, a).value, b);
      MatchCons(x, Match(rest, b).value, a);
    }
  }

  /** When `o` is next and no operation of `es` meets it, `o` and `es` can be taken in either order. */
  lemma {:induction false} TakeUnmet(xs: seq<Op>, es: seq<Op>, o: Op)
    requires Match(xs, o).Some? && TakeAll(xs, es).Some? && forall e | e in es :: !Shares(e, o)
    ensures Match(TakeAll(xs, es).value, o).Some?
    ensures TakeAll(Match(xs, o).value, es) == Match(TakeAll(xs, es).value, o)
    decreases |es|
  {
    if es != [] {
      assert !Shares(es[0], o);
      SharesSymmetric(es[0], o);
      Diamond(xs, es[0], o);
      TakeUnmet(Match(xs, es[0]).value, es[1..], o);
    }
  }

  lemma TakeAfter(xs: seq<Op>, x: Op, o: Op, es: seq<Op>)
    requires Match(xs, x).Some? && Match(xs, o).Some? && !Shares(x, o)
    ensures Match(Match(xs, x).value, o).Some?
    ensures TakeAll(Match(xs, o).value, [x] + es) == TakeAll(Match(Match(xs, x).value, o).value, es)
  {
    SharesSymmetric(x, o);
    Diamond(xs, x, o);
    TakeAllCons(Match(xs, o).value, x, es);
  }

  /** When `o` is next and some operation to take meets it, the first such one is `o` itself,
      and taking `o` first leaves the others to take. */
  lemma {:induction false} TakeMet(xs: seq<Op>, es: seq<Op>, o: Op)
    requires Match(xs, o).Some? && TakeAll(xs, es).Some? && exists e | e in es :: Shares(e, o)
    ensures Match(es, o).Some? && TakeAll(Match(xs, o).value, Match(es, o).value) == TakeAll(xs, es)
    decreases |es|
  {
    var x, rest := es[0], es[1..];
    if Shares(x, o) {
      NextUnique(xs, x, o);
    } else {
      TakeMet(Match(xs, x).value, rest, o) by {
        SharesSymmetric(x, o);
        Diamond(xs, x, o);
      }
      TakeAfter(xs, x, o, Match(rest, o).value);
    }
  }

  // ----- Completeness: the wire permutation of a list of swaps

  function Turn(e: Op, v: int): int
    requires PlainSwap(e)
  {
    if v == e.qs[0] then e.qs[1] else if v == e.qs[1] then e.qs[0] else v
  }

  predicate Swaps(es: seq<Op>) {
    forall e | e in es :: PlainSwap(e)
  }

  function TurnAll(es: seq<Op>, v: int): int
    requires Swaps(es)
    decreases |es|
  {
    if es == [] then v else TurnAll(es[1..], Turn(es[0], v))
  }

  lemma {:induction false} TurnAppend(es: seq<Op>, fs: seq<Op>, v: int)
    requires Swaps(es) && Swaps(fs)
    ensures Swaps(es + fs) && TurnAll(es + fs, v) == TurnAll(fs, TurnAll(es, v))
    decreases |es|
  {
    if es == [] {
      assert es + fs == fs;
    } else {
      assert (es + fs)[1..] == es[1..] + fs;
      TurnAppend(es[1..], fs, Turn(es[0], v));
    }
  }

  lemma OnQubit(o: Op, v: int)
    ensures v in o.qs ==> o.On(Qubit(v))
    ensures PlainSwap(o) && o.On(Qubit(v)) ==> v in o.qs
  {
    if v in o.qs {
      var i :| 0 <= i < |o.qs| && o.qs[i] == v;
      assert o.Wires()[i] == Qubit(v);
    }
  }

  /** A swap that shares no wire with `o` moves nothing onto or off the qubits of `o`. */
  lemma TurnStays(e: Op, o: Op, v: int)
    requires PlainSwap(e) && !Shares(e, o)
    ensures v in o.qs ==> Turn(e, v) == v
    ensures v !in o.qs ==> Turn(e, v) !in o.qs
  {
    forall u | u in e.qs ensures u !in o.qs {
      OnQubit(e, u);
      OnQubit(o, u);
    }
  }

  /** Swaps that touch neither wire of `o` do not move them. */
  lemma {:induction false} TurnFixes(es: seq<Op>, o: Op, v: int)
    requires Swaps(es) && v in o.qs && (forall e | e in es :: !Shares(e, o))
    ensures TurnAll(es, v) == v
    decreases |es|
  {
    if es != [] {
      TurnStays(es[0], o, v);
      TurnFixes(es[1..], o, v);
    }
  }

  lemma {:induction false} TurnCommutes(es: seq<Op>, o: Op, v: int)
    requires Swaps(es) && PlainSwap(o) && forall e | e in es :: !Shares(e, o)
    ensures TurnAll(es, Turn(o, v)) == Turn(o, TurnAll(es, v))
    decreases |es|
  {
    if v in o.qs {
      TurnFixes(es, o, v);
      TurnFixes(es, o, Turn(o, v));
    } else if es != [] {
      TurnStays(es[0], o, v);
      TurnCommutes(es[1..], o, Turn(es[0], v));
    }
  }

  /** Taking the `k`-th swap out, when it meets none before it, undoes its turn. */
  lemma TurnWithout(es: seq<Op>, k: nat, v: int)
    requires Swaps(es) && k < |es| && forall j | 0 <= j < k :: !Shares(es[j], es[k])
    ensures Swaps(Without(es, k)) && TurnAll(Without(es, k), v) == TurnAll(es, Turn(es[k], v))
  {
    var o, before, after := es[k], es[..k], es[k + 1..];
    assert es == before + ([o] + after);
    TurnAppend(before, [o] + after, Turn(o, v));
    TurnAppend([o], after, TurnAll(before, Turn(o, v)));
    TurnAppend(before, after, v);
    TurnCommutes(before, o, v);
    assert TurnAll([o], TurnAll(before, Turn(o, v))) == Turn(o, Turn(o, TurnAll(before, v)));
  }

  // ----- Completeness: the greedy walk keeps up with every reading

  /** The greedy walk beside a reading: what each has pending, and each one's wire map. */
  datatype Race = Race(ahead: seq<Op>, greedy: seq<Op>, gmap: seq<int>, pending: seq<Op>, p2v: seq<int>)

  /** The walk has taken the swaps `ahead` as logical operations that the reading still has
      pending, and its wire map differs from the reading's by their turns. */
  ghost predicate Ahead(s: Race, n: nat) {
    && Swaps(s.ahead)
    && TakeAll(s.pending, s.ahead) == Some(s.greedy)
    && Bijective(s.gmap, n) && Bijective(s.p2v, n)
    && Turned(s.ahead, s.p2v, s.gmap)
  }

  ghost predicate Turned(es: seq<Op>, p2v: seq<int>, gmap: seq<int>)
    requires Swaps(es)
  {
    |gmap| == |p2v| && forall q | 0 <= q < |p2v| :: gmap[q] == TurnAll(es, p2v[q])
  }

  /** A physical swap exchanges two entries of the wire map: the turn of its virtual swap. */
  lemma SwappedTurns(p2v: seq<int>, r: Op, n: nat, q: int)
    requires Bijective(p2v, n) && PlainSwap(r) && Placed(r, n) && 0 <= q < n
    ensures Swapped(p2v, r.qs[0], r.qs[1])[q] == Turn(Relabel(r, p2v), p2v[q])
    ensures Turn(Relabel(r, p2v), Swapped(p2v, r.qs[0], r.qs[1])[q]) == p2v[q]
  {
  }

  /** Taking a swap as a logical one, where the other side swaps the wire map. */
  lemma TurnedSnoc(es: seq<Op>, p2v: seq<int>, gmap: seq<int>, r: Op, n: nat)
    requires Swaps(es) && Bijective(gmap, n) && PlainSwap(r) && Placed(r, n)
    requires Turned(es, p2v, Swapped(gmap, r.qs[0], r.qs[1]))
    ensures Swaps(es + [Relabel(r, gmap)]) && Turned(es + [Relabel(r, gmap)], p2v, gmap)
  {
    var g, swapped := Relabel(r, gmap), Swapped(gmap, r.qs[0], r.qs[1]);
    forall q | 0 <= q < n ensures gmap[q] == TurnAll(es + [g], p2v[q]) {
      TurnAppend(es, [g], p2v[q]);
      SwappedTurns(gmap, r, n, q);
      assert TurnAll([g], swapped[q]) == Turn(g, swapped[q]);
    }
  }

  /** Dropping a swap that meets none before it, where the other side swaps the wire map. */
  lemma TurnedWithout(es: seq<Op>, p2v: seq<int>, gmap: seq<int>, r: Op, n: nat, k: nat)
    requires Swaps(es) && Bijective(gmap, n) && Bijective(p2v, n) && Turned(es, p2v, gmap) && PlainSwap(r) && Placed(r, n)
    requires k < |es| && es[k] == Relabel(r, p2v) && forall j | 0 <= j < k :: !Shares(es[j], es[k])
    ensures Swaps(Without(es, k)) && Turned(Without(es, k), p2v, Swapped(gmap, r.qs[0], r.qs[1]))
  {
    var swapped := Swapped(gmap, r.qs[0], r.qs[1]);
    forall q | 0 <= q < n ensures swapped[q] == TurnAll(Without(es, k), p2v[q]) {
      TurnWithout(es, k, p2v[q]);
      SwappedTurns(p2v, r, n, q);
      var other := if q == r.qs[0] then r.qs[1] else if q == r.qs[1] then r.qs[0] else q;
      assert swapped[q] == gmap[other] && p2v[other] == Turn(es[k], p2v[q]);
    }
  }

  /** The walk's step on a plain swap, when the reading's side of the race is already moved. */
  lemma SwapStep(ops: seq<Op>, s: Race, n: nat, r: Op) returns (s': Race)
    requires PlainSwap(r) && Placed(r, n) && Bijective(s.gmap, n)
    requires Ahead(s.(gmap := Swapped(s.gmap, r.qs[0], r.qs[1])), n)
    ensures Ahead(s', n) && s'.pending == s.pending && s'.p2v == s.p2v && Stepped(ops, s, s', r)
  {
    var g := Relabel(r, s.gmap);
    RelabelWires(r, s.gmap);
    assert r.Wires() != [] by { assert |r.Wires()| == 2; }
    if Match(s.greedy, g).Some? {
      TurnedSnoc(s.ahead, s.p2v, s.gmap, r, n);
      TakeAllSnoc(s.pending, s.ahead, g);
      s' := s.(ahead := s.ahead + [g], greedy := Match(s.greedy, g).value);
    } else {
      s' := s.(gmap := Swapped(s.gmap, r.qs[0], r.qs[1]));
    }
  }

  /** The greedy side of the race made the step that `Next` makes. */
  ghost predicate Stepped(ops: seq<Op>, s: Race, s': Race, r: Op) {
    match Next(ops, s.greedy, s.gmap, r)
    case Consume(rest) => s'.greedy == rest && s'.gmap == s.gmap
    case Route => s'.greedy == s.greedy && s'.gmap == Swapped(s.gmap, r.qs[0], r.qs[1])
    case _ => false
  }

  /** The reading sees a routing swap. */
  lemma RaceRouting(ops: seq<Op>, s: Race, n: nat, r: Op) returns (s': Race)
    requires Ahead(s, n) && PlainSwap(r) && Placed(r, n)
    ensures Ahead(s', n) && Stepped(ops, s, s', r)
    ensures s'.pending == s.pending && s'.p2v == Swapped(s.p2v, r.qs[0], r.qs[1])
  {
    var a, b := r.qs[0], r.qs[1];
    SwappedBijective(s.gmap, a, b, n);
    SwappedBijective(s.p2v, a, b, n);
    s' := SwapStep(ops, s.(p2v := Swapped(s.p2v, a, b)), n, r);
  }

  /** The reading takes a logical operation that meets no swap the walk is ahead by: both take it. */
  lemma RaceBoth(ops: seq<Op>, s: Race, n: nat, r: Op) returns (s': Race)
    requires Ahead(s, n) && Placed(r, n) && r.Wires() != [] && r.name != "barrier" && r.name !in CONTROL_FLOW
    requires Match(s.pending, Relabel(r, s.p2v)).Some? && forall e | e in s.ahead :: !Shares(e, Relabel(r, s.p2v))
    ensures Ahead(s', n) && Stepped(ops, s, s', r)
    ensures s'.pending == Match(s.pending, Relabel(r, s.p2v)).value && s'.p2v == s.p2v
  {
    var o := Relabel(r, s.p2v);
    TakeUnmet(s.pending, s.ahead, o);
    SameLabels(s, n, r);
    RelabelWires(r, s.gmap);
    s' := s.(greedy := Match(s.greedy, o).value, pending := Match(s.pending, o).value);
  }

  /** The reading takes a swap that the walk took before. */
  lemma RacePayback(ops: seq<Op>, s: Race, n: nat, r: Op) returns (s': Race)
    requires Ahead(s, n) && Placed(r, n)
    requires Match(s.pending, Relabel(r, s.p2v)).Some? && exists e | e in s.ahead :: Shares(e, Relabel(r, s.p2v))
    ensures Ahead(s', n) && Stepped(ops, s, s', r)
    ensures s'.pending == Match(s.pending, Relabel(r, s.p2v)).value && s'.p2v == s.p2v
  {
    var o := Relabel(r, s.p2v);
    var k := FirstOn(s.ahead, o);
    TakeMet(s.pending, s.ahead, o);
    MatchAt(s.ahead, o);
    FirstOnMeets(s.ahead, o);
    assert s.ahead[k] in s.ahead;
    TurnedWithout(s.ahead, s.p2v, s.gmap, r, n, k);
    SwappedBijective(s.gmap, r.qs[0], r.qs[1], n);
    s' := SwapStep(ops, s.(ahead := Without(s.ahead, k), pending := Match(s.pending, o).value), n, r);
  }

  lemma SameLabels(s: Race, n: nat, r: Op)
    requires Ahead(s, n) && Placed(r, n) && forall e | e in s.ahead :: !Shares(e, Relabel(r, s.p2v))
    ensures Relabel(r, s.gmap) == Relabel(r, s.p2v)
  {
    var o := Relabel(r, s.p2v);
    forall i | 0 <= i < |r.qs| ensures Relabel(r, s.gmap).qs[i] == o.qs[i] {
      TurnFixes(s.ahead, o, o.qs[i]);
    }
    assert Relabel(r, s.gmap).qs == o.qs;
  }

  /** Whatever the reading, the walk ends with nothing pending at the reading's wire map. */
  lemma {:induction false} Greedy(ops: seq<Op>, s: Race, n: nat, routed: seq<Op>, routing: seq<bool>, swaps: nat)
    requires Ahead(s, n) && Wired(s.pending)
    requires Undo(routed, s.p2v, routing).Some? && SameOrder(Undo(routed, s.p2v, routing).value.executed, s.pending)
    ensures var end := Walk(ops, s.greedy, s.gmap, routed, swaps);
            end.Done? && end.pending == [] && end.p2v == Undo(routed, s.p2v, routing).value.p2v
    decreases |routed|
  {
    if routed == [] {
      Level(s, n);
    } else {
      var r := routed[0];
      if r.name == "barrier" {
        Greedy(ops, s, n, routed[1..], routing[1..], swaps);
      } else if routing[0] {
        var s' := RaceRouting(ops, s, n, r);
        Greedy(ops, s', n, routed[1..], routing[1..], if Next(ops, s.greedy, s.gmap, r).Route? then swaps + 1 else swaps);
      } else {
        RelabelWires(r, s.p2v);
        MatchHead(Relabel(r, s.p2v), Undo(routed[1..], s.p2v, routing[1..]).value.executed, s.pending);
        MatchWired(s.pending, Relabel(r, s.p2v));
        var s';
        if e :| e in s.ahead && Shares(e, Relabel(r, s.p2v)) {
          s' := RacePayback(ops, s, n, r);
        } else {
          s' := RaceBoth(ops, s, n, r);
        }
        Greedy(ops, s', n, routed[1..], routing[1..], if Next(ops, s.greedy, s.gmap, r).Route? then swaps + 1 else swaps);
      }
    }
  }

  /** At the end the reading has nothing pending, so the walk is not ahead. */
  lemma Level(s: Race, n: nat)
    requires Ahead(s, n) && Wired(s.pending) && SameOrder([], s.pending)
    ensures s.greedy == [] && s.gmap == s.p2v
  {
    NothingPending(s.pending);
    assert s.ahead != [] ==> Match(s.pending, s.ahead[0]).None?;
  }

  lemma NothingPending(pending: seq<Op>)
    requires SameOrder([], pending) && Wired(pending)
    ensures pending == []
  {
    if pending != [] {
      var w := pending[0].Wires()[0];
      assert OnWire([], w) == OnWire(pending, w);
      assert pending[0].On(w);
      assert false;
    }
  }
}
