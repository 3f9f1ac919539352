/** The baseline builds of the shared store: one key, any number of sessions, any interleaving
    of their steps, and any of them stopping anywhere (killed, or the build raising an error).
    Every key has its own directory and lock, so keys do not interact. */
module StoreBuilds {

  import opened Prelude

  /** Where a session is in `baseline_build`. It holds the key's lock in `Holding` to `Marked`. */
  datatype Pc = Idle | Missed | Holding | Clearing | Building | Marked | Returned(reused: bool)

  /** The directory (`present`, how many of the `size` files of a build are written, `READY`),
      the lock, and the history: how many builds were started and how many of those were stopped
      before `READY`. */
  datatype World = World(
    size: nat, present: bool, files: nat, ready: bool, holder: Option<nat>, pcs: seq<Pc>, started: nat, interrupted: nat)

  datatype Event =
    | Look(s: nat)
    | Acquire(s: nat)
    | Relook(s: nat)
    | Remove(s: nat)
    | Removed(s: nat)
    | Write(s: nat)
    | MarkReady(s: nat)
    | Release(s: nat)
    | Stop(s: nat)

  function At(w: World, s: nat, pc: Pc): World
    requires s < |w.pcs|
  {
    w.(pcs := w.pcs[s := pc])
  }

  function Free(w: World, s: nat): Option<nat> {
    if w.holder == Some(s) then None else w.holder
  }

  /** One step; `None` when the event cannot happen. */
  function Step(w: World, ev: Event): Option<World> {
    var s := ev.s;
    if s >= |w.pcs| then None
    else
      match ev
      case Look(_) =>
        if w.pcs[s] != Idle then None
        else Some(At(w, s, if w.ready then Returned(true) else Missed))
      case Acquire(_) =>
        if w.pcs[s] != Missed || w.holder.Some? then None
        else Some(At(w, s, Holding).(holder := Some(s)))
      case Relook(_) =>
        if w.pcs[s] != Holding then None
        else if w.ready then Some(At(w, s, Returned(true)).(holder := None))
        else if w.present then Some(At(w, s, Clearing))
        else Some(At(w, s, Building).(started := w.started + 1))
      case Remove(_) =>
        if w.pcs[s] != Clearing || w.files == 0 then None
        else Some(w.(files := w.files - 1))
      case Removed(_) =>
        if w.pcs[s] != Clearing || w.files != 0 then None
        else Some(At(w, s, Building).(present := false, started := w.started + 1))
      case Write(_) =>
        if w.pcs[s] != Building || w.files == w.size then None
        else Some(w.(present := true, files := w.files + 1))
      case MarkReady(_) =>
        if w.pcs[s] != Building || w.files != w.size then None
        else Some(At(w, s, Marked).(ready := true))
      case Release(_) =>
        if w.pcs[s] != Marked then None
        else Some(At(w, s, Returned(false)).(holder := None))
      case Stop(_) =>
        Some(At(w, s, Idle).(
          holder := Free(w, s), interrupted := w.interrupted + (if w.pcs[s].Building? then 1 else 0)))
  }

  ghost predicate Start(w: World) {
    && !w.present && w.files == 0 && !w.ready && w.holder == None && w.started == 0 && w.interrupted == 0
    && forall s :: 0 <= s < |w.pcs| ==> w.pcs[s] == Idle
  }

  predicate Holds(pc: Pc) {
    pc in {Holding, Clearing, Building, Marked}
  }

  predicate Active(w: World) {
    w.holder.Some? && w.holder.value < |w.pcs| && w.pcs[w.holder.value] == Building
  }

  ghost predicate Inv(w: World) {
    && (w.ready ==> w.files == w.size && (w.size > 0 ==> w.present))
    && (w.files > 0 ==> w.present)
    && w.files <= w.size
    && w.started == w.interrupted + (if w.ready || Active(w) then 1 else 0)
    && forall s :: 0 <= s < |w.pcs| ==> SessionInv(w, s, w.pcs[s])
  }

  predicate SessionInv(w: World, s: nat, pc: Pc) {
    && (Holds(pc) <==> w.holder == Some(s))
    && (pc in {Clearing, Building} ==> !w.ready)
    && (pc.Marked? || pc.Returned? ==> w.ready)
  }

  lemma StepKeepsInv(w: World, ev: Event)
    requires Inv(w) && Step(w, ev).Some?
    ensures Inv(Step(w, ev).value)
  {
    var w' := Step(w, ev).value;
    assert SessionInv(w, ev.s, w.pcs[ev.s]);
    assert w.holder.Some? && w.holder.value < |w.pcs| ==> SessionInv(w, w.holder.value, w.pcs[w.holder.value]);
    forall s | 0 <= s < |w'.pcs|
      ensures SessionInv(w', s, w'.pcs[s])
    {
      assert SessionInv(w, s, w.pcs[s]);
    }
  }

  /** A ready build is never touched again, and is never built a second time. */
  lemma ReadyStays(w: World, ev: Event)
    requires Inv(w) && Step(w, ev).Some? && w.ready
    ensures var w' := Step(w, ev).value;
            w'.ready && w'.present == w.present && w'.files == w.files == w.size && w'.started == w.started
  {
    assert SessionInv(w, ev.s, w.pcs[ev.s]);
  }

  ghost predicate Run(ws: seq<World>, evs: seq<Event>) {
    && |ws| == |evs| + 1 && Start(ws[0])
    && forall k :: 0 <= k < |evs| ==> Step(ws[k], evs[k]) == Some(ws[k + 1])
  }

  /** Over every run: a ready build is complete and stays so; whoever was given the build has a
      ready one; and a build is started again only after as many were stopped before `READY`. */
  lemma {:induction false} BuiltAtMostOnce(ws: seq<World>, evs: seq<Event>, i: nat, j: nat)
    requires Run(ws, evs) && i <= j < |ws|
    ensures Inv(ws[j])
    ensures ws[j].started <= ws[j].interrupted + 1
    ensures ws[j].ready ==> ws[j].files == ws[j].size && ws[j].started == ws[j].interrupted + 1
    ensures ws[i].ready ==> ws[j].ready && ws[j].started == ws[i].started
    ensures forall s :: 0 <= s < |ws[j].pcs| && ws[j].pcs[s].Returned? ==> ws[j].ready
    decreases j
  {
    if j > 0 {
      BuiltAtMostOnce(ws, evs, if i < j then i else j - 1, j - 1);
      assert Step(ws[j - 1], evs[j - 1]) == Some(ws[j - 1 + 1]);
      StepKeepsInv(ws[j - 1], evs[j - 1]);
      if ws[j - 1].ready { ReadyStays(ws[j - 1], evs[j - 1]); }
    }
    forall s | 0 <= s < |ws[j].pcs| && ws[j].pcs[s].Returned?
      ensures ws[j].ready
    {
      assert SessionInv(ws[j], s, ws[j].pcs[s]);
    }
  }

  /** A build starts in an empty place: what an interrupted one left is removed first. */
  lemma StartsClean(w: World, ev: Event)
    requires Inv(w) && Step(w, ev).Some?
    ensures var w' := Step(w, ev).value;
            w'.started != w.started ==> w'.started == w.started + 1 && !w'.present && w'.files == 0 && w'.pcs[ev.s] == Building
    ensures var w' := Step(w, ev).value;
            w'.files > w.files ==> w.pcs[ev.s] == Building && w'.files == w.files + 1 <= w.size
  {
    assert SessionInv(w, ev.s, w.pcs[ev.s]);
  }

  /** Of all that hold the finished build, at most one says that it did not reuse it. */
  ghost predicate OneBuilder(w: World) {
    forall s, t :: 0 <= s < |w.pcs| && 0 <= t < |w.pcs| && w.pcs[s] in {Marked, Returned(false)} && w.pcs[t] in {Marked, Returned(false)}
      ==> s == t
  }

  lemma {:induction false} BuilderUnique(ws: seq<World>, evs: seq<Event>, j: nat)
    requires Run(ws, evs) && j < |ws|
    ensures Inv(ws[j]) && OneBuilder(ws[j])
    decreases j
  {
    BuiltAtMostOnce(ws, evs, j, j);
    if j > 0 {
      BuilderUnique(ws, evs, j - 1);
      assert Step(ws[j - 1], evs[j - 1]) == Some(ws[j - 1 + 1]);
      StepKeepsBuilder(ws[j - 1], evs[j - 1]);
    }
  }

  lemma StepKeepsBuilder(w: World, ev: Event)
    requires Inv(w) && OneBuilder(w) && Step(w, ev).Some?
    ensures OneBuilder(Step(w, ev).value)
  {
    forall s | 0 <= s < |w.pcs| && w.pcs[s] in {Marked, Returned(false)} ensures w.ready {
      assert SessionInv(w, s, w.pcs[s]);
    }
    assert SessionInv(w, ev.s, w.pcs[ev.s]);
  }

  const REBUILT: World := World(1, true, 1, true, None, [Returned(true), Returned(false)], 2, 1)

  /** The first session is stopped in the middle of its build; the second one clears the place and
      builds; the first one, back again, is given that build. */
  lemma RebuiltExample() returns (evs: seq<Event>)
    ensures Leads(Step, World(1, false, 0, false, None, [Idle, Idle], 0, 0), evs, REBUILT)
  {
    var w0 := World(1, false, 0, false, None, [Idle, Idle], 0, 0);
    var w1 := Step(w0, Look(0)).value;
    var w2 := Step(w1, Acquire(0)).value;
    var w3 := Step(w2, Relook(0)).value;
    var w4 := Step(w3, Write(0)).value;
    var w5 := Step(w4, Stop(0)).value;
    evs := RebuildExample(w5);
    First(Step, w4, Stop(0), w5, evs, REBUILT);
    evs := [Stop(0)] + evs;
    First(Step, w3, Write(0), w4, evs, REBUILT);
    evs := [Write(0)] + evs;
    First(Step, w2, Relook(0), w3, evs, REBUILT);
    evs := [Relook(0)] + evs;
    First(Step, w1, Acquire(0), w2, evs, REBUILT);
    evs := [Acquire(0)] + evs;
    First(Step, w0, Look(0), w1, evs, REBUILT);
    evs := [Look(0)] + evs;
  }

  lemma RebuildExample(w0: World) returns (evs: seq<Event>)
    requires w0 == World(1, true, 1, false, None, [Idle, Idle], 1, 1)
    ensures Leads(Step, w0, evs, REBUILT)
  {
    var w1 := Step(w0, Look(1)).value;
    var w2 := Step(w1, Acquire(1)).value;
    var w3 := Step(w2, Relook(1)).value;
    var w4 := Step(w3, Remove(1)).value;
    var w5 := Step(w4, Removed(1)).value;
    var w6 := Step(w5, Write(1)).value;
    var w7 := Step(w6, MarkReady(1)).value;
    var w8 := Step(w7, Release(1)).value;
    assert Step(w8, Look(0)).value.pcs == [Returned(true), Returned(false)];
    evs := [];
    First(Step, w8, Look(0), REBUILT, evs, REBUILT);
    evs := [Look(0)] + evs;
    First(Step, w7, Release(1), w8, evs, REBUILT);
    evs := [Release(1)] + evs;
    First(Step, w6, MarkReady(1), w7, evs, REBUILT);
    evs := [MarkReady(1)] + evs;
    First(Step, w5, Write(1), w6, evs, REBUILT);
    evs := [Write(1)] + evs;
    First(Step, w4, Removed(1), w5, evs, REBUILT);
    evs := [Removed(1)] + evs;
    First(Step, w3, Remove(1), w4, evs, REBUILT);
    evs := [Remove(1)] + evs;
    First(Step, w2, Relook(1), w3, evs, REBUILT);
    evs := [Relook(1)] + evs;
    First(Step, w1, Acquire(1), w2, evs, REBUILT);
    evs := [Acquire(1)] + evs;
    First(Step, w0, Look(1), w1, evs, REBUILT);
    evs := [Look(1)] + evs;
  }
}
