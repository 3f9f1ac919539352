/** Baseline quality observations: storing under a shared lock, invalidating under an exclusive
    one. */
module StoreQuality {

  import opened Prelude

  datatype Pc =
    | Idle
    | Shared        // holds the shared lock, validity not looked at yet
    | Adding        // holds the shared lock and saw the entry valid
    | Exclusive     // holds the exclusive lock

  /** `entry` is there, marked invalid or not, with these observation files. */
  datatype World = World(present: bool, invalid: bool, files: set<nat>, pcs: seq<Pc>)

  datatype Event =
    | LockShared(s: nat)
    | Check(s: nat)
    | Add(s: nat, file: nat)
    | LockExclusive(s: nat)
    | Invalidate(s: nat)
    | Release(s: nat)

  function At(w: World, s: nat, pc: Pc): World
    requires s < |w.pcs|
  {
    w.(pcs := w.pcs[s := pc])
  }

  /** One step. Taking the shared lock creates the entry; `Release` is also what a stopped
      session does, wherever it is. */
  function Step(w: World, ev: Event): Option<World> {
    var s := ev.s;
    if s >= |w.pcs| then None
    else
      match ev
      case LockShared(_) =>
        if w.pcs[s] != Idle || Exclusive in w.pcs then None
        else Some(At(w, s, Shared).(present := true))
      case Check(_) =>
        if w.pcs[s] != Shared then None
        else Some(At(w, s, if w.invalid then Idle else Adding))
      case Add(_, file) =>
        if w.pcs[s] != Adding then None else Some(w.(files := w.files + {file}))
      case LockExclusive(_) =>
        if w.pcs[s] != Idle || !w.present || exists t | 0 <= t < |w.pcs| :: w.pcs[t] != Idle then None
        else Some(At(w, s, Exclusive))
      case Invalidate(_) =>
        if w.pcs[s] != Exclusive then None else Some(w.(invalid := true))
      case Release(_) => Some(At(w, s, Idle))
  }

  ghost predicate Inv(w: World) {
    && (forall s :: 0 <= s < |w.pcs| && w.pcs[s] == Adding ==> !w.invalid)
    && (forall s, t :: 0 <= s < |w.pcs| && 0 <= t < |w.pcs| && s != t && w.pcs[s] == Exclusive ==> w.pcs[t] == Idle)
  }

  ghost predicate Start(w: World) {
    forall s :: 0 <= s < |w.pcs| ==> w.pcs[s] == Idle
  }

  lemma StepKeepsInv(w: World, ev: Event)
    requires Inv(w) && Step(w, ev).Some?
    ensures Inv(Step(w, ev).value)
    ensures w.invalid ==> Step(w, ev).value.invalid && Step(w, ev).value.files == w.files
  {
  }

  ghost predicate Run(ws: seq<World>, evs: seq<Event>) {
    && |ws| == |evs| + 1 && Start(ws[0])
    && forall k :: 0 <= k < |evs| ==> Step(ws[k], evs[k]) == Some(ws[k + 1])
  }

  /** Over every run, from any state of the entry: once it is marked invalid it stays so, and no
      observation is added to it, not even by a session that was storing at the time. */
  lemma {:induction false} NothingAddedAfterInvalidation(ws: seq<World>, evs: seq<Event>, i: nat, j: nat)
    requires Run(ws, evs) && i <= j < |ws|
    ensures Inv(ws[j])
    ensures ws[i].invalid ==> ws[j].invalid && ws[j].files == ws[i].files
    decreases j
  {
    if j > 0 {
      NothingAddedAfterInvalidation(ws, evs, if i < j then i else j - 1, j - 1);
      assert Step(ws[j - 1], evs[j - 1]) == Some(ws[j - 1 + 1]);
      StepKeepsInv(ws[j - 1], evs[j - 1]);
    }
  }

  /** Observations are only ever added, by a session that holds the shared lock and saw the entry
      valid; the mark is only set by one that holds the exclusive lock. */
  lemma StepAdds(w: World, ev: Event)
    requires Inv(w) && Step(w, ev).Some?
    ensures var w' := Step(w, ev).value;
            && w.files <= w'.files && (w.present ==> w'.present)
            && (w'.files != w.files ==> w.pcs[ev.s] == Adding && !w.invalid)
            && (w'.invalid != w.invalid ==> w.pcs[ev.s] == Exclusive)
            && (w'.pcs[ev.s] == Adding ==> w.pcs[ev.s] in {Shared, Adding})
  {
  }

  /** An observation is stored, the entry is invalidated, and the next session stores nothing. */
  lemma InvalidatedExample()
    ensures Leads(Step, World(false, false, {}, [Idle, Idle]),
                  [LockShared(0), Check(0), Add(0, 5), Release(0), LockExclusive(1), Invalidate(1), Release(1), LockShared(0), Check(0)],
                  World(true, true, {5}, [Idle, Idle]))
  {
    var w0 := World(false, false, {}, [Idle, Idle]);
    var w1 := Step(w0, LockShared(0)).value;
    var w2 := Step(w1, Check(0)).value;
    var w3 := Step(w2, Add(0, 5)).value;
    var w4 := Step(w3, Release(0)).value;
    var w5 := Step(w4, LockExclusive(1)).value;
    var w6 := Step(w5, Invalidate(1)).value;
    var w7 := Step(w6, Release(1)).value;
    var w8 := Step(w7, LockShared(0)).value;
    var end := World(true, true, {5}, [Idle, Idle]);
    assert {} + {5} == {5};
    assert Step(w8, Check(0)).value.pcs == [Idle, Idle];
    var evs: seq<Event> := [];
    First(Step, w8, Check(0), end, evs, end);
    evs := [Check(0)] + evs;
    First(Step, w7, LockShared(0), w8, evs, end);
    evs := [LockShared(0)] + evs;
    First(Step, w6, Release(1), w7, evs, end);
    evs := [Release(1)] + evs;
    First(Step, w5, Invalidate(1), w6, evs, end);
    evs := [Invalidate(1)] + evs;
    First(Step, w4, LockExclusive(1), w5, evs, end);
    evs := [LockExclusive(1)] + evs;
    First(Step, w3, Release(0), w4, evs, end);
    evs := [Release(0)] + evs;
    First(Step, w2, Add(0, 5), w3, evs, end);
    evs := [Add(0, 5)] + evs;
    First(Step, w1, Check(0), w2, evs, end);
    evs := [Check(0)] + evs;
    First(Step, w0, LockShared(0), w1, evs, end);
    evs := [LockShared(0)] + evs;
    assert evs == [LockShared(0), Check(0), Add(0, 5), Release(0), LockExclusive(1), Invalidate(1), Release(1), LockShared(0), Check(0)];
  }
}
