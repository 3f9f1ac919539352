/** Small data types and predicates shared by every module. */
module Prelude {

  datatype Option<+T> = None | Some(value: T)

  predicate Distinct<T(==)>(s: seq<T>) {
    forall i, j | 0 <= i < j < |s| :: s[i] != s[j]
  }

  /** The events happen one after another and lead from the one world to the other. */
  ghost predicate Leads<W(!new), E(!new)>(step: (W, E) -> Option<W>, w: W, evs: seq<E>, end: W)
    decreases |evs|
  {
    if evs == [] then w == end
    else step(w, evs[0]).Some? && Leads(step, step(w, evs[0]).value, evs[1..], end)
  }

  lemma First<W(!new), E(!new)>(step: (W, E) -> Option<W>, w: W, ev: E, next: W, evs: seq<E>, end: W)
    requires step(w, ev) == Some(next) && Leads(step, next, evs, end)
    ensures Leads(step, w, [ev] + evs, end)
  {
    assert ([ev] + evs)[1..] == evs;
  }
}
