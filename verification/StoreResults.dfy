/** Baseline results: each session fills a private directory and renames it into place. */
module StoreResults {

  import opened Prelude

  /** A directory: who wrote it, how many of its files are there, and its provenance file. */
  datatype Dir = Dir(author: nat, files: nat, provenance: bool)

  datatype Pc = Idle | Filling(partial: Dir) | Clashed(partial: Dir) | Returned | Raised

  /** `size` is how many files `fill` writes before the provenance file. */
  datatype World = World(size: nat, final: Option<Dir>, pcs: seq<Pc>)

  datatype Event = Begin(s: nat) | Fill(s: nat) | Provenance(s: nat) | Rename(s: nat) | Cleanup(s: nat) | Stop(s: nat)

  function At(w: World, s: nat, pc: Pc): World
    requires s < |w.pcs|
  {
    w.(pcs := w.pcs[s := pc])
  }

  /** One step. Renaming onto the published directory fails; that is an error only when what is
      there has no provenance. A stopped session's partial directory is never seen again: its
      name is unique. */
  function Step(w: World, ev: Event): Option<World> {
    var s := ev.s;
    if s >= |w.pcs| then None
    else
      match ev
      case Begin(_) =>
        if w.pcs[s] != Idle then None
        else if w.final.Some? then Some(At(w, s, Returned))
        else Some(At(w, s, Filling(Dir(s, 0, false))))
      case Fill(_) =>
        if !w.pcs[s].Filling? || w.pcs[s].partial.files >= w.size then None
        else Some(At(w, s, Filling(w.pcs[s].partial.(files := w.pcs[s].partial.files + 1))))
      case Provenance(_) =>
        if !w.pcs[s].Filling? || w.pcs[s].partial.files != w.size then None
        else Some(At(w, s, Filling(w.pcs[s].partial.(provenance := true))))
      case Rename(_) =>
        if !w.pcs[s].Filling? || !w.pcs[s].partial.provenance then None
        else if w.final.None? then Some(At(w, s, Returned).(final := Some(w.pcs[s].partial)))
        else if w.final.value.provenance then Some(At(w, s, Clashed(w.pcs[s].partial)))
        else Some(At(w, s, Raised))
      case Cleanup(_) =>
        if !w.pcs[s].Clashed? then None else Some(At(w, s, Returned))
      case Stop(_) => Some(At(w, s, Idle))
  }

  /** `read_results`: the published directory, when its provenance is there. */
  function Read(w: World): Option<Dir> {
    if w.final.Some? && w.final.value.provenance then w.final else None
  }

  predicate CompleteDir(w: World, d: Dir) {
    d.files == w.size && d.provenance
  }

  predicate PcInv(w: World, s: nat, pc: Pc) {
    && (pc.Filling? ==> pc.partial.author == s && (pc.partial.provenance ==> pc.partial.files == w.size))
    && (pc.Returned? || pc.Clashed? ==> w.final.Some?)
    && !pc.Raised?
  }

  ghost predicate Inv(w: World) {
    && (w.final.Some? ==> CompleteDir(w, w.final.value))
    && forall s :: 0 <= s < |w.pcs| ==> PcInv(w, s, w.pcs[s])
  }

  ghost predicate Start(w: World) {
    w.final.None? && forall s :: 0 <= s < |w.pcs| ==> w.pcs[s] == Idle
  }

  lemma StepKeepsInv(w: World, ev: Event)
    requires Inv(w) && Step(w, ev).Some?
    ensures Inv(Step(w, ev).value)
    ensures w.final.Some? ==> Step(w, ev).value.final == w.final
  {
    var w' := Step(w, ev).value;
    assert PcInv(w, ev.s, w.pcs[ev.s]);
    forall s | 0 <= s < |w'.pcs|
      ensures PcInv(w', s, w'.pcs[s])
    {
      assert PcInv(w, s, w.pcs[s]);
    }
  }

  ghost predicate Run(ws: seq<World>, evs: seq<Event>) {
    && |ws| == |evs| + 1 && Start(ws[0])
    && forall k :: 0 <= k < |evs| ==> Step(ws[k], evs[k]) == Some(ws[k + 1])
  }

  /** Over every run: what is published is complete and readable, it is for ever the directory
      of the first rename, whoever returned has a published entry, and a lost race never raises. */
  lemma {:induction false} FirstRenameWins(ws: seq<World>, evs: seq<Event>, i: nat, j: nat)
    requires Run(ws, evs) && i <= j < |ws|
    ensures Inv(ws[j])
    ensures ws[j].final.Some? ==> CompleteDir(ws[j], ws[j].final.value) && Read(ws[j]) == ws[j].final
    ensures ws[i].final.Some? ==> ws[j].final == ws[i].final
    ensures forall s :: 0 <= s < |ws[j].pcs| ==>
              !ws[j].pcs[s].Raised? && (ws[j].pcs[s].Returned? ==> Read(ws[j]).Some?)
    decreases j
  {
    if j > 0 {
      FirstRenameWins(ws, evs, if i < j then i else j - 1, j - 1);
      assert Step(ws[j - 1], evs[j - 1]) == Some(ws[j - 1 + 1]);
      StepKeepsInv(ws[j - 1], evs[j - 1]);
    }
    forall s | 0 <= s < |ws[j].pcs|
      ensures !ws[j].pcs[s].Raised? && (ws[j].pcs[s].Returned? ==> Read(ws[j]).Some?)
    {
      assert PcInv(ws[j], s, ws[j].pcs[s]);
    }
  }

  /** Two sessions fill the same entry; the first rename wins and the other session returns it. */
  lemma RaceExample() returns (evs: seq<Event>)
    ensures Leads(Step, World(1, None, [Idle, Idle]), evs, World(1, Some(Dir(1, 1, true)), [Returned, Returned]))
  {
    var mine, yours := Dir(0, 1, true), Dir(1, 1, true);
    var w0 := World(1, None, [Idle, Idle]);
    var w1 := Step(w0, Begin(0)).value;
    var w2 := Step(w1, Begin(1)).value;
    var w3 := Step(w2, Fill(0)).value;
    var w4 := Step(w3, Fill(1)).value;
    var w5 := Step(w4, Provenance(0)).value;
    var w6 := Step(w5, Provenance(1)).value;
    var w7 := Step(w6, Rename(1)).value;
    var w8 := Step(w7, Rename(0)).value;
    var end := World(1, Some(yours), [Returned, Returned]);
    assert Step(w8, Cleanup(0)).value.pcs == [Returned, Returned];
    evs := [];
    First(Step, w8, Cleanup(0), end, evs, end);
    evs := [Cleanup(0)] + evs;
    First(Step, w7, Rename(0), w8, evs, end);
    evs := [Rename(0)] + evs;
    First(Step, w6, Rename(1), w7, evs, end);
    evs := [Rename(1)] + evs;
    First(Step, w5, Provenance(1), w6, evs, end);
    evs := [Provenance(1)] + evs;
    First(Step, w4, Provenance(0), w5, evs, end);
    evs := [Provenance(0)] + evs;
    First(Step, w3, Fill(1), w4, evs, end);
    evs := [Fill(1)] + evs;
    First(Step, w2, Fill(0), w3, evs, end);
    evs := [Fill(0)] + evs;
    First(Step, w1, Begin(1), w2, evs, end);
    evs := [Begin(1)] + evs;
    First(Step, w0, Begin(0), w1, evs, end);
    evs := [Begin(0)] + evs;
  }
}
