/** What a verified replay says about the metrics of the two circuits. */
module ReplayMetrics {

  import opened Prelude
  import opened Circuits
  import opened Depth
  import opened Replay
  import opened ReplayReadings
  import opened ReplayExact

  /** A verified replay, with its routing swaps removed and its labels undone, has the `D2` and
      `N2` of the logical circuit without barriers. */
  lemma VerifiedKeepsMetrics(logical: seq<Op>, routed: seq<Op>, layout: Option<Layout>, nIn: nat, nOut: nat, elided: Option<seq<int>>,
                             native: set<string>, d: nat)
    returns (start: seq<int>, routing: seq<bool>)
    requires Judge(logical, routed, layout, nIn, nOut, elided).status == Verified
    ensures AtStart(start, layout, nOut)
    ensures var undone := Undo(routed, start, routing);
            && undone.Some?
            && (LongestChain(undone.value.executed, native, d) <==> LongestChain(NoBarriers(logical), native, d))
            && N2(undone.value.executed, |undone.value.executed|, native) == N2(NoBarriers(logical), |NoBarriers(logical)|, native)
  {
    var end;
    start, routing, end := ReplaySound(logical, routed, layout, nIn, nOut, elided);
    TraceKeepsMetrics(NoBarriers(logical), Undo(routed, start, routing).value.executed, native, d);
  }
}
