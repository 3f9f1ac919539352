/** The CPU of a worker and its descendants, as the monitor reads it from `/proc`.

    A process that ends hands its children to another parent and stays readable until its own
    parent collects it; then the kernel adds its time to that parent's child time. A window's
    worker CPU is computed from two samples of the readable processes; here it is compared with
    the CPU that the tree really consumed between them. Times are exact reals, and a sample is
    one instant. */
module ProcessTree {

  import opened Prelude

  /** `own` is utime + stime, `reaped` is cutime + cstime; a process is born after its parent,
      and is `dead` from its exit until it is collected. */
  datatype Proc = Proc(parent: nat, born: nat, own: real, reaped: real, dead: bool)

  type Table = map<nat, Proc>

  /** The process that adopts orphans; it is never part of a worker's tree. */
  const INIT: nat := 1

  ghost predicate WellFormed(t: Table) {
    && INIT in t && t[INIT].born == 0 && !t[INIT].dead
    && forall p | p in t && p != INIT :: t[p].parent in t && t[t[p].parent].born < t[p].born && !t[t[p].parent].dead
  }

  predicate InTree(t: Table, root: nat, p: nat)
    requires p in t
    decreases t[p].born
  {
    p == root || (t[p].parent in t && t[t[p].parent].born < t[p].born && InTree(t, root, t[p].parent))
  }

  function Tree(t: Table, root: nat): set<nat> {
    set p | p in t && InTree(t, root, p)
  }

  function Cpu(p: Proc): real {
    p.own + p.reaped
  }

  // ----- Sums over sets of processes

  ghost function Sum(s: set<nat>, f: map<nat, real>): real
    requires s <= f.Keys
  {
    if s == {} then 0.0 else var x :| x in s; f[x] + Sum(s - {x}, f)
  }

  lemma {:induction false} SumPick(s: set<nat>, f: map<nat, real>, x: nat)
    requires s <= f.Keys && x in s
    ensures Sum(s, f) == f[x] + Sum(s - {x}, f)
    decreases |s|
  {
    var y :| y in s && Sum(s, f) == f[y] + Sum(s - {y}, f);
    if y != x {
      SumPick(s - {y}, f, x);
      SumPick(s - {x}, f, y);
      assert s - {y} - {x} == s - {x} - {y};
    }
  }

  lemma {:induction false} SumAgrees(s: set<nat>, f: map<nat, real>, g: map<nat, real>)
    requires s <= f.Keys && s <= g.Keys && forall x | x in s :: f[x] == g[x]
    ensures Sum(s, f) == Sum(s, g)
    decreases |s|
  {
    if s != {} {
      var x :| x in s;
      SumPick(s, f, x);
      SumPick(s, g, x);
      SumAgrees(s - {x}, f, g);
    }
  }

  lemma {:induction false} SumSplit(s: set<nat>, a: set<nat>, f: map<nat, real>)
    requires s <= f.Keys && a <= s
    ensures Sum(s, f) == Sum(a, f) + Sum(s - a, f)
    decreases |a|
  {
    if a == {} {
      assert s - a == s;
    } else {
      var x :| x in a;
      SumPick(s, f, x);
      SumPick(a, f, x);
      SumSplit(s - {x}, a - {x}, f);
      assert s - {x} - (a - {x}) == s - a;
    }
  }

  // ----- What one sample reads

  /** `process_cpu`: the CPU of the worker and of each live descendant. */
  function ProcessCpu(t: Table, root: nat): map<nat, real> {
    map p | p in Tree(t, root) :: Cpu(t[p])
  }

  ghost function Total(t: Table, root: nat): real {
    Sum(Tree(t, root), ProcessCpu(t, root))
  }

  // ----- What processes do

  datatype Event =
    | Spawn(parent: nat, child: nat, born: nat)
    | Run(p: nat, seconds: real)
    | Exit(p: nat)       // a process ends: its children are orphaned, and it waits to be collected
    | Reap(child: nat)   // an ended process is collected by its parent

  function Adopt(t: Table, gone: nat): Table {
    map p | p in t :: if p == gone then t[p].(dead := true) else if t[p].parent == gone then t[p].(parent := INIT) else t[p]
  }

  function Collect(t: Table, child: nat): Table
    requires child in t
  {
    var q := t[child].parent;
    map p | p in t && p != child :: if p == q then t[p].(reaped := t[p].reaped + Cpu(t[child])) else t[p]
  }

  /** The worker itself may end, but it is not collected while it is sampled. */
  predicate Enabled(t: Table, root: nat, ev: Event) {
    match ev
    case Spawn(parent, child, born) => parent in t && !t[parent].dead && child !in t && t[parent].born < born
    case Run(p, seconds) => p in t && !t[p].dead && seconds >= 0.0
    case Exit(p) => p in t && !t[p].dead && p != INIT
    case Reap(child) => child in t && t[child].dead && child != root && child != INIT
  }

  function Do(t: Table, root: nat, ev: Event): Table
    requires Enabled(t, root, ev)
  {
    match ev
    case Spawn(parent, child, born) => t[child := Proc(parent, born, 0.0, 0.0, false)]
    case Run(p, seconds) => t[p := t[p].(own := t[p].own + seconds)]
    case Exit(p) => Adopt(t, p)
    case Reap(child) => Collect(t, child)
  }

  /** The CPU that the event makes the worker's tree consume. */
  function Consumed(t: Table, root: nat, ev: Event): real
    requires Enabled(t, root, ev)
  {
    if ev.Run? && InTree(t, root, ev.p) then ev.seconds else 0.0
  }

  /** The processes that leave the worker's tree, with the time they have on record. */
  function Orphans(t: Table, root: nat, ev: Event): set<nat>
    requires Enabled(t, root, ev)
  {
    if ev.Exit? && InTree(t, root, ev.p) then Tree(t, ev.p) - {ev.p} else {}
  }

  // ----- The tree after each event

  lemma {:induction false} SpawnTree(t: Table, root: nat, ev: Event, p: nat)
    requires WellFormed(t) && Enabled(t, root, ev) && ev.Spawn? && p in t
    ensures InTree(Do(t, root, ev), root, p) == InTree(t, root, p)
    decreases t[p].born
  {
    if p != root && t[p].parent in t && t[t[p].parent].born < t[p].born {
      SpawnTree(t, root, ev, t[p].parent);
    }
  }

  lemma {:induction false} RunTree(t: Table, root: nat, ev: Event, p: nat)
    requires Enabled(t, root, ev) && ev.Run? && p in t
    ensures InTree(Do(t, root, ev), root, p) == InTree(t, root, p)
    decreases t[p].born
  {
    if p != root && t[p].parent in t && t[t[p].parent].born < t[p].born {
      RunTree(t, root, ev, t[p].parent);
    }
  }

  lemma InitOutside(t: Table, root: nat)
    requires WellFormed(t) && root != INIT
    ensures !InTree(t, root, INIT)
  {
  }

  /** A process is above at most one of two processes of which neither is above the other. */
  lemma {:induction false} TreeNests(t: Table, root: nat, child: nat, p: nat)
    requires WellFormed(t) && child in t && p in t && InTree(t, root, child) && InTree(t, child, p)
    ensures InTree(t, root, p)
    decreases t[p].born
  {
    if p != child && p != root {
      TreeNests(t, root, child, t[p].parent);
    }
  }

  lemma {:induction false} ExitTree(t: Table, root: nat, ev: Event, p: nat)
    requires WellFormed(t) && root != INIT && Enabled(t, root, ev) && ev.Exit? && p in t
    ensures InTree(Do(t, root, ev), root, p)
            <==> InTree(t, root, p) && !(InTree(t, root, ev.p) && InTree(t, ev.p, p) && p != ev.p)
    decreases t[p].born
  {
    var t', q := Do(t, root, ev), t[p].parent;
    InitOutside(t, root);
    if p == root {
      if InTree(t, root, ev.p) && InTree(t, ev.p, p) && p != ev.p {
        NotBothAbove(t, ev.p, p);
      }
    } else if p == INIT {
    } else if q == ev.p {
      assert t'[p].parent == INIT;
      assert !InTree(t', root, INIT);
      if InTree(t, root, p) { assert InTree(t, root, ev.p); }
    } else {
      ExitTree(t, root, ev, q);
      assert t'[p].parent == q && t'[q].born == t[q].born;
      if p == ev.p { ParentOutside(t, p); }
    }
  }

  /** Nothing hangs below a collected process, so the others stay where they are. */
  lemma {:induction false} ReapTree(t: Table, root: nat, ev: Event, p: nat)
    requires WellFormed(t) && Enabled(t, root, ev) && ev.Reap? && p in t && p != ev.child
    ensures InTree(Do(t, root, ev), root, p) == InTree(t, root, p)
    decreases t[p].born
  {
    if p != root && p != INIT {
      ReapTree(t, root, ev, t[p].parent);
    }
  }

  lemma {:induction false} NotBothAbove(t: Table, a: nat, b: nat)
    requires WellFormed(t) && a in t && b in t && a != b && InTree(t, a, b)
    ensures t[a].born < t[b].born && !InTree(t, b, a)
    decreases t[b].born
  {
    if t[b].parent != a {
      NotBothAbove(t, a, t[b].parent);
    }
    if InTree(t, b, a) {
      BornOrder(t, b, a);
    }
  }

  lemma {:induction false} BornOrder(t: Table, root: nat, p: nat)
    requires WellFormed(t) && root in t && p in t && InTree(t, root, p)
    ensures t[root].born <= t[p].born
    decreases t[p].born
  {
    if p != root {
      BornOrder(t, root, t[p].parent);
    }
  }

  lemma KeepsWellFormed(t: Table, root: nat, ev: Event)
    requires WellFormed(t) && Enabled(t, root, ev)
    ensures WellFormed(Do(t, root, ev))
  {
    var t' := Do(t, root, ev);
    forall p | p in t' && p != INIT
      ensures t'[p].parent in t' && t'[t'[p].parent].born < t'[p].born && !t'[t'[p].parent].dead
    {
      if p in t { assert t[p].parent in t && t[t[p].parent].born < t[p].born && !t[t[p].parent].dead; }
    }
  }

  // ----- What an event does to the tree's CPU on record

  lemma SpawnTotal(t: Table, root: nat, ev: Event)
    requires WellFormed(t) && root in t && Enabled(t, root, ev) && ev.Spawn?
    ensures Total(Do(t, root, ev), root) == Total(t, root)
  {
    var t', tree := Do(t, root, ev), Tree(t, root);
    forall p | p in t ensures InTree(t', root, p) == InTree(t, root, p) {
      SpawnTree(t, root, ev, p);
    }
    assert Tree(t', root) == if InTree(t', root, ev.child) then tree + {ev.child} else tree;
    if InTree(t', root, ev.child) {
      SumPick(Tree(t', root), ProcessCpu(t', root), ev.child);
      assert Tree(t', root) - {ev.child} == tree;
    }
    SumAgrees(tree, ProcessCpu(t, root), ProcessCpu(t', root));
  }

  lemma RunTotal(t: Table, root: nat, ev: Event)
    requires Enabled(t, root, ev) && ev.Run?
    ensures Total(Do(t, root, ev), root) == Total(t, root) + Consumed(t, root, ev)
  {
    var t', tree := Do(t, root, ev), Tree(t, root);
    forall p | p in t ensures InTree(t', root, p) == InTree(t, root, p) {
      RunTree(t, root, ev, p);
    }
    assert Tree(t', root) == tree;
    if InTree(t, root, ev.p) {
      SumPick(tree, ProcessCpu(t, root), ev.p);
      SumPick(tree, ProcessCpu(t', root), ev.p);
      SumAgrees(tree - {ev.p}, ProcessCpu(t, root), ProcessCpu(t', root));
    } else {
      SumAgrees(tree, ProcessCpu(t, root), ProcessCpu(t', root));
    }
  }

  /** The tree after an exit: without the orphans. */
  lemma ExitMembers(t: Table, root: nat, ev: Event)
    requires WellFormed(t) && root != INIT && root in t && Enabled(t, root, ev) && ev.Exit?
    ensures Orphans(t, root, ev) <= Tree(t, root)
    ensures Tree(Do(t, root, ev), root) == Tree(t, root) - Orphans(t, root, ev)
  {
    var t', child := Do(t, root, ev), ev.p;
    forall p | p in t
      ensures InTree(t', root, p) <==> InTree(t, root, p) && !(InTree(t, root, child) && InTree(t, child, p) && p != child)
      ensures InTree(t, root, child) && InTree(t, child, p) ==> InTree(t, root, p)
    {
      ExitTree(t, root, ev, p);
      if InTree(t, root, child) && InTree(t, child, p) {
        TreeNests(t, root, child, p);
      }
    }
  }

  lemma ParentOutside(t: Table, child: nat)
    requires WellFormed(t) && child in t && t[child].parent in t && child != INIT
    ensures t[child].parent != child && !InTree(t, child, t[child].parent)
  {
    if InTree(t, child, t[child].parent) {
      BornOrder(t, child, t[child].parent);
    }
  }

  /** An exit takes exactly the orphans' time out of the tree. */
  lemma ExitTotal(t: Table, root: nat, ev: Event)
    requires WellFormed(t) && root != INIT && root in t && Enabled(t, root, ev) && ev.Exit?
    ensures Orphans(t, root, ev) <= Tree(t, root)
    ensures Total(Do(t, root, ev), root) == Total(t, root) - Sum(Orphans(t, root, ev), ProcessCpu(t, root))
  {
    ExitMembers(t, root, ev);
    var tree, orphans := Tree(t, root), Orphans(t, root, ev);
    var f, f' := ProcessCpu(t, root), ProcessCpu(Do(t, root, ev), root);
    SumSplit(tree, orphans, f);
    SumAgrees(tree - orphans, f, f');
  }

  /** Collecting a process moves its time to its parent and loses nothing. */
  lemma ReapTotal(t: Table, root: nat, ev: Event)
    requires WellFormed(t) && root != INIT && root in t && Enabled(t, root, ev) && ev.Reap?
    ensures Total(Do(t, root, ev), root) == Total(t, root)
  {
    var t', tree, child, q := Do(t, root, ev), Tree(t, root), ev.child, t[ev.child].parent;
    var f, f' := ProcessCpu(t, root), ProcessCpu(t', root);
    forall p | p in t'
      ensures InTree(t', root, p) == InTree(t, root, p)
    {
      ReapTree(t, root, ev, p);
    }
    assert Tree(t', root) == tree - {child};
    assert child in tree <==> q in tree;
    if child in tree {
      var rest := tree - {child};
      SumPick(tree, f, child);
      SumPick(rest, f, q);
      SumPick(rest, f', q);
      SumAgrees(rest - {q}, f, f');
    } else {
      assert tree - {child} == tree;
      SumAgrees(tree, f, f');
    }
  }

  /** The time on record of the processes that leave the tree as orphans. */
  ghost function Lost(t: Table, root: nat, ev: Event): real
    requires Enabled(t, root, ev)
  {
    Sum(Orphans(t, root, ev) * Tree(t, root), ProcessCpu(t, root))
  }

  lemma EventTotal(t: Table, root: nat, ev: Event)
    requires WellFormed(t) && root != INIT && root in t && Enabled(t, root, ev)
    ensures Total(Do(t, root, ev), root) == Total(t, root) + Consumed(t, root, ev) - Lost(t, root, ev)
  {
    match ev
    case Spawn(_, _, _) => SpawnTotal(t, root, ev);
    case Run(_, _) => RunTotal(t, root, ev);
    case Exit(_) =>
      ExitTotal(t, root, ev);
      assert Orphans(t, root, ev) * Tree(t, root) == Orphans(t, root, ev);
    case Reap(_) =>
      ReapTotal(t, root, ev);
      assert Orphans(t, root, ev) * Tree(t, root) == {};
  }

  // ----- Runs

  ghost predicate Runs(t: Table, root: nat, evs: seq<Event>, t': Table)
    decreases |evs|
  {
    if evs == [] then t == t' else Enabled(t, root, evs[0]) && Runs(Do(t, root, evs[0]), root, evs[1..], t')
  }

  ghost function RunConsumed(t: Table, root: nat, evs: seq<Event>): real
    decreases |evs|
  {
    if evs == [] || !Enabled(t, root, evs[0]) then 0.0
    else Consumed(t, root, evs[0]) + RunConsumed(Do(t, root, evs[0]), root, evs[1..])
  }

  ghost function RunLost(t: Table, root: nat, evs: seq<Event>): real
    decreases |evs|
  {
    if evs == [] || !Enabled(t, root, evs[0]) then 0.0
    else Lost(t, root, evs[0]) + RunLost(Do(t, root, evs[0]), root, evs[1..])
  }

  lemma {:induction false} Conservation(t: Table, root: nat, evs: seq<Event>, t': Table)
    requires WellFormed(t) && root != INIT && root in t && Runs(t, root, evs, t')
    ensures WellFormed(t') && root in t'
    ensures Total(t', root) == Total(t, root) + RunConsumed(t, root, evs) - RunLost(t, root, evs)
    decreases |evs|
  {
    if evs != [] {
      var ev := evs[0];
      EventTotal(t, root, ev);
      KeepsWellFormed(t, root, ev);
      Conservation(Do(t, root, ev), root, evs[1..], t');
    }
  }

  lemma {:induction false} ConsumedNonNegative(t: Table, root: nat, evs: seq<Event>)
    ensures RunConsumed(t, root, evs) >= 0.0
    decreases |evs|
  {
    if evs != [] && Enabled(t, root, evs[0]) {
      ConsumedNonNegative(Do(t, root, evs[0]), root, evs[1..]);
    }
  }

  // ----- A window's worker CPU, as `_close` computes it from two samples

  ghost function Before(before: map<nat, real>, p: nat): real {
    if p in before then before[p] else 0.0
  }

  ghost function Gains(before: map<nat, real>, after: map<nat, real>): map<nat, real> {
    map p | p in after :: after[p] - Before(before, p)
  }

  function Vanished(before: map<nat, real>, after: map<nat, real>, root: nat): set<nat> {
    set p | p in before && p !in after && p != root
  }

  /** Gains of the live processes, less what vanished processes had on record before. */
  ghost function RawCpu(before: map<nat, real>, after: map<nat, real>, root: nat): real {
    Sum(after.Keys, Gains(before, after)) - Sum(Vanished(before, after, root), before)
  }

  ghost function WorkerCpu(before: map<nat, real>, after: map<nat, real>, root: nat): real {
    if RawCpu(before, after, root) < 0.0 then 0.0 else RawCpu(before, after, root)
  }

  lemma {:induction false} SumGains(s: set<nat>, before: map<nat, real>, after: map<nat, real>)
    requires s <= after.Keys
    ensures Sum(s, Gains(before, after)) == Sum(s, after) - Sum(s * before.Keys, before)
    decreases |s|
  {
    if s == {} {
      assert s * before.Keys == {};
    } else {
      var x :| x in s;
      SumPick(s, Gains(before, after), x);
      SumPick(s, after, x);
      SumGains(s - {x}, before, after);
      if x in before {
        SumPick(s * before.Keys, before, x);
        assert s * before.Keys - {x} == (s - {x}) * before.Keys;
      } else {
        assert s * before.Keys == (s - {x}) * before.Keys;
      }
    }
  }

  /** While the worker is alive the formula is the difference of the two samples' totals. */
  lemma RawIsDifference(before: map<nat, real>, after: map<nat, real>, root: nat)
    requires root in after
    ensures RawCpu(before, after, root) == Sum(after.Keys, after) - Sum(before.Keys, before)
  {
    SumGains(after.Keys, before, after);
    var vanished := Vanished(before, after, root);
    SumSplit(before.Keys, vanished, before);
    assert before.Keys - vanished == after.Keys * before.Keys;
  }

  /** A window's worker CPU over any run of the process tree: what the tree consumed less what
      orphans took away, clamped at zero. So it is the CPU consumed exactly when no orphan with
      time on record left the tree (or nothing was consumed and the clamp hides the loss), and
      the clamp fires exactly when the orphans took away more than was consumed. */
  lemma WindowCpu(t: Table, root: nat, evs: seq<Event>, t': Table)
    requires WellFormed(t) && root != INIT && root in t && Runs(t, root, evs, t')
    ensures var raw, cpu := RawCpu(ProcessCpu(t, root), ProcessCpu(t', root), root), WorkerCpu(ProcessCpu(t, root), ProcessCpu(t', root), root);
            var consumed, lost := RunConsumed(t, root, evs), RunLost(t, root, evs);
            && raw == consumed - lost
            && (raw < 0.0 <==> lost > consumed)
            && (cpu == consumed <==> lost == 0.0 || (consumed == 0.0 && lost >= 0.0))
  {
    Conservation(t, root, evs, t');
    ConsumedNonNegative(t, root, evs);
    assert ProcessCpu(t', root).Keys == Tree(t', root) && ProcessCpu(t, root).Keys == Tree(t, root);
    RawIsDifference(ProcessCpu(t, root), ProcessCpu(t', root), root);
  }

  // ----- Trees whose processes end only after their children are collected

  ghost predicate Childless(t: Table, p: nat) {
    forall q | q in t :: t[q].parent != p
  }

  ghost predicate NoOrphans(t: Table, root: nat, evs: seq<Event>)
    decreases |evs|
  {
    evs != [] && Enabled(t, root, evs[0]) ==> (evs[0].Exit? ==> Childless(t, evs[0].p)) && NoOrphans(Do(t, root, evs[0]), root, evs[1..])
  }

  lemma {:induction false} ChildlessAlone(t: Table, child: nat, p: nat)
    requires WellFormed(t) && Childless(t, child) && p in t && InTree(t, child, p)
    ensures p == child
    decreases t[p].born
  {
    if p != child {
      ChildlessAlone(t, child, t[p].parent);
    }
  }

  lemma {:induction false} NothingLost(t: Table, root: nat, evs: seq<Event>)
    requires WellFormed(t) && NoOrphans(t, root, evs)
    ensures RunLost(t, root, evs) == 0.0
    decreases |evs|
  {
    if evs != [] && Enabled(t, root, evs[0]) {
      var ev := evs[0];
      if ev.Exit? {
        forall p | p in Tree(t, ev.p) ensures p == ev.p {
          ChildlessAlone(t, ev.p, p);
        }
      }
      assert Orphans(t, root, ev) * Tree(t, root) == {};
      KeepsWellFormed(t, root, ev);
      NothingLost(Do(t, root, ev), root, evs[1..]);
    }
  }

  ghost function SumWindows(ts: seq<Table>, root: nat): real
    decreases |ts|
  {
    if |ts| < 2 then 0.0 else WorkerCpu(ProcessCpu(ts[0], root), ProcessCpu(ts[1], root), root) + SumWindows(ts[1..], root)
  }

  ghost function SumConsumed(ts: seq<Table>, root: nat, runs: seq<seq<Event>>): real
    requires |runs| + 1 >= |ts|
    decreases |ts|
  {
    if |ts| < 2 then 0.0 else RunConsumed(ts[0], root, runs[0]) + SumConsumed(ts[1..], root, runs[1..])
  }

  /** When processes end only after their children are collected, every window holds exactly the CPU
      consumed in it, the clamp never fires, and the windows telescope to the whole tree's
      consumption from the first sample to the last. */
  lemma {:induction false} WindowsTelescope(ts: seq<Table>, root: nat, runs: seq<seq<Event>>)
    requires |ts| == |runs| + 1 && WellFormed(ts[0]) && root != INIT && root in ts[0]
    requires forall i | 0 <= i < |runs| :: Runs(ts[i], root, runs[i], ts[i + 1]) && NoOrphans(ts[i], root, runs[i])
    ensures SumWindows(ts, root) == SumConsumed(ts, root, runs) == Total(ts[|ts| - 1], root) - Total(ts[0], root)
    decreases |ts|
  {
    if |ts| > 1 {
      WindowCpu(ts[0], root, runs[0], ts[1]);
      NothingLost(ts[0], root, runs[0]);
      Conservation(ts[0], root, runs[0], ts[1]);
      ConsumedNonNegative(ts[0], root, runs[0]);
      forall i | 0 <= i < |runs[1..]| ensures Runs(ts[1..][i], root, runs[1..][i], ts[1..][i + 1]) && NoOrphans(ts[1..][i], root, runs[1..][i]) {
        var j := i + 1;
        assert Runs(ts[j], root, runs[j], ts[j + 1]) && NoOrphans(ts[j], root, runs[j]);
      }
      WindowsTelescope(ts[1..], root, runs[1..]);
    }
  }

  lemma {:induction false} SumAtLeast(s: set<nat>, f: map<nat, real>, x: nat)
    requires s <= f.Keys && forall y | y in s :: f[y] >= 0.0
    ensures Sum(s, f) >= 0.0 && (x in s ==> Sum(s, f) >= f[x])
    decreases |s|
  {
    if s != {} {
      var y := if x in s then x else var z :| z in s; z;
      SumPick(s, f, y);
      SumAtLeast(s - {y}, f, y);
    }
  }

  /** The clamp does fire: when a worker's child ends before a busy child of its own, that
      child's time leaves the tree, and the window of the event alone would be negative. */
  lemma OrphanFiresClamp(t: Table, root: nat, child: nat, orphan: nat)
    requires WellFormed(t) && root != INIT && root in t && child in t && orphan in t && child != root && child != INIT && orphan != INIT
    requires t[child].parent == root && !t[child].dead && t[orphan].parent == child && Cpu(t[orphan]) > 0.0
    requires forall p | p in t :: Cpu(t[p]) >= 0.0
    ensures RawCpu(ProcessCpu(t, root), ProcessCpu(Do(t, root, Exit(child)), root), root) < 0.0
  {
    var ev := Exit(child);
    var run, t' := [ev], Do(t, root, ev);
    assert run[1..] == [];
    assert Runs(t, root, run, t');
    WindowCpu(t, root, run, t');
    assert InTree(t, root, child) && InTree(t, child, orphan);
    ExitMembers(t, root, ev);
    SumAtLeast(Orphans(t, root, ev) * Tree(t, root), ProcessCpu(t, root), orphan);
    assert RunLost(t, root, run) == Lost(t, root, ev) + RunLost(t', root, []);
  }

  /** Such a tree exists. */
  lemma OrphanExample()
    ensures var t := map[1 := Proc(0, 0, 0.0, 0.0, false), 10 := Proc(1, 1, 0.0, 0.0, false),
                         11 := Proc(10, 2, 0.0, 0.0, false), 12 := Proc(11, 3, 5.0, 0.0, false)];
            WellFormed(t) && RawCpu(ProcessCpu(t, 10), ProcessCpu(Do(t, 10, Exit(11)), 10), 10) < 0.0
  {
    var t := map[1 := Proc(0, 0, 0.0, 0.0, false), 10 := Proc(1, 1, 0.0, 0.0, false),
                 11 := Proc(10, 2, 0.0, 0.0, false), 12 := Proc(11, 3, 5.0, 0.0, false)];
    OrphanFiresClamp(t, 10, 11, 12);
  }

  /** A child that worked, ended and was collected leaves its time with its parent. */
  lemma CollectedExample()
    ensures var t := map[1 := Proc(0, 0, 0.0, 0.0, false), 10 := Proc(1, 1, 0.0, 0.0, false)];
            WellFormed(t)
            && Runs(t, 10, [Spawn(10, 11, 2), Run(11, 3.0), Exit(11), Reap(11)],
                    map[1 := Proc(0, 0, 0.0, 0.0, false), 10 := Proc(1, 1, 0.0, 3.0, false)])
  {
    var t := map[1 := Proc(0, 0, 0.0, 0.0, false), 10 := Proc(1, 1, 0.0, 0.0, false)];
    var spawned := t[11 := Proc(10, 2, 0.0, 0.0, false)];
    var worked := t[11 := Proc(10, 2, 3.0, 0.0, false)];
    var ended := t[11 := Proc(10, 2, 3.0, 0.0, true)];
    var end := map[1 := Proc(0, 0, 0.0, 0.0, false), 10 := Proc(1, 1, 0.0, 3.0, false)];
    var all := [Spawn(10, 11, 2), Run(11, 3.0), Exit(11), Reap(11)];
    assert all[1..][1..] == all[2..] && all[2..][1..] == all[3..] && all[3..][1..] == [];
    assert Runs(end, 10, [], end);
    assert Do(ended, 10, Reap(11)) == end;
    assert Runs(ended, 10, all[3..], end);
    assert Do(worked, 10, Exit(11)) == ended;
    assert Runs(worked, 10, all[2..], end);
    assert Do(spawned, 10, Run(11, 3.0)) == worked;
    assert Runs(spawned, 10, all[1..], end);
    assert Do(t, 10, Spawn(10, 11, 2)) == spawned;
  }

  // ----- The descendants of a process

  ghost predicate AreChildren(t: Table, parent: nat, children: seq<nat>) {
    Distinct(children) && forall p :: p in children <==> p in t && t[p].parent == parent
  }

  method Children(ghost t: Table, parents: map<nat, nat>, parent: nat) returns (children: seq<nat>)
    requires parents == map p | p in t :: t[p].parent
    ensures AreChildren(t, parent, children)
  {
    children := [];
    var left := parents.Keys;
    while left != {}
      invariant left <= parents.Keys && Distinct(children)
      invariant forall p :: p in children <==> p in parents && p !in left && parents[p] == parent
    {
      var p :| p in left;
      left := left - {p};
      if parents[p] == parent { children := children + [p]; }
    }
  }

  /** What the worklist of `Descendants` keeps: `done` processes have all their children found,
      and everything found was reached from a done process. */
  ghost predicate Reached(t: Table, pid: nat, found: seq<nat>, frontier: seq<nat>, done: set<nat>) {
    && (forall p | p in frontier :: p !in done && (p == pid || p in found))
    && (forall p | p in found :: p in t && p != pid && InTree(t, pid, p) && t[p].parent in done)
    && (forall p | p in t && t[p].parent in done :: p in found)
    && (forall p | p in found || p == pid :: p in done || p in frontier)
    && (forall p | p in done :: p == pid || p in found)
  }

  ghost predicate Explored(t: Table, pid: nat, found: seq<nat>, frontier: seq<nat>, done: set<nat>) {
    Distinct(found) && Distinct(frontier) && Reached(t, pid, found, frontier, done)
  }

  /** The children of the process looked at are new. */
  lemma ChildrenAreNew(t: Table, pid: nat, found: seq<nat>, frontier: seq<nat>, done: set<nat>, parent: nat, p: nat)
    requires WellFormed(t) && pid in t && pid != INIT && t[INIT].parent !in t
    requires Reached(t, pid, found, frontier, done) && parent in frontier && p in t && t[p].parent == parent
    ensures parent in t && parent !in done && p != pid && p !in found && InTree(t, pid, p)
  {
    ParentOutside(t, pid);
  }

  lemma ExploreNext(t: Table, pid: nat, found: seq<nat>, rest: seq<nat>, parent: nat, done: set<nat>, children: seq<nat>)
    requires WellFormed(t) && pid in t && pid != INIT && t[INIT].parent !in t
    requires Explored(t, pid, found, rest + [parent], done) && AreChildren(t, parent, children)
    ensures parent in t && parent !in done
    ensures Explored(t, pid, found + children, rest + children, done + {parent})
  {
    DistinctLast(rest, parent);
    assert (rest + [parent])[|rest|] == parent;
    AllChildrenAreNew(t, pid, found, rest + [parent], done, parent, children);
    ExploreFrom(t, pid, found, rest, parent, done, children);
  }

  lemma ExploreFrom(t: Table, pid: nat, found: seq<nat>, rest: seq<nat>, parent: nat, done: set<nat>, children: seq<nat>)
    requires Distinct(found) && Distinct(rest) && parent !in rest && AreChildren(t, parent, children)
    requires Reached(t, pid, found, rest + [parent], done)
    requires forall p | p in children :: p != pid && p !in found && p !in rest + [parent] && p !in done && InTree(t, pid, p)
    ensures Explored(t, pid, found + children, rest + children, done + {parent})
  {
    assert forall p | p in rest + [parent] :: p in rest || p == parent;
    DistinctAppend(found, children);
    DistinctAppend(rest, children);
    ReachedNext(t, pid, found, rest, parent, done, children);
  }

  lemma AllChildrenAreNew(t: Table, pid: nat, found: seq<nat>, frontier: seq<nat>, done: set<nat>, parent: nat, children: seq<nat>)
    requires WellFormed(t) && pid in t && pid != INIT && t[INIT].parent !in t
    requires Reached(t, pid, found, frontier, done) && parent in frontier && AreChildren(t, parent, children)
    ensures parent in t && parent !in done
    ensures forall p | p in children :: p != pid && p !in found && p !in frontier && p !in done && InTree(t, pid, p)
  {
    forall p | p in children
      ensures p != pid && p !in found && p !in frontier && p !in done && InTree(t, pid, p)
    {
      ChildrenAreNew(t, pid, found, frontier, done, parent, p);
    }
  }

  lemma DistinctLast(s: seq<nat>, last: nat)
    requires Distinct(s + [last])
    ensures Distinct(s) && last !in s
  {
    forall i, j | 0 <= i < j < |s| ensures s[i] != s[j] {
      assert (s + [last])[i] != (s + [last])[j];
    }
    forall i | 0 <= i < |s| ensures s[i] != last {
      assert (s + [last])[i] != (s + [last])[|s|];
    }
  }

  lemma ReachedNext(t: Table, pid: nat, found: seq<nat>, rest: seq<nat>, parent: nat, done: set<nat>, children: seq<nat>)
    requires Reached(t, pid, found, rest + [parent], done) && AreChildren(t, parent, children) && parent !in rest
    requires forall p | p in children :: p != pid && InTree(t, pid, p) && p !in done && p != parent
    ensures Reached(t, pid, found + children, rest + children, done + {parent})
  {
    assert forall p :: p in rest + [parent] <==> p in rest || p == parent;
  }

  lemma DistinctAppend(a: seq<nat>, b: seq<nat>)
    requires Distinct(a) && Distinct(b) && forall p | p in b :: p !in a
    ensures Distinct(a + b)
  {
    forall i, j | 0 <= i < j < |a + b| ensures (a + b)[i] != (a + b)[j] {
      assert i < |a| <= j ==> b[j - |a|] in b;
    }
  }

  lemma {:induction false} AllFound(t: Table, pid: nat, found: seq<nat>, done: set<nat>, p: nat)
    requires WellFormed(t) && pid in t && Explored(t, pid, found, [], done) && p in t && InTree(t, pid, p) && p != pid
    ensures p in found
    decreases t[p].born
  {
    if t[p].parent != pid {
      AllFound(t, pid, found, done, t[p].parent);
    }
  }

  /** Every process below `pid`, each once. The worklist ends because no process is its own
      ancestor. */
  method Descendants(ghost t: Table, parents: map<nat, nat>, pid: nat) returns (found: seq<nat>)
    requires WellFormed(t) && pid in t && pid != INIT && parents == map p | p in t :: t[p].parent
    requires t[INIT].parent !in t
    ensures Distinct(found)
    ensures forall p :: p in found <==> p in Tree(t, pid) && p != pid
  {
    found := [];
    var frontier := [pid];
    ghost var done: set<nat> := {};
    while frontier != []
      invariant Explored(t, pid, found, frontier, done) && done <= t.Keys
      decreases |t.Keys - done|
    {
      var parent := frontier[|frontier| - 1];
      var rest := frontier[..|frontier| - 1];
      var children := Children(t, parents, parent);
      assert frontier == rest + [parent];
      ExploreNext(t, pid, found, rest, parent, done, children);
      FewerLeft(t.Keys, done, parent);
      done := done + {parent};
      found, frontier := found + children, rest + children;
    }
    Closure(t, pid, found, done);
  }

  lemma FewerLeft(all: set<nat>, done: set<nat>, p: nat)
    requires p in all && p !in done
    ensures |all - (done + {p})| < |all - done|
  {
    assert all - done == (all - (done + {p})) + {p};
  }

  /** When nothing is left to look at, everything below `pid` is found. */
  lemma Closure(t: Table, pid: nat, found: seq<nat>, done: set<nat>)
    requires WellFormed(t) && pid in t && Explored(t, pid, found, [], done)
    ensures forall p :: p in found <==> p in Tree(t, pid) && p != pid
  {
    forall p | p in Tree(t, pid) && p != pid ensures p in found {
      AllFound(t, pid, found, done, p);
    }
  }
}
