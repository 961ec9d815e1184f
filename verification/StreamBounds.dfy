/** What the timeline read off a stream means, which dependencies it is sure to see, and a
    stream whose critical path it undercounts. */
module StreamBounds {
  import opened Text
  import opened Json
  import opened FoldAttempts
  import opened CriticalPath
  import opened Fold
  import opened StreamTiming

  // ---- First readiness and last end ----------------------------------------

  predicate NonDecreasing(rs: seq<Json>) {
    forall i, j :: 0 <= i < j < |rs| ==> OffsetOf(rs[i]) <= OffsetOf(rs[j])
  }

  lemma {:induction false} WellFormedNeverStepsBack(rs: seq<Json>)
    requires WellFormed(rs)
    ensures NonDecreasing(rs)
  {
    hide OffsetOf, KindOf, NodeOf, Seen, AttemptOpen;
    if rs != [] {
      var k := |rs| - 1;
      WellFormedNeverStepsBack(rs[..k]);
      forall i | 0 <= i < k ensures OffsetOf(rs[i]) <= OffsetOf(rs[k]) {
        assert OffsetOf(rs[..k][i]) <= OffsetOf(rs[..k][k - 1]);
      }
    }
  }

  /** An outcome or a terminal record of the node. */
  predicate Ends(rec: Json, n: string) { Names(rec, KOutcome, n) || Names(rec, KTerminal, n) }

  predicate FirstReady(rs: seq<Json>, n: string, i: int) {
    0 <= i < |rs| && Names(rs[i], KReady, n) && forall j :: 0 <= j < i ==> !Names(rs[j], KReady, n)
  }

  predicate LastEnd(rs: seq<Json>, n: string, i: int) {
    0 <= i < |rs| && Ends(rs[i], n) && forall j :: i < j < |rs| ==> !Ends(rs[j], n)
  }

  lemma BoundsOfReady(b: Bounds, rec: Json, n: string)
    ensures !Names(rec, KReady, n) ==>
              (n in BoundsStep(b, rec).readyAt <==> n in b.readyAt)
              && (n in b.readyAt ==> BoundsStep(b, rec).readyAt[n] == b.readyAt[n])
    ensures Names(rec, KReady, n) ==>
              n in BoundsStep(b, rec).readyAt
              && BoundsStep(b, rec).readyAt[n] == if n in b.readyAt then Min(b.readyAt[n], OffsetOf(rec))
                  else OffsetOf(rec)
  {
    hide KindOf, NodeOf, OffsetOf;
  }

  lemma BoundsOfEnd(b: Bounds, rec: Json, n: string)
    requires n in b.terminalAt ==> b.terminalAt[n] <= OffsetOf(rec)
    ensures !Ends(rec, n) ==>
              (n in BoundsStep(b, rec).terminalAt <==> n in b.terminalAt)
              && (n in b.terminalAt ==> BoundsStep(b, rec).terminalAt[n] == b.terminalAt[n])
    ensures Ends(rec, n) ==> n in BoundsStep(b, rec).terminalAt && BoundsStep(b, rec).terminalAt[n] == OffsetOf(rec)
  {
    hide KindOf, NodeOf, OffsetOf;
  }

  lemma {:induction false} NeverReady(rs: seq<Json>, n: string)
    requires forall j :: 0 <= j < |rs| ==> !Names(rs[j], KReady, n)
    ensures n !in BoundsOf(rs).readyAt
  {
    hide BoundsStep, Names;
    if rs != [] {
      var k := |rs| - 1;
      forall j | 0 <= j < k ensures !Names(rs[..k][j], KReady, n) { assert rs[..k][j] == rs[j]; }
      NeverReady(rs[..k], n);
      BoundsOfReady(BoundsOf(rs[..k]), rs[k], n);
    }
  }

  lemma {:induction false} EndsBelow(rs: seq<Json>, n: string, most: nat)
    requires forall j :: 0 <= j < |rs| ==> OffsetOf(rs[j]) <= most
    ensures n in BoundsOf(rs).terminalAt ==> BoundsOf(rs).terminalAt[n] <= most
  {
    hide OffsetOf, KindOf, NodeOf;
    if rs != [] {
      var k := |rs| - 1;
      forall j | 0 <= j < k ensures OffsetOf(rs[..k][j]) <= most { assert rs[..k][j] == rs[j]; }
      EndsBelow(rs[..k], n, most);
    }
  }

  /** While offsets never step back, a node's readiness is that of its first `node-ready`. */
  lemma {:induction false} ReadinessIsFirst(rs: seq<Json>, n: string, i: int)
    requires NonDecreasing(rs) && FirstReady(rs, n, i)
    ensures n in BoundsOf(rs).readyAt && BoundsOf(rs).readyAt[n] == OffsetOf(rs[i])
  {
    hide BoundsStep, OffsetOf, Names;
    var k := |rs| - 1;
    var before := rs[..k];
    forall j | 0 <= j < k ensures before[j] == rs[j] {}
    BoundsOfReady(BoundsOf(before), rs[k], n);
    if i == k {
      NeverReady(before, n);
    } else {
      ReadinessIsFirst(before, n, i);
    }
  }

  /** And its terminal offset is that of its last outcome or `node-terminal`. */
  lemma {:induction false} TerminalIsLast(rs: seq<Json>, n: string, i: int)
    requires NonDecreasing(rs) && LastEnd(rs, n, i)
    ensures n in BoundsOf(rs).terminalAt && BoundsOf(rs).terminalAt[n] == OffsetOf(rs[i])
  {
    hide BoundsStep, OffsetOf, Ends;
    var k := |rs| - 1;
    var before := rs[..k];
    forall j | 0 <= j < k ensures before[j] == rs[j] {}
    EndsBelow(before, n, OffsetOf(rs[k]));
    BoundsOfEnd(BoundsOf(before), rs[k], n);
    if i < k { TerminalIsLast(before, n, i); }
  }

  /** A node has a bound exactly when some record gives it one. */
  lemma {:induction false} BoundedWhenSeen(rs: seq<Json>, n: string)
    ensures n in BoundsOf(rs).readyAt <==> Seen(rs, KReady, n)
    ensures n in BoundsOf(rs).terminalAt <==> Seen(rs, KOutcome, n) || Seen(rs, KTerminal, n)
  {
    hide BoundsStep, Names, Seen;
    if rs == [] {
      NothingSeen(n);
    } else {
      var k := |rs| - 1;
      BoundedWhenSeen(rs[..k], n);
      BoundsDomainStep(BoundsOf(rs[..k]), rs[k], n);
      SeenStep(rs, KReady, n);
      SeenStep(rs, KOutcome, n);
      SeenStep(rs, KTerminal, n);
    }
  }

  // ---- Real dependencies ---------------------------------------------------

  /** What a dependency leaves in the stream: everything that ends `u` comes before anything
      that makes `v` ready. */
  ghost predicate EndsBeforeReady(rs: seq<Json>, u: string, v: string) {
    exists i, j :: LastEnd(rs, u, i) && FirstReady(rs, v, j) && i < j
  }

  /** Some record makes the node ready or ends it. */
  predicate Mentioned(rs: seq<Json>, n: string) {
    Seen(rs, KReady, n) || Seen(rs, KOutcome, n) || Seen(rs, KTerminal, n)
  }

  /** What ends `u` comes before what makes `v` ready or, where nothing does, before what ends
      `v`. A dependent no record mentions is bound by nothing. */
  ghost predicate EndsFirst(rs: seq<Json>, u: string, v: string) {
    Mentioned(rs, v) ==>
      if Seen(rs, KReady, v) then EndsBeforeReady(rs, u, v)
      else exists i, j :: LastEnd(rs, u, i) && LastEnd(rs, v, j) && i < j
  }

  function PathWork(attempts: seq<AttemptRecord>, path: seq<string>): nat {
    if path == [] then 0 else PathWork(attempts, path[..|path| - 1]) + ExecutedBy(attempts, path[|path| - 1])
  }

  lemma {:induction false} PathWorkIsWeight(rs: seq<Json>, attempts: seq<AttemptRecord>, path: seq<string>)
    ensures PathWork(attempts, path) == Weight(TimelineOf(rs, attempts), path)
  {
    hide BoundsOf, Contributions, ExecutedBy;
    if path != [] {
      PathWorkIsWeight(rs, attempts, path[..|path| - 1]);
      ContributionsAreSums(attempts, path[|path| - 1]);
    }
  }

  lemma DependencyPrecedes(rs: seq<Json>, attempts: seq<AttemptRecord>, u: string, v: string)
    requires NonDecreasing(rs) && EndsFirst(rs, u, v) && Mentioned(rs, v)
    ensures Linked(TimelineOf(rs, attempts), u, v) && Mentioned(rs, u)
  {
    hide BoundsOf, Contributions, OffsetOf, Names, Ends, Seen;
    BoundedWhenSeen(rs, u);
    BoundedWhenSeen(rs, v);
    if Seen(rs, KReady, v) {
      var i, j :| LastEnd(rs, u, i) && FirstReady(rs, v, j) && i < j;
      ReadinessIsFirst(rs, v, j);
      TerminalIsLast(rs, u, i);
    } else {
      var i, j :| LastEnd(rs, u, i) && LastEnd(rs, v, j) && i < j;
      TerminalIsLast(rs, v, j);
      TerminalIsLast(rs, u, i);
    }
  }

  predicate Linked(t: Timeline, u: string, v: string) { Precedes(t, u, v) && u in Nodes(t) && v in Nodes(t) }

  lemma PathIsChain(rs: seq<Json>, attempts: seq<AttemptRecord>, deps: set<(string, string)>, path: seq<string>)
    requires NonDecreasing(rs) && |path| >= 2 && Mentioned(rs, path[|path| - 1])
    requires forall d <- deps :: EndsFirst(rs, d.0, d.1)
    requires forall i :: 0 < i < |path| ==> (path[i - 1], path[i]) in deps
    ensures IsChain(TimelineOf(rs, attempts), path)
  {
    hide NonDecreasing, EndsFirst, Precedes, Nodes, TimelineOf, IsChain, Mentioned;
    var t := TimelineOf(rs, attempts);
    forall i | 0 < i < |path| ensures Linked(t, path[i - 1], path[i]) {
      AllMentioned(rs, attempts, deps, path, i);
      var d := (path[i - 1], path[i]);
      assert d in deps;
      DependencyPrecedes(rs, attempts, d.0, d.1);
    }
    LinkedIsChain(t, path);
  }

  lemma {:induction false} AllMentioned(rs: seq<Json>, attempts: seq<AttemptRecord>, deps: set<(string, string)>,
          path: seq<string>, i: nat)
    requires NonDecreasing(rs) && i < |path| && Mentioned(rs, path[|path| - 1])
    requires forall d <- deps :: EndsFirst(rs, d.0, d.1)
    requires forall i :: 0 < i < |path| ==> (path[i - 1], path[i]) in deps
    ensures Mentioned(rs, path[i])
    decreases |path| - i
  {
    hide NonDecreasing, EndsFirst, Linked, Mentioned;
    if i + 1 < |path| {
      AllMentioned(rs, attempts, deps, path, i + 1);
      var d := (path[i], path[i + 1]);
      assert (path[i + 1 - 1], path[i + 1]) in deps;
      DependencyPrecedes(rs, attempts, d.0, d.1);
    }
  }

  lemma LinkedIsChain(t: Timeline, path: seq<string>)
    requires |path| >= 2 && forall i :: 0 < i < |path| ==> Linked(t, path[i - 1], path[i])
    ensures IsChain(t, path)
  {
    hide Precedes, Nodes;
    forall n | n in path ensures n in Nodes(t) {
      var i :| 0 <= i < |path| && path[i] == n;
      var k := if i == 0 then 1 else i;
      assert Linked(t, path[k - 1], path[k]);
    }
  }

  /** A node no record mentions has done no work. */
  lemma UnmentionedIsIdle(rs: seq<Json>, attempts: seq<AttemptRecord>, n: string)
    requires WellTimed(TimelineOf(rs, attempts)) && !Mentioned(rs, n)
    ensures ContributionOf(TimelineOf(rs, attempts), n) == 0
  {
    hide BoundsOf, Contributions, Seen, ReadyOf;
    BoundedWhenSeen(rs, n);
  }

  lemma {:induction false} PathIsBounded(rs: seq<Json>, attempts: seq<AttemptRecord>, deps: set<(string, string)>,
          path: seq<string>)
    requires NonDecreasing(rs) && WellTimed(TimelineOf(rs, attempts))
    requires forall d <- deps :: EndsFirst(rs, d.0, d.1)
    requires forall i :: 0 < i < |path| ==> (path[i - 1], path[i]) in deps
    ensures Weight(TimelineOf(rs, attempts), path) <= CriticalPathOf(TimelineOf(rs, attempts))
  {
    hide NonDecreasing, EndsFirst, WellTimed, TimelineOf, CriticalPathOf, IsChain, Nodes, Mentioned, ContributionOf;
    var t := TimelineOf(rs, attempts);
    if path != [] {
      var n := |path| - 1;
      if !Mentioned(rs, path[n]) {
        UnmentionedIsIdle(rs, attempts, path[n]);
        PathIsBounded(rs, attempts, deps, path[..n]);
      } else {
        ForwardPassIsOptimal(t);
        if n == 0 { SoleChain(t, path) by { MentionedIsNode(rs, attempts, path[0]); } } else {
          PathIsChain(rs, attempts, deps, path);
        }
      }
    }
  }

  lemma MentionedIsNode(rs: seq<Json>, attempts: seq<AttemptRecord>, n: string)
    requires Mentioned(rs, n)
    ensures n in Nodes(TimelineOf(rs, attempts))
  {
    hide BoundsOf, Contributions, Seen;
    BoundedWhenSeen(rs, n);
  }

  /** **No real dependency path outweighs the critical path.** On a well-formed stream where
      each dependency ended before its dependent became ready, or ended if it never did, the
      executing time along any dependency path is at most the figure reported. */
  lemma NoDependencyPathOutweighs(rs: seq<Json>, nodes: seq<string>, deps: set<(string, string)>, path: seq<string>)
    requires WellFormed(rs)
    requires forall d <- deps :: EndsFirst(rs, d.0, d.1)
    requires forall i :: 0 < i < |path| ==> (path[i - 1], path[i]) in deps
    ensures var attempts := AttemptsOf(rs, nodes);
            PathWork(attempts, path) <= SummaryOf(rs, attempts).criticalPathNs
  {
    hide WellFormed, AttemptsOf, EndsFirst, Nodes, CriticalPathOf, TimelineOf, WellTimed, Weight, NonDecreasing;
    var attempts := AttemptsOf(rs, nodes);
    WellFormedNeverStepsBack(rs);
    WellFormedIsWellTimed(rs, nodes);
    PathWorkIsWeight(rs, attempts, path);
    PathIsBounded(rs, attempts, deps, path);
    SummaryHasPath(rs, attempts);
  }

  lemma SummaryHasPath(rs: seq<Json>, attempts: seq<AttemptRecord>)
    ensures SummaryOf(rs, attempts).criticalPathNs == CriticalPathOf(TimelineOf(rs, attempts))
  {
    hide CriticalPathOf, TimelineOf, PinnedBy, Retained, PeakResidency, MaxOffset;
  }

  lemma SoleChain(t: Timeline, path: seq<string>)
    requires |path| == 1 && path[0] in Nodes(t)
    ensures IsChain(t, path)
  {
    hide Nodes;
  }

  // ---- A stream it undercounts ---------------------------------------------

  predicate Is(rec: Json, kind: Kind, node: Option<string>, offset: nat) {
    KindOf(rec) == kind && NodeOf(rec) == node && OffsetOf(rec) == offset
  }

  /** A node's attempt runs before its `node-ready`, which comes with that of its dependent. */
  predicate LateReady(rs: seq<Json>) {
    && |rs| == 7
    && Is(rs[0], KRunStarted, None, 0)
    && Is(rs[1], KStarted, Some("b"), 0)
    && Is(rs[2], KOutcome, Some("b"), 1)
    && Is(rs[3], KReady, Some("b"), 1)
    && Is(rs[4], KReady, Some("a"), 1)
    && Is(rs[5], KStarted, Some("a"), 1)
    && Is(rs[6], KOutcome, Some("a"), 2)
  }

  lemma Steps(rs: seq<Json>, k: nat)
    requires k < |rs|
    ensures ScanAll(rs[..k + 1]) == ScanStep(ScanAll(rs[..k]), rs[k])
    ensures BoundsOf(rs[..k + 1]) == BoundsStep(BoundsOf(rs[..k]), rs[k])
  {
    hide ScanStep, BoundsStep;
    assert rs[..k + 1][..k] == rs[..k];
  }

  lemma Nothing(rs: seq<Json>)
    ensures ScanAll(rs[..0]) == SCAN_START && BoundsOf(rs[..0]) == Bounds(map[], map[])
  {}

  lemma LateBounds(rs: seq<Json>)
    requires LateReady(rs)
    ensures BoundsOf(rs) == Bounds(map["a" := 1, "b" := 1], map["a" := 2, "b" := 1])
  {
    hide KindOf, NodeOf, OffsetOf, BoundsOf, ScanAll, ScanStep;
    FirstBounds(rs);
    Steps(rs, 4);
    assert BoundsOf(rs[..5]) == Bounds(map["a" := 1, "b" := 1], map["b" := 1]);
    Steps(rs, 5);
    Steps(rs, 6);
    assert rs[..7] == rs;
  }

  lemma FirstBounds(rs: seq<Json>)
    requires LateReady(rs)
    ensures BoundsOf(rs[..4]) == Bounds(map["b" := 1], map["b" := 1])
  {
    hide KindOf, NodeOf, OffsetOf, BoundsOf, ScanAll, ScanStep;
    Nothing(rs);
    Steps(rs, 0);
    Steps(rs, 1);
    Steps(rs, 2);
    assert BoundsOf(rs[..3]) == Bounds(map[], map["b" := 1]);
    Steps(rs, 3);
  }

  /** An attempt's executing time when nothing but its start is inside its window. */
  lemma ExecutedOnly(rec: Json, n: string, s: Scan, start: nat, end: nat)
    requires OffsetOf(rec) == end && start <= end && Lookup(s.startedAt, n) == Some(start)
    requires Lookup(s.readyAt, n).Some? ==> Lookup(s.readyAt, n).value <= start
    requires Lookup(s.admittedAt, n).None? && Lookup(s.prevTerminalAt, n).None?
    ensures BuildAttemptRecord(rec, n, s).node == n && BuildAttemptRecord(rec, n, s).phases.executing == end - start
  {
    hide OffsetOf, WorkerOf, MetricsOf, ConsumedInputsOf;
    OrdinaryAttemptOnlyExecutes(UnwrapOr(GetU32(rec, "attempt"), 1), end, Lookup(s.readyAt, n), None, start, None);
  }

  lemma LateScan(rs: seq<Json>)
    requires LateReady(rs)
    ensures ScanAll(rs).terminal == map[] && |ScanAll(rs).attempts| == 2
    ensures ScanAll(rs).attempts[0].node == "b" && ScanAll(rs).attempts[0].phases.executing == 1
    ensures ScanAll(rs).attempts[1].node == "a" && ScanAll(rs).attempts[1].phases.executing == 1
  {
    hide KindOf, NodeOf, OffsetOf, BoundsOf, ScanAll, BoundsStep, BuildAttemptRecord;
    var first := FirstScan(rs);
    Steps(rs, 3);
    Steps(rs, 4);
    Steps(rs, 5);
    var s6 := ScanAll(rs[..6]);
    assert s6.readyAt == map["b" := 1, "a" := 1] && s6.startedAt == map["b" := 0, "a" := 1];
    Steps(rs, 6);
    ExecutedOnly(rs[6], "a", s6, 1, 2);
    assert rs[..7] == rs;
  }

  lemma FirstScan(rs: seq<Json>) returns (first: AttemptRecord)
    requires LateReady(rs)
    ensures first.node == "b" && first.phases.executing == 1
    ensures ScanAll(rs[..3]) ==
            Scan(map[], map[], map["b" := 0], map["b" := 1], [first], {"b"}, map[])
  {
    hide KindOf, NodeOf, OffsetOf, BoundsOf, ScanAll, BoundsStep, BuildAttemptRecord;
    Nothing(rs);
    Steps(rs, 0);
    Steps(rs, 1);
    var s2 := ScanAll(rs[..2]);
    assert s2 == SCAN_START.(startedAt := map["b" := 0]);
    Steps(rs, 2);
    ExecutedOnly(rs[2], "b", s2, 0, 1);
    first := BuildAttemptRecord(rs[2], "b", s2);
  }

  lemma LateAttempts(rs: seq<Json>)
    requires LateReady(rs)
    ensures AttemptsOf(rs, []) == ScanAll(rs).attempts
  {
    hide ScanAll;
    LateScan(rs);
    SortedIs({}, []);
    assert ScanAll(rs).terminal.Keys == {};
  }

  lemma LateContributions(rs: seq<Json>)
    requires LateReady(rs)
    ensures Contributions(AttemptsOf(rs, [])) == map["a" := 1, "b" := 1]
  {
    hide ScanAll, AttemptsOf;
    LateScan(rs);
    LateAttempts(rs);
    var attempts := ScanAll(rs).attempts;
    assert attempts[..1] == [attempts[0]] && attempts[..1][..0] == [];
    assert Contributions(attempts[..1]) == map["b" := 1];
  }

  lemma LateDependency(rs: seq<Json>)
    requires LateReady(rs)
    ensures NonDecreasing(rs) && EndsBeforeReady(rs, "b", "a")
  {
    hide KindOf, NodeOf, OffsetOf;
    assert LastEnd(rs, "b", 2) && FirstReady(rs, "a", 4);
  }

  /** **The figure can undercount.** On every such stream, whose offsets never step back, `b`
      ended before its dependent `a` became ready and the path of both worked two, while the
      reported critical path is one. */
  lemma LateReadyIsUndercounted(rs: seq<Json>)
    requires LateReady(rs)
    ensures NonDecreasing(rs) && EndsBeforeReady(rs, "b", "a") && TimelineOf(rs, AttemptsOf(rs, [])) == TIED
    ensures SummaryOf(rs, AttemptsOf(rs, [])).criticalPathNs == 1
    ensures IsPath(TIED, ["b", "a"]) && PathWork(AttemptsOf(rs, []), ["b", "a"]) == 2
  {
    hide AttemptsOf, BoundsOf, Contributions, CriticalPathOf, KindOf, NodeOf, OffsetOf, TIED, Weight, IsPath,
      LateReady, NonDecreasing, EndsBeforeReady;
    LateDependency(rs);
    LateBounds(rs);
    LateContributions(rs);
    TiedIs();
    TiedIsUndercounted();
    PathWorkIsWeight(rs, AttemptsOf(rs, []), ["b", "a"]);
  }

  lemma TiedIs()
    ensures TIED == Timeline(map["a" := 1, "b" := 1], map["a" := 1, "b" := 1], map["a" := 2, "b" := 1])
  {}

  function Rec(kind: string, node: string, offset: nat): Json {
    JObj(map["kind" := JStr(kind), "node" := JStr(node), "offset_ns" := JNum(offset)])
  }

  lemma RecIs(kind: string, node: string, offset: nat)
    requires offset < U64_LIMIT
    ensures Is(Rec(kind, node, offset), KindNamed(kind), Some(node), offset)
  {}

  function LateStream(): seq<Json> {
    [JObj(map["kind" := JStr("run-started"), "offset_ns" := JNum(0)]),
     Rec("attempt-started", "b", 0), Rec("attempt-outcome", "b", 1), Rec("node-ready", "b", 1),
     Rec("node-ready", "a", 1), Rec("attempt-started", "a", 1), Rec("attempt-outcome", "a", 2)]
  }

  /** There is one. */
  lemma LateReadyExists()
    ensures LateReady(LateStream())
  {
    hide Rec, OffsetOf, NodeOf, KindOf, KindNamed;
    StartIs();
    KindsNamed();
    RecIs("attempt-started", "b", 0);
    RecIs("attempt-outcome", "b", 1);
    RecIs("node-ready", "b", 1);
    RecIs("node-ready", "a", 1);
    RecIs("attempt-started", "a", 1);
    RecIs("attempt-outcome", "a", 2);
  }

  lemma KindsNamed()
    ensures KindNamed("attempt-started") == KStarted && KindNamed("attempt-outcome") == KOutcome
    ensures KindNamed("node-ready") == KReady
  {}

  lemma StartIs()
    ensures Is(JObj(map["kind" := JStr("run-started"), "offset_ns" := JNum(0)]), KRunStarted, None, 0)
  {}
}
