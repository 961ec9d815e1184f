/** On a well-formed stream the summary's critical path is the optimum over the timeline,
    and it fits the run. */
module StreamTiming {
  import opened Text
  import opened Json
  import opened FoldAttempts
  import opened CriticalPath
  import opened Fold

  // ---- Well-formed streams -------------------------------------------------

  predicate Seen(rs: seq<Json>, kind: Kind, n: string) {
    exists r <- rs :: Names(r, kind, n)
  }

  /** Whether node `n` has an attempt started and not yet ended. */
  predicate AttemptOpen(rs: seq<Json>, n: string) {
    rs != [] &&
    var rec := rs[|rs| - 1];
    if Names(rec, KStarted, n) then true
    else if Names(rec, KOutcome, n) then false
    else AttemptOpen(rs[..|rs| - 1], n)
  }

  /** Whether a well-formed stream may continue with `rec`: offsets do not step back, a node
      is first ready before anything ends it, attempts start only on ready nodes, and
      attempts of one node do not overlap. */
  predicate Admissible(before: seq<Json>, rec: Json) {
    && (before != [] ==> OffsetOf(before[|before| - 1]) <= OffsetOf(rec))
    && (match NodeOf(rec)
        case None => true
        case Some(n) =>
          match KindOf(rec)
          case KReady => Seen(before, KReady, n) || !(Seen(before, KOutcome, n) || Seen(before, KTerminal, n))
          case KStarted => Seen(before, KReady, n)
          case KOutcome => Seen(before, KStarted, n) ==> AttemptOpen(before, n)
          case _ => true)
  }

  predicate WellFormed(rs: seq<Json>) {
    rs == [] || (WellFormed(rs[..|rs| - 1]) && Admissible(rs[..|rs| - 1], rs[|rs| - 1]))
  }

  // ---- Contributions as sums -----------------------------------------------

  /** Executing time of node `n` over `attempts`. */
  function ExecutedBy(attempts: seq<AttemptRecord>, n: string): nat {
    if attempts == [] then 0
    else
      var a := attempts[|attempts| - 1];
      ExecutedBy(attempts[..|attempts| - 1], n) + if a.node == n then a.phases.executing else 0
  }

  lemma ContributionsAreSums(attempts: seq<AttemptRecord>, n: string)
    ensures (if n in Contributions(attempts) then Contributions(attempts)[n] else 0) == ExecutedBy(attempts, n)
    ensures n in Contributions(attempts) <==> Covers(attempts, n)
  {
    if attempts != [] {
      var before, a := attempts[..|attempts| - 1], attempts[|attempts| - 1];
      ContributionsAreSums(before, n);
      assert attempts == before + [a];
      assert forall b :: b in attempts <==> b in before || b == a;
    }
  }

  lemma ZeroRowsAddNothing(attempts: seq<AttemptRecord>, m: nat, n: string)
    requires m <= |attempts|
    requires forall i :: m <= i < |attempts| ==> attempts[i].phases == ZERO_PHASES
    ensures ExecutedBy(attempts, n) == ExecutedBy(attempts[..m], n)
  {
    if m < |attempts| {
      ZeroRowsAddNothing(attempts[..|attempts| - 1], m, n);
      assert attempts[..|attempts| - 1][..m] == attempts[..m];
    } else {
      assert attempts[..m] == attempts;
    }
  }

  /** Coverage rows contribute nothing: only outcome-derived attempts do. */
  lemma CoverageContributesNothing(rs: seq<Json>, nodes: seq<string>, n: string)
    ensures ExecutedBy(AttemptsOf(rs, nodes), n) == ExecutedBy(ScanAll(rs).attempts, n)
  {
    hide AttemptsOf, ScanAll, ExecutedBy;
    AttemptsStartWithOutcomes(rs, nodes);
    ZeroRowsAddNothing(AttemptsOf(rs, nodes), OutcomeCount(rs), n);
    assert AttemptsOf(rs, nodes)[..OutcomeCount(rs)] == ScanAll(rs).attempts;
  }

  // ---- The invariant of the pass, per node ---------------------------------

  function LastOffset(rs: seq<Json>): nat {
    if rs == [] then 0 else OffsetOf(rs[|rs| - 1])
  }

  /** What the scan and the bounds agree on about node `n` after any well-formed prefix. */
  predicate NodeTimed(s: Scan, b: Bounds, open: bool, top: nat, n: string) {
    && (n in s.startedAt ==> n in b.readyAt && b.readyAt[n] <= s.startedAt[n] <= top)
    && (n in s.prevTerminalAt ==> n in b.terminalAt && s.prevTerminalAt[n] <= b.terminalAt[n])
    && (n in b.terminalAt ==> b.terminalAt[n] <= top)
    && (n in b.readyAt ==> b.readyAt[n] <= top)
    && (n in b.terminalAt && n in b.readyAt ==> b.readyAt[n] <= b.terminalAt[n])
    && (n in s.prevTerminalAt && n in b.readyAt ==> b.readyAt[n] <= s.prevTerminalAt[n])
    && (n !in s.startedAt || n !in s.prevTerminalAt ==> ExecutedBy(s.attempts, n) == 0)
    && (n in s.startedAt && n in s.prevTerminalAt ==>
          b.readyAt[n] + ExecutedBy(s.attempts, n) <= s.prevTerminalAt[n])
    && (open ==> n in s.startedAt && (n in s.prevTerminalAt ==> s.prevTerminalAt[n] <= s.startedAt[n]))
  }

  /** The maps' domains say what has been seen. */
  predicate DomainsSee(s: Scan, b: Bounds, rs: seq<Json>, n: string) {
    && (n in s.startedAt <==> Seen(rs, KStarted, n))
    && (n in b.readyAt <==> Seen(rs, KReady, n))
    && (n in s.prevTerminalAt <==> Seen(rs, KOutcome, n))
    && (n in b.terminalAt <==> Seen(rs, KOutcome, n) || Seen(rs, KTerminal, n))
  }

  lemma SeenStep(rs: seq<Json>, kind: Kind, n: string)
    requires rs != []
    ensures Seen(rs, kind, n) <==> Seen(rs[..|rs| - 1], kind, n) || Names(rs[|rs| - 1], kind, n)
  {
    hide Names;
    assert rs == rs[..|rs| - 1] + [rs[|rs| - 1]];
    assert forall r :: r in rs <==> r in rs[..|rs| - 1] || r == rs[|rs| - 1];
  }

  lemma {:induction false} DomainsAgree(rs: seq<Json>, n: string)
    ensures DomainsSee(ScanAll(rs), BoundsOf(rs), rs, n)
  {
    hide Seen, BuildAttemptRecord, OffsetOf, KindOf, NodeOf, ScanStep, BoundsStep;
    if rs == [] {
      NothingSeen(n);
    } else {
      DomainsAgree(rs[..|rs| - 1], n);
      SeenStep(rs, KStarted, n);
      SeenStep(rs, KReady, n);
      SeenStep(rs, KOutcome, n);
      SeenStep(rs, KTerminal, n);
      ScanDomainStep(ScanAll(rs[..|rs| - 1]), rs[|rs| - 1], n);
      BoundsDomainStep(BoundsOf(rs[..|rs| - 1]), rs[|rs| - 1], n);
    }
  }

  /** Which maps one record enters node `n` into. */
  lemma ScanDomainStep(s: Scan, rec: Json, n: string)
    ensures n in ScanStep(s, rec).startedAt <==> n in s.startedAt || Names(rec, KStarted, n)
    ensures n in ScanStep(s, rec).prevTerminalAt <==> n in s.prevTerminalAt || Names(rec, KOutcome, n)
  {
    hide ScanStep, OffsetOf, KindOf, NodeOf;
    ScanMaps(s, rec);
  }

  /** The two maps of the scan the timing argument follows. */
  lemma ScanMaps(s: Scan, rec: Json)
    ensures ScanStep(s, rec).startedAt ==
            if NodeOf(rec).Some? && KindOf(rec) == KStarted then s.startedAt[NodeOf(rec).value := OffsetOf(rec)]
                else s.startedAt
    ensures ScanStep(s, rec).prevTerminalAt ==
            if NodeOf(rec).Some? && KindOf(rec) == KOutcome then s.prevTerminalAt[NodeOf(rec).value := OffsetOf(rec)]
            else s.prevTerminalAt
  {
    hide BuildAttemptRecord, OffsetOf, KindOf, NodeOf;
    match NodeOf(rec)
    case None =>
    case Some(n) =>
      match KindOf(rec)
      case KStarted =>
      case KOutcome =>
      case _ =>
  }

  lemma BoundsDomainStep(b: Bounds, rec: Json, n: string)
    ensures var b' := BoundsStep(b, rec);
            && (n in b'.readyAt <==> n in b.readyAt || Names(rec, KReady, n))
            && (n in b'.terminalAt <==> n in b.terminalAt || Names(rec, KOutcome, n) || Names(rec, KTerminal, n))
  {
    hide OffsetOf, KindOf, NodeOf, Min, Max;
    if NodeOf(rec).Some? {
      match KindOf(rec)
      case KReady =>
      case KTerminal =>
      case KOutcome =>
      case _ => assert BoundsStep(b, rec) == b;
    }
  }

  lemma NothingSeen(n: string)
    ensures forall kind :: !Seen([], kind, n)
  {}

  lemma ExecutedStep(attempts: seq<AttemptRecord>, a: AttemptRecord, n: string)
    ensures ExecutedBy(attempts + [a], n) == ExecutedBy(attempts, n) + if a.node == n then a.phases.executing else 0
  {
    assert (attempts + [a])[..|attempts|] == attempts;
  }

  /** An attempt executes no longer than from its start to its outcome. */
  lemma BuiltAttempt(rec: Json, m: string, s: Scan)
    ensures var a := BuildAttemptRecord(rec, m, s);
            && a.node == m
            && a.phases.executing <= if m in s.startedAt then SaturatingSub(OffsetOf(rec), s.startedAt[m]) else 0
  {
    hide OffsetOf, WorkerOf, MetricsOf, ConsumedInputsOf, GetStr, GetNonNull;
  }

  lemma {:induction false} NodesStayTimed(rs: seq<Json>, n: string)
    requires WellFormed(rs)
    ensures NodeTimed(ScanAll(rs), BoundsOf(rs), AttemptOpen(rs, n), LastOffset(rs), n)
  {
    hide Seen, BuildAttemptRecord, OffsetOf, KindOf, NodeOf, NodeTimed, ScanStep, BoundsStep, ExecutedBy, Admissible;
    if rs == [] {
      NobodyTimed(n);
    } else {
      var before, rec := rs[..|rs| - 1], rs[|rs| - 1];
      NodesStayTimed(before, n);
      DomainsAgree(before, n);
      if NodeOf(rec) == Some(n) {
        OwnStep(before, rec, n);
      } else {
        ForeignStep(before, rec, n);
      }
    }
  }

  lemma NobodyTimed(n: string)
    ensures NodeTimed(ScanAll([]), BoundsOf([]), AttemptOpen([], n), LastOffset([]), n)
  {}

  /** A record of another node leaves node `n` as it was. */
  lemma ForeignStep(before: seq<Json>, rec: Json, n: string)
    requires NodeOf(rec) != Some(n) && Admissible(before, rec)
    requires NodeTimed(ScanAll(before), BoundsOf(before), AttemptOpen(before, n), LastOffset(before), n)
    ensures NodeTimed(ScanStep(ScanAll(before), rec), BoundsStep(BoundsOf(before), rec),
                      if Names(rec, KStarted, n) then true else if Names(rec, KOutcome, n) then false
                          else AttemptOpen(before, n),
                      OffsetOf(rec), n)
  {
    hide Seen, BuildAttemptRecord, OffsetOf, KindOf, ExecutedBy, AttemptOpen, ScanAll, BoundsOf;
    var s := ScanAll(before);
    if KindOf(rec) == KOutcome && NodeOf(rec).Some? {
      BuiltAttempt(rec, NodeOf(rec).value, s);
      ExecutedStep(s.attempts, BuildAttemptRecord(rec, NodeOf(rec).value, s), n);
    }
    assert LastOffset(before) <= OffsetOf(rec);
  }

  lemma OwnStep(before: seq<Json>, rec: Json, n: string)
    requires NodeOf(rec) == Some(n) && Admissible(before, rec)
    requires DomainsSee(ScanAll(before), BoundsOf(before), before, n)
    requires NodeTimed(ScanAll(before), BoundsOf(before), AttemptOpen(before, n), LastOffset(before), n)
    ensures NodeTimed(ScanStep(ScanAll(before), rec), BoundsStep(BoundsOf(before), rec),
                      if Names(rec, KStarted, n) then true else if Names(rec, KOutcome, n) then false
                          else AttemptOpen(before, n),
                      OffsetOf(rec), n)
  {
    hide Seen, BuildAttemptRecord, OffsetOf, KindOf, ExecutedBy, AttemptOpen, ScanAll, BoundsOf;
    var s := ScanAll(before);
    if KindOf(rec) == KOutcome {
      BuiltAttempt(rec, n, s);
      ExecutedStep(s.attempts, BuildAttemptRecord(rec, n, s), n);
    }
    assert LastOffset(before) <= OffsetOf(rec);
  }

  // ---- The theorems --------------------------------------------------------

  /** Every node's summed executing time fits between its readiness and its terminal offset. */
  lemma WellFormedIsWellTimed(rs: seq<Json>, nodes: seq<string>)
    requires WellFormed(rs)
    ensures WellTimed(TimelineOf(rs, AttemptsOf(rs, nodes)))
  {
    hide AttemptsOf, ScanAll, BoundsOf, AttemptOpen, Seen, Contributions, ExecutedBy, WellFormed;
    var attempts := AttemptsOf(rs, nodes);
    var t := TimelineOf(rs, attempts);
    forall n | n in Nodes(t)
      ensures if n in t.terminalAt then ReadyOf(t, n) + ContributionOf(t, n) <= t.terminalAt[n]
              else ContributionOf(t, n) == 0
    {
      ContributionsAreSums(attempts, n);
      CoverageContributesNothing(rs, nodes, n);
      NodesStayTimed(rs, n);
      DomainsAgree(rs, n);
    }
  }

  lemma {:induction false} TerminalsWithinRun(rs: seq<Json>)
    ensures forall n <- BoundsOf(rs).terminalAt.Keys :: BoundsOf(rs).terminalAt[n] <= MaxOffset(rs)
    ensures MaxOffset(rs) < U64_LIMIT
  {
    hide KindOf, NodeOf, OffsetOf;
    if rs != [] { TerminalsWithinRun(rs[..|rs| - 1]); }
  }

  /** **The reported critical path is exact for the timing order.** On every well-formed
      stream it is the largest summed executing time over all chains in which each node is
      terminal no later than the next is ready; it is at most the total elapsed time; and so
      no addition the pass makes can leave the range of a 64-bit integer. */
  lemma CriticalPathIsOptimal(rs: seq<Json>, nodes: seq<string>)
    requires WellFormed(rs)
    ensures var attempts := AttemptsOf(rs, nodes);
            var summary := SummaryOf(rs, attempts);
            && IsOptimum(TimelineOf(rs, attempts), summary.criticalPathNs)
            && summary.criticalPathNs <= summary.totalElapsedNs < U64_LIMIT
  {
    hide AttemptsOf, WellFormed, WellTimed, CriticalPathOf, IsOptimum, Contributions, BoundsOf;
    var t := TimelineOf(rs, AttemptsOf(rs, nodes));
    WellFormedIsWellTimed(rs, nodes);
    ForwardPassIsOptimal(t);
    TerminalsWithinRun(rs);
    CriticalPathFitsTheRun(t, MaxOffset(rs));
  }

  /** Every node's own contribution fits the run too, so summing it cannot overflow. */
  lemma ContributionsFitTheRun(rs: seq<Json>, nodes: seq<string>, n: string)
    requires WellFormed(rs)
    ensures ExecutedBy(AttemptsOf(rs, nodes), n) <= MaxOffset(rs) < U64_LIMIT
  {
    hide AttemptsOf, WellFormed, ScanAll, BoundsOf, AttemptOpen, ExecutedBy;
    CoverageContributesNothing(rs, nodes, n);
    NodesStayTimed(rs, n);
    TerminalsWithinRun(rs);
  }
}
