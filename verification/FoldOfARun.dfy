/** End to end: what the fold of a writer's accepted bytes recovers of what was emitted. */
module FoldOfARun {
  import opened Text
  import opened Json
  import opened EventStream
  import opened ReadRecords
  import opened FoldAttempts
  import opened Fold
  import FoldHistory
  import opened FoldSubmissions
  import opened FoldPayloads

  function OutputsEmitted(emissions: seq<Call>): seq<OutputProducedRecord>
    requires AllEmissions(emissions)
  {
    if emissions == [] then []
    else
      var last := emissions[|emissions| - 1];
      assert last in emissions;
      OutputsEmitted(emissions[..|emissions| - 1]) + if last.event.OutputProduced? then [last.event.output] else []
  }

  function OutcomesEmitted(emissions: seq<Call>): seq<AttemptOutcomeRecord>
    requires AllEmissions(emissions)
  {
    if emissions == [] then []
    else
      var last := emissions[|emissions| - 1];
      assert last in emissions;
      OutcomesEmitted(emissions[..|emissions| - 1]) + if last.event.AttemptOutcome? then [last.event.outcome] else []
  }

  predicate RecoversOutput(o: ProducedOutput, r: OutputProducedRecord) {
    var sizeBytes := match r.sizeBytes case Some(n) => Some(n as nat) case None => None;
    o == ProducedOutput(r.node, r.attempt, r.uri, r.contentHash, sizeBytes, r.outputKind,
                        r.producedAtOffsetNs, r.originatingRun)
  }

  /** Every field but the phases, which are the fold's own. */
  predicate RecoversOutcome(a: AttemptRecord, r: AttemptOutcomeRecord) {
    a == AttemptRecord(
           r.node, r.attempt, r.status, a.phases, UnwrapOr(r.worker, UNKNOWN_WORKER), r.message, Denulled(r.error),
           if r.metrics.Some? && r.metrics.value.JObj? then r.metrics.value else JObj(map[]),
           Denulled(r.costDeclared), Denulled(r.costMeasured), Denulled(r.durableReference),
           Denulled(r.durableReferenceMeta), r.satisfiedFromRun, r.originatingNode, InputValues(r.inputs))
  }

  predicate AllOutputs(os: seq<ProducedOutput>, rs: seq<OutputProducedRecord>) {
    |os| == |rs| && forall i :: 0 <= i < |rs| ==> RecoversOutput(os[i], rs[i])
  }

  predicate AllOutcomes(attempts: seq<AttemptRecord>, rs: seq<AttemptOutcomeRecord>) {
    |attempts| == |rs| && forall i :: 0 <= i < |rs| ==> RecoversOutcome(attempts[i], rs[i])
  }

  lemma NumberedLast(runId: string, emissions: seq<Call>)
    requires AllEmissions(emissions) && emissions != []
    ensures var k := |emissions| - 1;
            && AllEmissions(emissions[..k]) && emissions[k].Emit?
            && Numbered(runId, emissions)[..k] == Numbered(runId, emissions[..k])
            && Numbered(runId, emissions)[k] == RecordOfCall(runId, k, emissions[k])
  {
    hide RecordOfCall;
    var k := |emissions| - 1;
    assert emissions[k] in emissions && forall c <- emissions[..k] :: c in emissions;
  }

  function WrittenCall(runId: string, k: nat, c: Call): Written
    requires c.Emit?
  {
    Written(runId, k, c.wall, c.offsetNs, c.event)
  }

  lemma OneOutput(runId: string, k: nat, c: Call)
    requires c.Emit?
    ensures KindOf(RecordOfCall(runId, k, c)) == KOutput <==> c.event.OutputProduced?
    ensures c.event.OutputProduced? ==> RecoversOutput(OutputOf(RecordOfCall(runId, k, c)), c.event.output)
  {
    hide KindOf, OutputOf, RecordOf;
    HeaderRecovered(runId, k, c.wall, c.offsetNs, c.event);
    if c.event.OutputProduced? { OutputRecovered(WrittenCall(runId, k, c), c.event.output); }
  }

  lemma {:induction false} OutputsFold(runId: string, emissions: seq<Call>)
    requires AllEmissions(emissions)
    ensures AllOutputs(OutputsOf(Numbered(runId, emissions)), OutputsEmitted(emissions))
  {
    hide RecoversOutput, RecordOfCall, KindOf, OutputOf, Numbered, AllEmissions;
    if emissions != [] {
      var k := |emissions| - 1;
      NumberedLast(runId, emissions);
      OutputsFold(runId, emissions[..k]);
      OneOutput(runId, k, emissions[k]);
    }
  }

  /** One emission adds the attempt it reports, and none other adds one. */
  lemma OneOutcome(runId: string, k: nat, c: Call, s: Scan)
    requires c.Emit?
    ensures var after := ScanStep(s, RecordOfCall(runId, k, c)).attempts;
            && (!c.event.AttemptOutcome? ==> after == s.attempts)
            && (c.event.AttemptOutcome? ==>
                  |after| == |s.attempts| + 1 && after[..|s.attempts|] == s.attempts
                  && RecoversOutcome(after[|s.attempts|], c.event.outcome))
  {
    hide KindOf, NodeOf, OffsetOf, RecordOf, BuildAttemptRecord, Denulled;
    var rec := RecordOfCall(runId, k, c);
    HeaderRecovered(runId, k, c.wall, c.offsetNs, c.event);
    if c.event.AttemptOutcome? {
      AttemptOutcomeRecovered(WrittenCall(runId, k, c), c.event.outcome, s);
    } else {
      OnlyOutcomesAdd(s, rec);
    }
  }

  lemma OnlyOutcomesAdd(s: Scan, rec: Json)
    requires KindOf(rec) != KOutcome
    ensures ScanStep(s, rec).attempts == s.attempts
  {
    hide KindOf, NodeOf, OffsetOf, BuildAttemptRecord;
  }

  lemma {:induction false} OutcomesFold(runId: string, emissions: seq<Call>)
    requires AllEmissions(emissions)
    ensures AllOutcomes(ScanAll(Numbered(runId, emissions)).attempts, OutcomesEmitted(emissions))
  {
    hide RecoversOutcome, RecordOfCall, ScanStep, Numbered, AllEmissions;
    if emissions != [] {
      var k := |emissions| - 1;
      NumberedLast(runId, emissions);
      OutcomesFold(runId, emissions[..k]);
      OneOutcome(runId, k, emissions[k], ScanAll(Numbered(runId, emissions[..k])));
    }
  }

  predicate Starts(emissions: seq<Call>)
    requires AllEmissions(emissions)
  {
    exists c <- emissions :: c.event.RunStarted?
  }

  lemma {:induction false} StartFolds(runId: string, emissions: seq<Call>)
    requires AllEmissions(emissions)
    ensures FirstOf(Numbered(runId, emissions), KRunStarted).Some? <==> Starts(emissions)
  {
    hide RecordOfCall, KindOf, FirstOf, Numbered, AllEmissions, RecordOf;
    if emissions == [] {
      NoStart(runId);
    } else {
      var k, rs := |emissions| - 1, Numbered(runId, emissions);
      var c := emissions[k];
      NumberedLast(runId, emissions);
      StartFolds(runId, emissions[..k]);
      OneStart(runId, k, c);
      FoldHistory.FirstOfAppend(rs[..k], rs[k], KRunStarted);
      assert rs == rs[..k] + [rs[k]] && emissions == emissions[..k] + [c];
    }
  }

  lemma NoStart(runId: string)
    ensures FirstOf(Numbered(runId, []), KRunStarted) == None
  {}

  lemma OneStart(runId: string, k: nat, c: Call)
    requires c.Emit?
    ensures KindOf(RecordOfCall(runId, k, c)) == KRunStarted <==> c.event.RunStarted?
  {
    hide KindOf, RecordOf;
    HeaderRecovered(runId, k, c.wall, c.offsetNs, c.event);
  }

  /** The fold exists exactly when a run-started was emitted. Unless the run failed before
      execution it lists, in order and field for field, exactly the outputs emitted, and its
      attempts start with exactly the outcomes emitted. */
  predicate Reflects(folded: Result<RunArtifact, FoldError>, emissions: seq<Call>)
    requires AllEmissions(emissions)
  {
    && (folded.Ok? <==> Starts(emissions))
    && (folded.Ok? && !PreExecution(folded.value.overallOutcome) ==>
          && AllOutputs(folded.value.outputs, OutputsEmitted(emissions))
          && |OutcomesEmitted(emissions)| <= |folded.value.attempts|
          && AllOutcomes(folded.value.attempts[..|OutcomesEmitted(emissions)|], OutcomesEmitted(emissions)))
  }

  /** **What is accepted is folded.** After any run of the writer over a sink that may fail at
      any call, the fold of the accepted bytes reflects exactly the accepted emissions. */
  lemma AcceptedIsFolded(runId: string, calls: seq<Call>, nodes: seq<string>)
    ensures AllEmissions(Accepted(calls))
    ensures Reflects(FoldStream(Joined(Run(runId, calls).lines), nodes), Accepted(calls))
  {
    hide Run, Joined, Numbered, Accepted, FoldStream, Reflects, Read;
    FoldHistory.ReadWhole(runId, calls);
    NumberedReflect(runId, Accepted(calls), Joined(Run(runId, calls).lines), nodes);
  }

  lemma NumberedReflect(runId: string, emissions: seq<Call>, bytes: string, nodes: seq<string>)
    requires AllEmissions(emissions) && Read(bytes) == Ok(ReadStream(Numbered(runId, emissions), false))
    ensures Reflects(FoldStream(bytes, nodes), emissions)
  {
    hide Numbered, AllOutputs, AllOutcomes, FirstOf, PreExecution, FoldStream, Read, AllEmissions, OutputsOf, ScanAll,
      Starts;
    WholeFold(bytes, Numbered(runId, emissions), nodes);
    StartFolds(runId, emissions);
    OutputsFold(runId, emissions);
    OutcomesFold(runId, emissions);
    OutcomesSized(ScanAll(Numbered(runId, emissions)).attempts, OutcomesEmitted(emissions));
  }

  lemma OutcomesSized(attempts: seq<AttemptRecord>, rs: seq<AttemptOutcomeRecord>)
    requires AllOutcomes(attempts, rs)
    ensures |attempts| == |rs|
  {}

  lemma WholeFold(bytes: string, rs: seq<Json>, nodes: seq<string>)
    requires Read(bytes) == Ok(ReadStream(rs, false))
    ensures var folded := FoldStream(bytes, nodes);
            && (folded.Ok? <==> FirstOf(rs, KRunStarted).Some?)
            && (folded.Ok? && !PreExecution(folded.value.overallOutcome) ==>
                  && folded.value.outputs == OutputsOf(rs)
                  && |ScanAll(rs).attempts| <= |folded.value.attempts|
                  && folded.value.attempts[..|ScanAll(rs).attempts|] == ScanAll(rs).attempts)
  {
    hide Read, FirstOf, PreExecution, OutputsOf, AttemptsOf, SummaryOf, SubmissionsOf, ScanAll, HeaderOf, ErrorsOf,
      OverallOutcome;
    AttemptsStartWithOutcomes(rs, nodes);
  }
}
