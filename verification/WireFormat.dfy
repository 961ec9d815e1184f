/** What each line of a stream says, by name: the record a reader finds in its bytes. */
module WireFormat {
  import opened Text
  import opened Json
  import opened JsonParser
  import opened Canonical
  import opened CanonicalProofs
  import opened TerminalStates
  import opened EventStream
  import opened FoldPayloads

  // ---- The published format ------------------------------------------------

  predicate Says(v: Json, name: string, value: Json) { Get(v, name) == Some(value) }

  predicate SaysText(v: Json, name: string, text: string) { Says(v, name, JStr(text)) }

  /** The text when there is one, else no such field. */
  predicate SaysIfAny(v: Json, name: string, text: Option<string>) {
    match text case Some(s) => SaysText(v, name, s) case None => Get(v, name) == None
  }

  predicate SaysNode(v: Json, node: string) { SaysText(v, "node", node) }

  predicate SaysAttempt(v: Json, node: string, attempt: nat) {
    SaysNode(v, node) && Says(v, "attempt", JNum(attempt))
  }

  /** The fields every record has, and its kind. */
  predicate SaysEnvelope(v: Json, runId: string, seqNo: nat, wall: string, offsetNs: nat) {
    && SaysText(v, "schema_version", "dagr.event-stream@1") && SaysText(v, "run_id", runId)
    && Says(v, "seq", JNum(seqNo)) && SaysText(v, "wall", wall) && Says(v, "offset_ns", JNum(offsetNs))
  }

  predicate SaysTexts(v: Json, name: string, m: map<string, string>) {
    match Get(v, name)
    case Some(JObj(fields)) => fields.Keys == m.Keys && forall k <- m.Keys :: fields[k] == JStr(m[k])
    case _ => false
  }

  /** The header of a run: fingerprints are always there, the interval and the lineage may be
      null. */
  predicate SaysHeader(v: Json, runId: string, h: RunStartedHeader) {
    && SaysText(v, "run_id", runId) && SaysText(v, "pipeline", h.pipeline)
    && SaysText(v, "fingerprint_structural",
                match h.fingerprintStructural case Some(f) => f case None => "unavailable")
    && SaysText(v, "fingerprint_policy", match h.fingerprintPolicy case Some(f) => f case None => "unavailable")
    && Says(v, "fingerprint_algorithm_version", JNum(h.fingerprintAlgorithmVersion))
    && SaysTexts(v, "parameters", h.parameters) && SaysTexts(v, "captured_environment", h.capturedEnv)
    && (match h.dataInterval
        case Some((start, end)) => Says(v, "data_interval", JObj(map["start" := JStr(start), "end" := JStr(end)]))
        case None => Says(v, "data_interval", JNull))
    && (match h.resumedFrom
        case Some(from) => Says(v, "resume_lineage", JObj(map["run_id" := JStr(from)]))
        case None => Says(v, "resume_lineage", JNull))
  }

  predicate IsInput(v: Json, i: ConsumedInput) {
    match i.contentHash
    case Some(hash) => v == JObj(map["uri" := JStr(i.uri), "content_hash" := JStr(hash)])
    case None => v == JObj(map["uri" := JStr(i.uri)])
  }

  predicate AreInputs(items: seq<Json>, inputs: seq<ConsumedInput>) {
    |items| == |inputs| && forall k :: 0 <= k < |items| ==> IsInput(items[k], inputs[k])
  }

  predicate SaysOutcome(v: Json, r: AttemptOutcomeRecord) {
    && SaysAttempt(v, r.node, r.attempt) && SaysText(v, "status", r.status)
    && SaysIfAny(v, "worker", r.worker) && SaysIfAny(v, "message", r.message)
    && SaysIfAny(v, "satisfied_from_run", r.satisfiedFromRun) && SaysIfAny(v, "originating_node", r.originatingNode)
    && Get(v, "error") == r.error && Get(v, "metrics") == r.metrics
    && Get(v, "cost_declared") == r.costDeclared && Get(v, "cost_measured") == r.costMeasured
    && Get(v, "durable_reference") == r.durableReference && Get(v, "durable_reference_meta") == r.durableReferenceMeta
    && (if r.inputs == [] then Get(v, "inputs") == None
        else GetArr(v, "inputs").Some? && AreInputs(GetArr(v, "inputs").value, r.inputs))
  }

  predicate SaysOutput(v: Json, r: OutputProducedRecord) {
    && SaysAttempt(v, r.node, r.attempt) && SaysText(v, "uri", r.uri)
    && Says(v, "produced_at_offset_ns", JNum(r.producedAtOffsetNs))
    && SaysText(v, "originating_run", r.originatingRun) && SaysIfAny(v, "content_hash", r.contentHash)
    && (match r.sizeBytes case Some(n) => Says(v, "size_bytes", JNum(n)) case None => Get(v, "size_bytes") == None)
    && SaysIfAny(v, "output_kind", r.outputKind)
  }

  predicate SaysSubmitted(v: Json, r: AttemptSubmittedRecord) {
    && SaysAttempt(v, r.node, r.attempt)
    && GetArr(v, "inputs").Some? && AreInputs(GetArr(v, "inputs").value, r.inputs)
    && SaysIfAny(v, "executor", r.executor) && SaysIfAny(v, "target_name", r.targetName)
    && SaysIfAny(v, "observed_name", r.observedName) && SaysIfAny(v, "observed_uid", r.observedUid)
    && SaysIfAny(v, "observed_host", r.observedHost)
    && SaysIfAny(v, "structural_fingerprint", r.structuralFingerprint)
    && SaysIfAny(v, "policy_hash", r.policyHash) && SaysIfAny(v, "tool_version", r.toolVersion)
    && SaysIfAny(v, "image_digest", r.imageDigest)
  }

  predicate SaysState(v: Json, s: TerminalState) {
    match s
    case Succeeded => SaysText(v, "state", "succeeded")
    case Failed => SaysText(v, "state", "failed")
    case TimedOut => SaysText(v, "state", "timed-out")
    case Skipped => SaysText(v, "state", "skipped")
    case UpstreamSkipped => SaysText(v, "state", "upstream-skipped")
    case UpstreamFailed => SaysText(v, "state", "upstream-failed")
    case Cancelled => SaysText(v, "state", "cancelled")
    case Abandoned => SaysText(v, "state", "abandoned")
    case SatisfiedFromPrior => SaysText(v, "state", "satisfied-from-prior")
  }

  predicate SaysRunOutcome(v: Json, o: RunOutcome) {
    match o
    case RunSucceeded => SaysText(v, "outcome", "succeeded")
    case RunFailed => SaysText(v, "outcome", "failed")
    case RunCancelled => SaysText(v, "outcome", "cancelled")
    case AssemblyFailed => SaysText(v, "outcome", "assembly-failed")
    case BootstrapFailed => SaysText(v, "outcome", "bootstrap-failed")
  }

  predicate SaysEvent(v: Json, e: Event, runId: string) {
    match e
    case RunStarted(h) =>
      SaysText(v, "kind", "run-started") && Get(v, "header").Some? && SaysHeader(Get(v, "header").value, runId, h)
    case NodeReady(node) => SaysText(v, "kind", "node-ready") && SaysNode(v, node)
    case NodeAdmitted(node) => SaysText(v, "kind", "node-admitted") && SaysNode(v, node)
    case AttemptStarted(node, attempt) => SaysText(v, "kind", "attempt-started") && SaysAttempt(v, node, attempt)
    case AttemptSucceeded(node, attempt) => SaysText(v, "kind", "attempt-succeeded") && SaysAttempt(v, node, attempt)
    case AttemptFailed(node, attempt) => SaysText(v, "kind", "attempt-failed") && SaysAttempt(v, node, attempt)
    case AttemptOutcome(r) => SaysText(v, "kind", "attempt-outcome") && SaysOutcome(v, r)
    case OutputProduced(r) => SaysText(v, "kind", "output-produced") && SaysOutput(v, r)
    case AttemptSubmitted(r) => SaysText(v, "kind", "attempt-submitted") && SaysSubmitted(v, r)
    case NodeTerminal(node, state) => SaysText(v, "kind", "node-terminal") && SaysNode(v, node) && SaysState(v, state)
    case ZombieAtExit(node, attempt) => SaysText(v, "kind", "zombie-at-exit") && SaysAttempt(v, node, attempt)
    case RunFinished(o) => SaysText(v, "kind", "run-finished") && SaysRunOutcome(v, o)
  }

  // ---- Every record is in it -----------------------------------------------

  lemma EnvelopeSaid(w: Written)
    ensures SaysEnvelope(w.Record(), w.runId, w.seqNo, w.wall, w.offsetNs)
    ensures SaysText(w.Record(), "kind", KindOfEvent(w.event))
  {
    hide RecordOf, KindOfEvent;
    EnvelopeSurvives(w.runId, w.seqNo, w.wall, w.offsetNs, w.event, "schema_version");
    EnvelopeSurvives(w.runId, w.seqNo, w.wall, w.offsetNs, w.event, "run_id");
    EnvelopeSurvives(w.runId, w.seqNo, w.wall, w.offsetNs, w.event, "seq");
    EnvelopeSurvives(w.runId, w.seqNo, w.wall, w.offsetNs, w.event, "wall");
    EnvelopeSurvives(w.runId, w.seqNo, w.wall, w.offsetNs, w.event, "offset_ns");
    EnvelopeSurvives(w.runId, w.seqNo, w.wall, w.offsetNs, w.event, "kind");
  }

  lemma HeaderSaid(h: RunStartedHeader, runId: string)
    ensures SaysHeader(RunStartedHeaderValue(h, runId), runId, h)
  {
    hide SaysTexts, StringMap;
    TextsSaid(RunStartedHeaderValue(h, runId), "parameters", h.parameters);
    TextsSaid(RunStartedHeaderValue(h, runId), "captured_environment", h.capturedEnv);
  }

  lemma TextsSaid(v: Json, name: string, m: map<string, string>)
    requires Says(v, name, StringMap(m))
    ensures SaysTexts(v, name, m)
  {}

  lemma InputsSaid(inputs: seq<ConsumedInput>)
    ensures AreInputs(InputValues(inputs), inputs)
  {}

  /** An optional text is said when it is there. */
  lemma IfAny(w: Written, i: nat, name: string, text: Option<string>)
    requires i < |w.Pairs()| && w.Pairs()[i] == (name, TextValue(text))
    ensures SaysIfAny(w.Record(), name, text)
  {
    hide RecordOf, PairsOfEvent, Get;
    JsonField(w, i, name, TextValue(text));
  }

  lemma OutcomeSaid(w: Written, r: AttemptOutcomeRecord)
    requires w.event == AttemptOutcome(r)
    ensures SaysOutcome(w.Record(), r)
  {
    hide RecordOf, PairsOfEvent, Get, SaysIfAny, AreInputs, TextValue;
    OutcomePairs(w, r);
    JsonField(w, 0, "node", Some(JStr(r.node)));
    JsonField(w, 1, "attempt", Some(JNum(r.attempt)));
    JsonField(w, 2, "status", Some(JStr(r.status)));
    IfAny(w, 3, "worker", r.worker);
    IfAny(w, 4, "message", r.message);
    IfAny(w, 5, "satisfied_from_run", r.satisfiedFromRun);
    IfAny(w, 6, "originating_node", r.originatingNode);
    JsonField(w, 7, "error", r.error);
    JsonField(w, 8, "metrics", r.metrics);
    JsonField(w, 9, "cost_declared", r.costDeclared);
    JsonField(w, 10, "cost_measured", r.costMeasured);
    JsonField(w, 11, "durable_reference", r.durableReference);
    JsonField(w, 12, "durable_reference_meta", r.durableReferenceMeta);
    JsonField(w, 13, "inputs", if r.inputs == [] then None else Some(JArr(InputValues(r.inputs))));
    InputsSaid(r.inputs);
  }

  lemma OutputSaid(w: Written, r: OutputProducedRecord)
    requires w.event == OutputProduced(r)
    ensures SaysOutput(w.Record(), r)
  {
    hide RecordOf, PairsOfEvent, Get, SaysIfAny, TextValue;
    OutputPairs(w, r);
    JsonField(w, 0, "node", Some(JStr(r.node)));
    JsonField(w, 1, "attempt", Some(JNum(r.attempt)));
    JsonField(w, 2, "uri", Some(JStr(r.uri)));
    JsonField(w, 3, "produced_at_offset_ns", Some(JNum(r.producedAtOffsetNs)));
    JsonField(w, 4, "originating_run", Some(JStr(r.originatingRun)));
    IfAny(w, 5, "content_hash", r.contentHash);
    JsonField(w, 6, "size_bytes", NumValue(r.sizeBytes));
    IfAny(w, 7, "output_kind", r.outputKind);
  }

  lemma SubmittedSaid(w: Written, r: AttemptSubmittedRecord)
    requires w.event == AttemptSubmitted(r)
    ensures SaysSubmitted(w.Record(), r)
  {
    hide RecordOf, PairsOfEvent, Get, SaysIfAny, AreInputs, TextValue;
    SubmittedPairs(w, r);
    JsonField(w, 0, "node", Some(JStr(r.node)));
    JsonField(w, 1, "attempt", Some(JNum(r.attempt)));
    JsonField(w, 2, "inputs", Some(JArr(InputValues(r.inputs))));
    InputsSaid(r.inputs);
    IfAny(w, 3, "executor", r.executor);
    IfAny(w, 4, "target_name", r.targetName);
    IfAny(w, 5, "observed_name", r.observedName);
    IfAny(w, 6, "observed_uid", r.observedUid);
    IfAny(w, 7, "observed_host", r.observedHost);
    IfAny(w, 8, "structural_fingerprint", r.structuralFingerprint);
    IfAny(w, 9, "policy_hash", r.policyHash);
    IfAny(w, 10, "tool_version", r.toolVersion);
    IfAny(w, 11, "image_digest", r.imageDigest);
  }

  lemma FirstPairs(w: Written)
    ensures w.event.RunStarted? ==>
              w.Pairs() == [("header", Some(RunStartedHeaderValue(w.event.header, w.runId)))]
    ensures w.event.NodeTerminal? ==>
              w.Pairs() == [("node", Some(JStr(w.event.node))), ("state", Some(JStr(StateName(w.event.state))))]
    ensures w.event.RunFinished? ==> w.Pairs() == [("outcome", Some(JStr(OutcomeName(w.event.runOutcome))))]
    ensures w.event.NodeReady? || w.event.NodeAdmitted? ==> w.Pairs() == [("node", Some(JStr(w.event.node)))]
    ensures w.event.AttemptStarted? || w.event.AttemptSucceeded? || w.event.AttemptFailed? || w.event.ZombieAtExit? ==>
              w.Pairs() == [("node", Some(JStr(w.event.node))), ("attempt", Some(JNum(w.event.attempt)))]
  {
    hide RunStartedHeaderValue, StateName, OutcomeName, AttemptOutcomePairs, OutputProducedPairs, AttemptSubmittedPairs;
  }

  /** The record of every event says it. */
  lemma EventSaid(w: Written)
    ensures SaysEvent(w.Record(), w.event, w.runId)
  {
    hide RecordOf, PairsOfEvent, Get, SaysOutcome, SaysOutput, SaysSubmitted, SaysHeader, RunStartedHeaderValue;
    EnvelopeSaid(w);
    FirstPairs(w);
    match w.event
    case RunStarted(h) =>
      JsonField(w, 0, "header", Some(RunStartedHeaderValue(h, w.runId)));
      HeaderSaid(h, w.runId);
    case AttemptOutcome(r) => OutcomeSaid(w, r);
    case OutputProduced(r) => OutputSaid(w, r);
    case AttemptSubmitted(r) => SubmittedSaid(w, r);
    case RunFinished(o) => JsonField(w, 0, "outcome", Some(JStr(OutcomeName(o))));
    case NodeTerminal(node, state) =>
      JsonField(w, 0, "node", Some(JStr(node)));
      JsonField(w, 1, "state", Some(JStr(StateName(state))));
    case NodeReady(node) => JsonField(w, 0, "node", Some(JStr(node)));
    case NodeAdmitted(node) => JsonField(w, 0, "node", Some(JStr(node)));
    case _ =>
      JsonField(w, 0, "node", Some(JStr(w.event.node)));
      JsonField(w, 1, "attempt", Some(JNum(w.event.attempt)));
  }

  /** **What the bytes say.** After any run of the writer, whatever failed, line `i` is one JSON
      text and a newline, and that text says what the `i`-th accepted emission was, under the
      published names: the schema, the run, the number `i`, the two clocks and the event. */
  lemma LineSaysItsEvent(runId: string, calls: seq<Call>, i: nat)
    requires i < |Run(runId, calls).lines|
    ensures |Accepted(calls)| == |Run(runId, calls).lines|
    ensures var line, c := Run(runId, calls).lines[i], Accepted(calls)[i];
            && c.Emit? && |line| > 0 && line[|line| - 1] == '\n'
            && ParseText(line[..|line| - 1]).Some?
            && var v := ParseText(line[..|line| - 1]).value;
               SaysEnvelope(v, runId, i, c.wall, c.offsetNs) && SaysEvent(v, c.event, runId)
  {
    hide Run, RecordOf, SaysEnvelope, SaysEvent, ParseText, ValueText, Accepted;
    RunIsGapless(runId, calls);
    var c := Accepted(calls)[i];
    var w := Written(runId, i, c.wall, c.offsetNs, c.event);
    assert c in Accepted(calls);
    var line := Run(runId, calls).lines[i];
    assert line == LineOf(w.Record());
    assert line[..|line| - 1] == ValueText(w.Record());
    ParseUndoesPrint(w.Record());
    EnvelopeSaid(w);
    EventSaid(w);
  }
}
