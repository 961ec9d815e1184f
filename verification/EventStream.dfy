/** The event-stream writer: one canonical JSON line per transition, a gapless sequence,
    and a sink that may fail at any call. */
module EventStream {
  import opened Text
  import opened Json
  import opened Canonical
  import opened TerminalStates

  type u32 = n: int | 0 <= n < U32_LIMIT
  type u64 = n: int | 0 <= n < U64_LIMIT

  const EVENT_STREAM_SCHEMA_VERSION := "dagr.event-stream@1"
  const FINGERPRINT_UNAVAILABLE := "unavailable"

  datatype RunStartedHeader = RunStartedHeader(
    pipeline: string,
    fingerprintStructural: Option<string>,
    fingerprintPolicy: Option<string>,
    fingerprintAlgorithmVersion: u32,
    parameters: map<string, string>,
    dataInterval: Option<(string, string)>,
    capturedEnv: map<string, string>,
    resumedFrom: Option<string>)

  datatype ConsumedInput = ConsumedInput(uri: string, contentHash: Option<string>)

  datatype AttemptOutcomeRecord = AttemptOutcomeRecord(
    node: string,
    attempt: u32,
    status: string,
    worker: Option<string>,
    message: Option<string>,
    error: Option<Json>,
    metrics: Option<Json>,
    costDeclared: Option<Json>,
    costMeasured: Option<Json>,
    durableReference: Option<Json>,
    durableReferenceMeta: Option<Json>,
    satisfiedFromRun: Option<string>,
    originatingNode: Option<string>,
    inputs: seq<ConsumedInput>)

  datatype OutputProducedRecord = OutputProducedRecord(
    node: string,
    attempt: u32,
    uri: string,
    contentHash: Option<string>,
    sizeBytes: Option<u64>,
    outputKind: Option<string>,
    producedAtOffsetNs: u64,
    originatingRun: string)

  datatype AttemptSubmittedRecord = AttemptSubmittedRecord(
    node: string,
    attempt: u32,
    inputs: seq<ConsumedInput>,
    executor: Option<string>,
    targetName: Option<string>,
    observedName: Option<string>,
    observedUid: Option<string>,
    observedHost: Option<string>,
    structuralFingerprint: Option<string>,
    policyHash: Option<string>,
    toolVersion: Option<string>,
    imageDigest: Option<string>)

  datatype RunOutcome = RunSucceeded | RunFailed | RunCancelled | AssemblyFailed | BootstrapFailed

  function OutcomeName(o: RunOutcome): string {
    match o
    case RunSucceeded => "succeeded"
    case RunFailed => "failed"
    case RunCancelled => "cancelled"
    case AssemblyFailed => "assembly-failed"
    case BootstrapFailed => "bootstrap-failed"
  }

  datatype Event =
    | RunStarted(header: RunStartedHeader)
    | NodeReady(node: string)
    | NodeAdmitted(node: string)
    | AttemptStarted(node: string, attempt: u32)
    | AttemptSucceeded(node: string, attempt: u32)
    | AttemptFailed(node: string, attempt: u32)
    | AttemptOutcome(outcome: AttemptOutcomeRecord)
    | OutputProduced(output: OutputProducedRecord)
    | AttemptSubmitted(submitted: AttemptSubmittedRecord)
    | NodeTerminal(node: string, state: TerminalState)
    | ZombieAtExit(node: string, attempt: u32)
    | RunFinished(runOutcome: RunOutcome)

  // ---- The wire form -------------------------------------------------------

  type WireField = (string, Json)

  /** Push each pair whose value is present, in order. */
  function Present(pairs: seq<(string, Option<Json>)>): seq<WireField> {
    if pairs == [] then []
    else
      var (name, value) := pairs[|pairs| - 1];
      Present(pairs[..|pairs| - 1]) + if value.Some? then [(name, value.value)] else []
  }

  function NumValue(o: Option<u64>): Option<Json> {
    match o case Some(n) => Some(JNum(n)) case None => None
  }

  function InputValue(i: ConsumedInput): Json {
    var o := map["uri" := JStr(i.uri)];
    JObj(if i.contentHash.Some? then o["content_hash" := JStr(i.contentHash.value)] else o)
  }

  function InputValues(inputs: seq<ConsumedInput>): (vs: seq<Json>)
    ensures |vs| == |inputs| && forall i :: 0 <= i < |vs| ==> vs[i] == InputValue(inputs[i])
  {
    seq(|inputs|, i requires 0 <= i < |inputs| => InputValue(inputs[i]))
  }

  function AttemptOutcomePairs(r: AttemptOutcomeRecord): seq<(string, Option<Json>)> {
    [("node", Some(JStr(r.node))),
     ("attempt", Some(JNum(r.attempt))),
     ("status", Some(JStr(r.status))),
     ("worker", TextValue(r.worker)),
     ("message", TextValue(r.message)),
     ("satisfied_from_run", TextValue(r.satisfiedFromRun)),
     ("originating_node", TextValue(r.originatingNode)),
     ("error", r.error),
     ("metrics", r.metrics),
     ("cost_declared", r.costDeclared),
     ("cost_measured", r.costMeasured),
     ("durable_reference", r.durableReference),
     ("durable_reference_meta", r.durableReferenceMeta),
     ("inputs", if r.inputs == [] then None else Some(JArr(InputValues(r.inputs))))]
  }

  function OutputProducedPairs(r: OutputProducedRecord): seq<(string, Option<Json>)> {
    [("node", Some(JStr(r.node))),
     ("attempt", Some(JNum(r.attempt))),
     ("uri", Some(JStr(r.uri))),
     ("produced_at_offset_ns", Some(JNum(r.producedAtOffsetNs))),
     ("originating_run", Some(JStr(r.originatingRun))),
     ("content_hash", TextValue(r.contentHash)),
     ("size_bytes", NumValue(r.sizeBytes)),
     ("output_kind", TextValue(r.outputKind))]
  }

  function AttemptSubmittedPairs(r: AttemptSubmittedRecord): seq<(string, Option<Json>)> {
    [("node", Some(JStr(r.node))),
     ("attempt", Some(JNum(r.attempt))),
     ("inputs", Some(JArr(InputValues(r.inputs)))),
     ("executor", TextValue(r.executor)),
     ("target_name", TextValue(r.targetName)),
     ("observed_name", TextValue(r.observedName)),
     ("observed_uid", TextValue(r.observedUid)),
     ("observed_host", TextValue(r.observedHost)),
     ("structural_fingerprint", TextValue(r.structuralFingerprint)),
     ("policy_hash", TextValue(r.policyHash)),
     ("tool_version", TextValue(r.toolVersion)),
     ("image_digest", TextValue(r.imageDigest))]
  }

  function StringMap(m: map<string, string>): Json {
    JObj(map k | k in m :: JStr(m[k]))
  }

  function RunStartedHeaderValue(h: RunStartedHeader, runId: string): Json {
    JObj(map[
      "run_id" := JStr(runId),
      "pipeline" := JStr(h.pipeline),
      "fingerprint_structural" := JStr(UnwrapOr(h.fingerprintStructural, FINGERPRINT_UNAVAILABLE)),
      "fingerprint_policy" := JStr(UnwrapOr(h.fingerprintPolicy, FINGERPRINT_UNAVAILABLE)),
      "fingerprint_algorithm_version" := JNum(h.fingerprintAlgorithmVersion),
      "parameters" := StringMap(h.parameters),
      "data_interval" := (match h.dataInterval
                          case Some((start, end)) => JObj(map["start" := JStr(start), "end" := JStr(end)])
                          case None => JNull),
      "captured_environment" := StringMap(h.capturedEnv),
      "resume_lineage" := (match h.resumedFrom
                           case Some(from) => JObj(map["run_id" := JStr(from)])
                           case None => JNull)
    ])
  }

  function NodeAttempt(node: string, attempt: u32): seq<(string, Option<Json>)> {
    [("node", Some(JStr(node))), ("attempt", Some(JNum(attempt)))]
  }

  function KindOfEvent(e: Event): string {
    match e
    case RunStarted(_) => "run-started"
    case NodeReady(_) => "node-ready"
    case NodeAdmitted(_) => "node-admitted"
    case AttemptStarted(_, _) => "attempt-started"
    case AttemptSucceeded(_, _) => "attempt-succeeded"
    case AttemptFailed(_, _) => "attempt-failed"
    case AttemptOutcome(_) => "attempt-outcome"
    case OutputProduced(_) => "output-produced"
    case AttemptSubmitted(_) => "attempt-submitted"
    case NodeTerminal(_, _) => "node-terminal"
    case ZombieAtExit(_, _) => "zombie-at-exit"
    case RunFinished(_) => "run-finished"
  }

  /** The payload of an event: its field names, each with a value or absent. */
  function PairsOfEvent(e: Event, runId: string): seq<(string, Option<Json>)> {
    match e
    case RunStarted(h) => [("header", Some(RunStartedHeaderValue(h, runId)))]
    case NodeReady(node) => [("node", Some(JStr(node)))]
    case NodeAdmitted(node) => [("node", Some(JStr(node)))]
    case AttemptStarted(node, attempt) => NodeAttempt(node, attempt)
    case AttemptSucceeded(node, attempt) => NodeAttempt(node, attempt)
    case AttemptFailed(node, attempt) => NodeAttempt(node, attempt)
    case AttemptOutcome(r) => AttemptOutcomePairs(r)
    case OutputProduced(r) => OutputProducedPairs(r)
    case AttemptSubmitted(r) => AttemptSubmittedPairs(r)
    case NodeTerminal(node, state) => [("node", Some(JStr(node))), ("state", Some(JStr(StateName(state))))]
    case ZombieAtExit(node, attempt) => NodeAttempt(node, attempt)
    case RunFinished(o) => [("outcome", Some(JStr(OutcomeName(o))))]
  }

  function FieldsOfEvent(e: Event, runId: string): seq<WireField> {
    Present(PairsOfEvent(e, runId))
  }

  function Envelope(runId: string, seqNo: nat, wall: string, offsetNs: u64, kind: string): map<string, Json> {
    map[
      "schema_version" := JStr(EVENT_STREAM_SCHEMA_VERSION),
      "run_id" := JStr(runId),
      "seq" := JNum(seqNo),
      "wall" := JStr(wall),
      "offset_ns" := JNum(offsetNs),
      "kind" := JStr(kind)
    ]
  }

  /** Insert the payload fields one after another beside the envelope. */
  function Spread(record: map<string, Json>, fields: seq<WireField>): map<string, Json> {
    if fields == [] then record
    else Spread(record, fields[..|fields| - 1])[fields[|fields| - 1].0 := fields[|fields| - 1].1]
  }

  function RecordOf(runId: string, seqNo: nat, wall: string, offsetNs: u64, e: Event): Json {
    JObj(Spread(Envelope(runId, seqNo, wall, offsetNs, KindOfEvent(e)), FieldsOfEvent(e, runId)))
  }

  function LineOf(record: Json): string {
    ValueText(record) + "\n"
  }

  // ---- The sink and the writer ---------------------------------------------

  /** The two-operation sink. Each call may fail; a failed append accepts nothing. */
  class EventSink {
    var lines: seq<string>

    constructor ()
      ensures lines == []
    {
      lines := [];
    }

    method AppendLine(line: string, fails: bool) returns (ok: bool)
      modifies this
      ensures ok == !fails
      ensures lines == if ok then old(lines) + [line] else old(lines)
    {
      if !fails { lines := lines + [line]; }
      ok := !fails;
    }

    method Flush(fails: bool) returns (ok: bool)
      ensures ok == !fails
    {
      ok := !fails;
    }
  }

  /** What a writer and its sink hold between two calls. */
  datatype WriterState = WriterState(lines: seq<string>, nextSeq: nat, faulted: bool)

  /** One call on the writer, with what the clocks and the sink answer during it. */
  datatype Call =
    | Emit(event: Event, wall: string, offsetNs: u64, sinkFails: bool)
    | Finish(sinkFails: bool)

  const FRESH := WriterState([], 0, false)

  function After(s: WriterState, runId: string, c: Call): WriterState {
    match c
    case Emit(e, wall, off, fails) =>
      if fails then s.(faulted := true)
      else s.(lines := s.lines + [LineOf(RecordOf(runId, s.nextSeq, wall, off, e))], nextSeq := s.nextSeq + 1)
    case Finish(fails) => if fails then s.(faulted := true) else s
  }

  class EventStreamWriter {
    const sink: EventSink
    const runId: string
    const pipeline: string
    var nextSeq: nat
    var faulted: bool

    function State(): WriterState
      reads this, sink
    {
      WriterState(sink.lines, nextSeq, faulted)
    }

    constructor (sink: EventSink, runId: string, pipeline: string)
      ensures this.sink == sink && this.runId == runId && this.pipeline == pipeline
      ensures State() == FRESH.(lines := sink.lines)
    {
      this.sink := sink;
      this.runId := runId;
      this.pipeline := pipeline;
      nextSeq := 0;
      faulted := false;
    }

    method CanonicalLine(seqNo: nat, wall: string, offsetNs: u64, event: Event) returns (line: string)
      ensures line == LineOf(RecordOf(runId, seqNo, wall, offsetNs, event))
    {
      hide Envelope, FieldsOfEvent, KindOfEvent;
      var record := Envelope(runId, seqNo, wall, offsetNs, KindOfEvent(event));
      var fields := FieldsOfEvent(event, runId);
      for i := 0 to |fields|
        invariant record == Spread(Envelope(runId, seqNo, wall, offsetNs, KindOfEvent(event)), fields[..i])
      {
        assert fields[..i + 1][..i] == fields[..i];
        record := record[fields[i].0 := fields[i].1];
      }
      assert fields[..|fields|] == fields;
      var out := new StringBuffer();
      WriteCanonical(JObj(record), out);
      out.Push("\n");
      line := out.text;
    }

    /** `emit`: a fault is recorded but never consulted. */
    method Emit(event: Event, wall: string, offsetNs: u64, sinkFails: bool) returns (ok: bool)
      modifies this, sink
      ensures ok == !sinkFails
      ensures State() == After(old(State()), runId, Call.Emit(event, wall, offsetNs, sinkFails))
    {
      hide RecordOf;
      var line := CanonicalLine(nextSeq, wall, offsetNs, event);
      ok := sink.AppendLine(line, sinkFails);
      if !ok {
        faulted := true;
        return;
      }
      nextSeq := nextSeq + 1;
    }

    method Finish(sinkFails: bool) returns (ok: bool)
      modifies this
      ensures ok == !sinkFails
      ensures State() == After(old(State()), runId, Call.Finish(sinkFails))
    {
      ok := sink.Flush(sinkFails);
      if !ok { faulted := true; }
    }
  }

  // ---- Every run of the writer ---------------------------------------------

  function Run(runId: string, calls: seq<Call>): WriterState {
    if calls == [] then FRESH
    else After(Run(runId, calls[..|calls| - 1]), runId, calls[|calls| - 1])
  }

  /** The emissions the sink accepted, in order. */
  function Accepted(calls: seq<Call>): (accepted: seq<Call>)
    ensures forall c <- accepted :: c.Emit? && c in calls
  {
    if calls == [] then []
    else
      var c := calls[|calls| - 1];
      Accepted(calls[..|calls| - 1]) + if c.Emit? && !c.sinkFails then [c] else []
  }

  predicate AllEmissions(calls: seq<Call>) {
    forall c <- calls :: c.Emit?
  }

  function RecordOfCall(runId: string, seqNo: nat, c: Call): Json
    requires c.Emit?
  {
    RecordOf(runId, seqNo, c.wall, c.offsetNs, c.event)
  }

  /** Emissions numbered from 0. */
  function Numbered(runId: string, emissions: seq<Call>): (vs: seq<Json>)
    requires AllEmissions(emissions)
    ensures |vs| == |emissions| && forall v <- vs :: v.JObj?
    ensures forall i :: 0 <= i < |vs| ==> vs[i] == RecordOfCall(runId, i, emissions[i])
  {
    seq(|emissions|, i requires 0 <= i < |emissions| => RecordOfCall(runId, i, emissions[i]))
  }

  /** The records a run leaves behind: its accepted emissions, numbered 0, 1, 2, ... */
  function AcceptedRecords(runId: string, calls: seq<Call>): seq<Json> {
    Numbered(runId, Accepted(calls))
  }

  predicate SomeCallFailed(calls: seq<Call>) {
    exists c <- calls :: c.sinkFails
  }

  function LinesOf(vs: seq<Json>): (ls: seq<string>)
    ensures |ls| == |vs| && forall i :: 0 <= i < |ls| ==> ls[i] == LineOf(vs[i])
  {
    seq(|vs|, i requires 0 <= i < |vs| => LineOf(vs[i]))
  }

  /** After any run, over a sink failing at any calls, the accepted lines are exactly the
      accepted emissions numbered 0, 1, 2, ... in order; a failed append consumes no
      number; and the fault flag is up exactly when some call has failed. */
  lemma {:induction false} RunIsGapless(runId: string, calls: seq<Call>)
    ensures Run(runId, calls).lines == LinesOf(AcceptedRecords(runId, calls))
    ensures Run(runId, calls).nextSeq == |Run(runId, calls).lines|
    ensures Run(runId, calls).faulted <==> SomeCallFailed(calls)
  {
    hide RecordOf;
    if calls != [] {
      var before, c := calls[..|calls| - 1], calls[|calls| - 1];
      RunIsGapless(runId, before);
      FailureStep(before, c);
      assert calls == before + [c];
      if c.Emit? && !c.sinkFails {
        AcceptedGrows(runId, before, c);
      } else {
        assert Accepted(calls) == Accepted(before);
      }
    }
  }

  lemma FailureStep(before: seq<Call>, c: Call)
    ensures SomeCallFailed(before + [c]) <==> SomeCallFailed(before) || c.sinkFails
  {
    assert c in before + [c];
  }

  lemma AcceptedGrows(runId: string, before: seq<Call>, c: Call)
    requires c.Emit? && !c.sinkFails
    ensures LinesOf(AcceptedRecords(runId, before + [c])) ==
            LinesOf(AcceptedRecords(runId, before)) + [LineOf(RecordOfCall(runId, |Accepted(before)|, c))]
  {
    assert (before + [c])[..|before|] == before;
    assert Accepted(before + [c]) == Accepted(before) + [c];
    NumberedAppend(runId, Accepted(before), c);
    LinesAppend(AcceptedRecords(runId, before), RecordOfCall(runId, |Accepted(before)|, c));
  }

  lemma LinesAppend(vs: seq<Json>, v: Json)
    ensures LinesOf(vs + [v]) == LinesOf(vs) + [LineOf(v)]
  {}

  lemma NumberedAppend(runId: string, emissions: seq<Call>, c: Call)
    requires AllEmissions(emissions) && c.Emit?
    ensures Numbered(runId, emissions + [c]) == Numbered(runId, emissions) + [RecordOfCall(runId, |emissions|, c)]
  {}

  predicate MonotonicClock(calls: seq<Call>) {
    forall i, j :: 0 <= i < j < |calls| && calls[i].Emit? && calls[j].Emit? ==> calls[i].offsetNs <= calls[j].offsetNs
  }

  /** With a monotonic clock the recorded offsets never step back, failures or not. */
  lemma {:induction false} AcceptedOffsetsAreMonotonic(calls: seq<Call>)
    requires MonotonicClock(calls)
    ensures MonotonicClock(Accepted(calls))
  {
    if calls != [] {
      var before, c := calls[..|calls| - 1], calls[|calls| - 1];
      assert forall i :: 0 <= i < |before| ==> before[i] == calls[i];
      AcceptedOffsetsAreMonotonic(before);
      if c.Emit? && !c.sinkFails {
        forall d | d in Accepted(before) ensures d.offsetNs <= c.offsetNs {
          var i :| 0 <= i < |before| && before[i] == d;
          assert calls[i] == d;
        }
        ClockGrows(Accepted(before), c);
      }
    }
  }

  lemma ClockGrows(emissions: seq<Call>, c: Call)
    requires AllEmissions(emissions) && c.Emit? && MonotonicClock(emissions)
    requires forall d <- emissions :: d.offsetNs <= c.offsetNs
    ensures MonotonicClock(emissions + [c])
  {}

  /** The writer's own documentation says a faulted writer refuses to append. It does
      not: whether an emission is accepted depends on that append alone. */
  lemma FaultedWriterStillAppends(s: WriterState, runId: string, c: Call)
    requires c.Emit?
    ensures After(s, runId, c).lines != s.lines <==> !c.sinkFails
    ensures exists calls, d :: Run(runId, calls).faulted && Run(runId, calls + [d]).lines != Run(runId, calls).lines
  {
    hide RecordOf, LineOf;
    var bad := Emit(NodeReady("n"), "", 0, true);
    var good := Emit(NodeReady("n"), "", 1, false);
    assert ([bad] + [good])[..1] == [bad] && [bad][..0] == [];
    assert Run(runId, [bad]) == FRESH.(faulted := true);
    assert Run(runId, [bad] + [good]).lines != Run(runId, [bad]).lines;
  }
}
