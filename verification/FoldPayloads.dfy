/** Writer and fold are inverse on payloads: what one puts on the wire the other recovers,
    and no payload field disturbs the envelope. */
module FoldPayloads {
  import opened Text
  import opened Json
  import opened TerminalStates
  import opened EventStream
  import opened FoldAttempts
  import opened FoldSubmissions
  import opened Fold

  // ---- Looking a field up in a record --------------------------------------

  type Pairs = seq<(string, Option<Json>)>

  predicate DistinctNames(pairs: Pairs) {
    forall i, j :: 0 <= i < j < |pairs| ==> pairs[i].0 != pairs[j].0
  }

  predicate Lacks(pairs: Pairs, name: string) {
    forall p <- pairs :: p.0 != name
  }

  function Inserted(m: map<string, Json>, name: string, value: Option<Json>): map<string, Json> {
    if value.Some? then m[name := value.value] else m
  }

  lemma SpreadPresentStep(m: map<string, Json>, pairs: Pairs)
    requires pairs != []
    ensures Spread(m, Present(pairs)) ==
            Inserted(Spread(m, Present(pairs[..|pairs| - 1])), pairs[|pairs| - 1].0, pairs[|pairs| - 1].1)
  {
    var before, last := pairs[..|pairs| - 1], pairs[|pairs| - 1];
    if last.1.Some? {
      assert Present(pairs) == Present(before) + [(last.0, last.1.value)];
      assert Present(pairs)[..|Present(pairs)| - 1] == Present(before);
    } else {
      assert Present(pairs) == Present(before);
    }
  }

  /** A name the payload lacks keeps its envelope value. */
  lemma {:induction false} LackedName(m: map<string, Json>, pairs: Pairs, name: string)
    requires Lacks(pairs, name)
    ensures Get(JObj(Spread(m, Present(pairs))), name) == Get(JObj(m), name)
  {
    hide Present, Spread;
    if pairs == [] {
      NothingSpread(m);
    } else {
      SpreadPresentStep(m, pairs);
      assert pairs[|pairs| - 1] in pairs;
      LackedName(m, pairs[..|pairs| - 1], name);
    }
  }

  lemma NothingSpread(m: map<string, Json>)
    ensures Spread(m, Present([])) == m
  {}

  /** A payload name new to the envelope reads back as its pair's value. */
  lemma {:induction false} PairedName(m: map<string, Json>, pairs: Pairs, i: nat)
    requires DistinctNames(pairs) && i < |pairs| && pairs[i].0 !in m
    ensures Get(JObj(Spread(m, Present(pairs))), pairs[i].0) == pairs[i].1
  {
    hide Present, Spread;
    var before := pairs[..|pairs| - 1];
    SpreadPresentStep(m, pairs);
    if i < |pairs| - 1 {
      PairedName(m, before, i);
      assert before[i] == pairs[i];
    } else {
      LackedName(m, before, pairs[i].0);
    }
  }

  // ---- The envelope is never overwritten -----------------------------------

  predicate IsEnvelopeKey(k: string) {
    k in {"schema_version", "run_id", "seq", "wall", "offset_ns", "kind"}
  }

  lemma EnvelopeKeys(runId: string, seqNo: nat, wall: string, offsetNs: u64, kind: string)
    ensures forall k :: k in Envelope(runId, seqNo, wall, offsetNs, kind) <==> IsEnvelopeKey(k)
  {}

  /** Distinct names, none of them an envelope key. */
  predicate PayloadNames(names: seq<string>) { DiffersFromAll(names) && NoEnvelopeKey(names) }

  predicate DiffersFromAll(names: seq<string>) { forall i, j :: 0 <= i < j < |names| ==> names[i] != names[j] }

  predicate NoEnvelopeKey(names: seq<string>) { forall i :: 0 <= i < |names| ==> !IsEnvelopeKey(names[i]) }

  predicate HasNames(pairs: Pairs, names: seq<string>) {
    |pairs| == |names| && forall i :: 0 <= i < |names| ==> pairs[i].0 == names[i]
  }

  const OUTCOME_NAMES := [
    "node", "attempt", "status", "worker", "message", "satisfied_from_run", "originating_node", "error", "metrics",
    "cost_declared", "cost_measured", "durable_reference", "durable_reference_meta", "inputs"]
  const OUTPUT_NAMES := [
    "node", "attempt", "uri", "produced_at_offset_ns", "originating_run", "content_hash", "size_bytes", "output_kind"]
  const SUBMITTED_NAMES := [
    "node", "attempt", "inputs", "executor", "target_name", "observed_name", "observed_uid", "observed_host",
    "structural_fingerprint", "policy_hash", "tool_version", "image_digest"]

  lemma OutcomeNames()
    ensures PayloadNames(OUTCOME_NAMES)
  {
    assert DiffersFromAll(OUTCOME_NAMES) by { hide NoEnvelopeKey, IsEnvelopeKey; }
    assert NoEnvelopeKey(OUTCOME_NAMES) by { hide DiffersFromAll; }
    hide DiffersFromAll, NoEnvelopeKey, OUTCOME_NAMES;
  }

  lemma OutputNames()
    ensures PayloadNames(OUTPUT_NAMES)
  {
    assert DiffersFromAll(OUTPUT_NAMES) by { hide NoEnvelopeKey, IsEnvelopeKey; }
    assert NoEnvelopeKey(OUTPUT_NAMES) by { hide DiffersFromAll; }
    hide DiffersFromAll, NoEnvelopeKey, OUTPUT_NAMES;
  }

  lemma SubmittedNames()
    ensures PayloadNames(SUBMITTED_NAMES)
  {
    assert DiffersFromAll(SUBMITTED_NAMES) by { hide NoEnvelopeKey, IsEnvelopeKey; }
    assert NoEnvelopeKey(SUBMITTED_NAMES) by { hide DiffersFromAll; }
    hide DiffersFromAll, NoEnvelopeKey, SUBMITTED_NAMES;
  }

  lemma OtherNames()
    ensures PayloadNames(["header"]) && PayloadNames(["node"]) && PayloadNames(["node", "attempt"])
    ensures PayloadNames(["node", "state"]) && PayloadNames(["outcome"])
  {}

  function NamesOfEvent(e: Event): seq<string> {
    match e
    case RunStarted(_) => ["header"]
    case NodeReady(_) => ["node"]
    case NodeAdmitted(_) => ["node"]
    case AttemptOutcome(_) => OUTCOME_NAMES
    case OutputProduced(_) => OUTPUT_NAMES
    case AttemptSubmitted(_) => SUBMITTED_NAMES
    case NodeTerminal(_, _) => ["node", "state"]
    case RunFinished(_) => ["outcome"]
    case _ => ["node", "attempt"]
  }

  lemma EventHasNames(e: Event, runId: string)
    ensures HasNames(PairsOfEvent(e, runId), NamesOfEvent(e))
  {
    hide RunStartedHeaderValue, InputValues, StateName, OutcomeName, TextValue, NumValue, AttemptOutcomePairs,
      OutputProducedPairs, AttemptSubmittedPairs, OUTCOME_NAMES, OUTPUT_NAMES, SUBMITTED_NAMES;
    match e
    case AttemptOutcome(r) => PairNames(r);
    case OutputProduced(r) => OutputPairNames(r);
    case AttemptSubmitted(r) => SubmittedPairNames(r);
    case _ =>
  }

  lemma PairNames(r: AttemptOutcomeRecord)
    ensures HasNames(AttemptOutcomePairs(r), OUTCOME_NAMES)
  {
    hide InputValues, TextValue;
  }

  lemma OutputPairNames(r: OutputProducedRecord)
    ensures HasNames(OutputProducedPairs(r), OUTPUT_NAMES)
  {
    hide TextValue, NumValue;
  }

  lemma SubmittedPairNames(r: AttemptSubmittedRecord)
    ensures HasNames(AttemptSubmittedPairs(r), SUBMITTED_NAMES)
  {
    hide InputValues, TextValue;
  }

  lemma PayloadNamesAreNotEnvelopeKeys(e: Event, runId: string)
    ensures forall p <- PairsOfEvent(e, runId) :: !IsEnvelopeKey(p.0)
    ensures DistinctNames(PairsOfEvent(e, runId))
  {
    hide PairsOfEvent, IsEnvelopeKey, PayloadNames, OUTCOME_NAMES, OUTPUT_NAMES, SUBMITTED_NAMES;
    EventHasNames(e, runId);
    OutcomeNames();
    OutputNames();
    SubmittedNames();
    OtherNames();
    NamesTransfer(PairsOfEvent(e, runId), NamesOfEvent(e));
  }

  lemma NamesTransfer(pairs: Pairs, names: seq<string>)
    requires HasNames(pairs, names) && PayloadNames(names)
    ensures DistinctNames(pairs) && forall p <- pairs :: !IsEnvelopeKey(p.0)
  {
    hide IsEnvelopeKey;
    forall p | p in pairs ensures !IsEnvelopeKey(p.0) {
      var i :| 0 <= i < |pairs| && pairs[i] == p;
      assert names[i] == p.0;
    }
  }

  /** **No payload field overwrites an envelope key**: every record carries exactly the
      envelope the writer stamped, whatever its payload. */
  lemma EnvelopeSurvives(runId: string, seqNo: nat, wall: string, offsetNs: u64, e: Event, name: string)
    requires IsEnvelopeKey(name)
    ensures Get(RecordOf(runId, seqNo, wall, offsetNs, e), name) ==
            Get(JObj(Envelope(runId, seqNo, wall, offsetNs, KindOfEvent(e))), name)
  {
    hide PairsOfEvent, Envelope, Spread, IsEnvelopeKey, Present;
    PayloadNamesAreNotEnvelopeKeys(e, runId);
    LackedName(Envelope(runId, seqNo, wall, offsetNs, KindOfEvent(e)), PairsOfEvent(e, runId), name);
  }

  /** Field `i` of a payload reads back from the record as written. */
  lemma FieldSurvives(runId: string, seqNo: nat, wall: string, offsetNs: u64, e: Event, i: nat)
    requires i < |PairsOfEvent(e, runId)|
    ensures Get(RecordOf(runId, seqNo, wall, offsetNs, e), PairsOfEvent(e, runId)[i].0) == PairsOfEvent(e, runId)[i].1
  {
    hide PairsOfEvent, Envelope, Spread, IsEnvelopeKey, Present;
    PayloadNamesAreNotEnvelopeKeys(e, runId);
    EnvelopeKeys(runId, seqNo, wall, offsetNs, KindOfEvent(e));
    assert PairsOfEvent(e, runId)[i] in PairsOfEvent(e, runId);
    PairedName(Envelope(runId, seqNo, wall, offsetNs, KindOfEvent(e)), PairsOfEvent(e, runId), i);
  }

  /** A payload name the event's kind does not use is absent from its records. */
  lemma UnusedNameIsAbsent(runId: string, seqNo: nat, wall: string, offsetNs: u64, e: Event, name: string)
    requires !IsEnvelopeKey(name) && Lacks(PairsOfEvent(e, runId), name)
    ensures Get(RecordOf(runId, seqNo, wall, offsetNs, e), name) == None
  {
    hide PairsOfEvent, Envelope, Spread, IsEnvelopeKey, Present;
    EnvelopeKeys(runId, seqNo, wall, offsetNs, KindOfEvent(e));
    LackedName(Envelope(runId, seqNo, wall, offsetNs, KindOfEvent(e)), PairsOfEvent(e, runId), name);
  }

  // ---- The kinds and offsets the fold reads --------------------------------

  function KindOfWritten(e: Event): Kind {
    match e
    case RunStarted(_) => KRunStarted
    case NodeReady(_) => KReady
    case NodeAdmitted(_) => KAdmitted
    case AttemptStarted(_, _) => KStarted
    case AttemptSucceeded(_, _) => KOther
    case AttemptFailed(_, _) => KOther
    case AttemptOutcome(_) => KOutcome
    case OutputProduced(_) => KOutput
    case AttemptSubmitted(_) => KSubmitted
    case NodeTerminal(_, _) => KTerminal
    case ZombieAtExit(_, _) => KZombie
    case RunFinished(_) => KRunFinished
  }

  lemma KindNames(e: Event)
    ensures KindNamed(KindOfEvent(e)) == KindOfWritten(e)
  {}

  /** The fold reads back the kind and offset the writer stamped. */
  lemma HeaderRecovered(runId: string, seqNo: nat, wall: string, offsetNs: u64, e: Event)
    ensures KindOf(RecordOf(runId, seqNo, wall, offsetNs, e)) == KindOfWritten(e)
    ensures OffsetOf(RecordOf(runId, seqNo, wall, offsetNs, e)) == offsetNs
  {
    hide RecordOf, KindNamed, KindOfWritten, KindOfEvent;
    KindNames(e);
    EnvelopeSurvives(runId, seqNo, wall, offsetNs, e, "kind");
    EnvelopeSurvives(runId, seqNo, wall, offsetNs, e, "offset_ns");
  }

  // ---- Payloads ------------------------------------------------------------

  /** What the fold makes of an optional JSON value: a recorded null reads as absent. */
  function Denulled(o: Option<Json>): Option<Json> {
    if o == Some(JNull) then None else o
  }

  lemma {:induction false} InputsAreObjects(items: seq<Json>)
    requires forall v <- items :: v.JObj?
    ensures ObjectsIn(items) == items
  {
    if items != [] { InputsAreObjects(items[1..]); }
  }

  /** One written record, as the arguments every lemma below shares. */
  datatype Written = Written(runId: string, seqNo: nat, wall: string, offsetNs: u64, event: Event) {
    function Record(): Json { RecordOf(runId, seqNo, wall, offsetNs, event) }
    function Pairs(): Pairs { PairsOfEvent(event, runId) }
  }

  lemma JsonField(w: Written, i: nat, name: string, value: Option<Json>)
    requires i < |w.Pairs()| && w.Pairs()[i] == (name, value)
    ensures Get(w.Record(), name) == value && GetNonNull(w.Record(), name) == Denulled(value)
  {
    hide RecordOf, PairsOfEvent, Get;
    FieldSurvives(w.runId, w.seqNo, w.wall, w.offsetNs, w.event, i);
  }

  lemma TextField(w: Written, i: nat, name: string, o: Option<string>)
    requires i < |w.Pairs()| && w.Pairs()[i] == (name, TextValue(o))
    ensures GetStr(w.Record(), name) == o
  {
    hide RecordOf, PairsOfEvent, Get;
    FieldSurvives(w.runId, w.seqNo, w.wall, w.offsetNs, w.event, i);
  }

  lemma NumField(w: Written, i: nat, name: string, n: u64)
    requires i < |w.Pairs()| && w.Pairs()[i] == (name, Some(JNum(n)))
    ensures GetU64(w.Record(), name) == Some(n)
    ensures n < U32_LIMIT ==> GetU32(w.Record(), name) == Some(n)
  {
    hide RecordOf, PairsOfEvent, Get;
    FieldSurvives(w.runId, w.seqNo, w.wall, w.offsetNs, w.event, i);
  }

  /** The worker a record without `pool` and `thread` names. */
  lemma WorkerRecovered(w: Written, r: AttemptOutcomeRecord)
    requires w.event == AttemptOutcome(r)
    ensures WorkerOf(w.Record()) == UnwrapOr(r.worker, UNKNOWN_WORKER)
  {
    hide RecordOf, PairsOfEvent, Get, OUTCOME_NAMES, TextValue;
    OutcomePairs(w, r);
    TextField(w, 3, "worker", r.worker);
    WorkerPartsUnused(w, r);
    UnusedNameIsAbsent(w.runId, w.seqNo, w.wall, w.offsetNs, w.event, "pool");
    UnusedNameIsAbsent(w.runId, w.seqNo, w.wall, w.offsetNs, w.event, "thread");
  }

  lemma WorkerPartsUnused(w: Written, r: AttemptOutcomeRecord)
    requires w.event == AttemptOutcome(r)
    ensures Lacks(w.Pairs(), "pool") && Lacks(w.Pairs(), "thread")
    ensures !IsEnvelopeKey("pool") && !IsEnvelopeKey("thread")
  {
    hide PairsOfEvent;
    EventHasNames(w.event, w.runId);
    NamesLackWorkerParts();
    forall p | p in w.Pairs() ensures p.0 != "pool" && p.0 != "thread" {
      var i :| 0 <= i < |w.Pairs()| && w.Pairs()[i] == p;
      assert OUTCOME_NAMES[i] in OUTCOME_NAMES;
    }
  }

  lemma NamesLackWorkerParts()
    ensures "pool" !in OUTCOME_NAMES && "thread" !in OUTCOME_NAMES
  {}

  lemma MetricsRecovered(rec: Json, metrics: Option<Json>)
    requires Get(rec, "metrics") == metrics
    ensures MetricsOf(rec) == if metrics.Some? && metrics.value.JObj? then metrics.value else JObj(map[])
  {
    hide Get;
  }

  lemma InputsRecovered(rec: Json, inputs: seq<ConsumedInput>)
    requires Get(rec, "inputs") == if inputs == [] then None else Some(JArr(InputValues(inputs)))
    ensures ConsumedInputsOf(rec) == InputValues(inputs)
  {
    hide Get;
    assert forall v <- InputValues(inputs) :: v.JObj?;
    InputsAreObjects(InputValues(inputs));
  }

  /** The text fields of an outcome record, as the fold reads them. */
  lemma OutcomeTexts(w: Written, r: AttemptOutcomeRecord)
    requires w.event == AttemptOutcome(r)
    ensures GetStr(w.Record(), "node") == Some(r.node) && GetU32(w.Record(), "attempt") == Some(r.attempt)
    ensures GetStr(w.Record(), "status") == Some(r.status) && GetStr(w.Record(), "message") == r.message
    ensures GetStr(w.Record(), "satisfied_from_run") == r.satisfiedFromRun
    ensures GetStr(w.Record(), "originating_node") == r.originatingNode
  {
    hide RecordOf, PairsOfEvent, GetStr, GetU32, TextValue;
    OutcomePairs(w, r);
    StringIsText(r.node);
    StringIsText(r.status);
    TextField(w, 0, "node", Some(r.node));
    NumField(w, 1, "attempt", r.attempt);
    TextField(w, 2, "status", Some(r.status));
    TextField(w, 4, "message", r.message);
    TextField(w, 5, "satisfied_from_run", r.satisfiedFromRun);
    TextField(w, 6, "originating_node", r.originatingNode);
  }

  /** The structured fields of an outcome record, as the fold reads them. */
  lemma OutcomeValues(w: Written, r: AttemptOutcomeRecord)
    requires w.event == AttemptOutcome(r)
    ensures GetNonNull(w.Record(), "error") == Denulled(r.error)
    ensures GetNonNull(w.Record(), "cost_declared") == Denulled(r.costDeclared)
    ensures GetNonNull(w.Record(), "cost_measured") == Denulled(r.costMeasured)
    ensures GetNonNull(w.Record(), "durable_reference") == Denulled(r.durableReference)
    ensures GetNonNull(w.Record(), "durable_reference_meta") == Denulled(r.durableReferenceMeta)
    ensures MetricsOf(w.Record()) == if r.metrics.Some? && r.metrics.value.JObj? then r.metrics.value else JObj(map[])
    ensures ConsumedInputsOf(w.Record()) == InputValues(r.inputs)
  {
    hide RecordOf, PairsOfEvent, GetNonNull, TextValue, Denulled, MetricsOf, ConsumedInputsOf, Get, InputValues;
    OutcomePairs(w, r);
    JsonField(w, 7, "error", r.error);
    JsonField(w, 8, "metrics", r.metrics);
    JsonField(w, 9, "cost_declared", r.costDeclared);
    JsonField(w, 10, "cost_measured", r.costMeasured);
    JsonField(w, 11, "durable_reference", r.durableReference);
    JsonField(w, 12, "durable_reference_meta", r.durableReferenceMeta);
    JsonField(w, 13, "inputs", if r.inputs == [] then None else Some(JArr(InputValues(r.inputs))));
    MetricsRecovered(w.Record(), r.metrics);
    InputsRecovered(w.Record(), r.inputs);
  }

  /** **Every attempt outcome the writer emits is recovered by the fold**, whatever came
      before it: identity, status and each optional field; an absent worker reads as
      `unknown`, metrics that are not an object as empty, and a recorded null as absent. */
  lemma AttemptOutcomeRecovered(w: Written, r: AttemptOutcomeRecord, s: Scan)
    requires w.event == AttemptOutcome(r)
    ensures KindOf(w.Record()) == KOutcome && NodeOf(w.Record()) == Some(r.node)
    ensures BuildAttemptRecord(w.Record(), r.node, s) == AttemptRecord(
              r.node, r.attempt, r.status, BuildAttemptRecord(w.Record(), r.node, s).phases,
              UnwrapOr(r.worker, UNKNOWN_WORKER), r.message, Denulled(r.error),
              if r.metrics.Some? && r.metrics.value.JObj? then r.metrics.value else JObj(map[]),
              Denulled(r.costDeclared), Denulled(r.costMeasured), Denulled(r.durableReference),
              Denulled(r.durableReferenceMeta), r.satisfiedFromRun, r.originatingNode, InputValues(r.inputs))
  {
    hide RecordOf, PhasesOf, OffsetOf, KindOf, InputValues, GetStr, GetU32, GetNonNull, WorkerOf, MetricsOf,
      ConsumedInputsOf, Denulled;
    HeaderRecovered(w.runId, w.seqNo, w.wall, w.offsetNs, w.event);
    WorkerRecovered(w, r);
    OutcomeTexts(w, r);
    OutcomeValues(w, r);
  }

  lemma OutcomePairs(w: Written, r: AttemptOutcomeRecord)
    requires w.event == AttemptOutcome(r)
    ensures w.Pairs() == AttemptOutcomePairs(r)
  {
    hide AttemptOutcomePairs;
  }

  lemma StringIsText(s: string)
    ensures TextValue(Some(s)) == Some(JStr(s))
  {}

  /** Every produced output the writer emits is recovered exactly. */
  lemma OutputRecovered(w: Written, r: OutputProducedRecord)
    requires w.event == OutputProduced(r)
    ensures KindOf(w.Record()) == KOutput
    ensures OutputOf(w.Record()) ==
            ProducedOutput(r.node, r.attempt, r.uri, r.contentHash, r.sizeBytes, r.outputKind,
                           r.producedAtOffsetNs, r.originatingRun)
  {
    hide RecordOf, PairsOfEvent, OffsetOf, KindOf, GetStr, GetU32, GetU64, TextValue;
    HeaderRecovered(w.runId, w.seqNo, w.wall, w.offsetNs, w.event);
    assert w.Pairs() == OutputProducedPairs(r) by { OutputPairs(w, r); }
    StringIsText(r.node);
    StringIsText(r.uri);
    StringIsText(r.originatingRun);
    TextField(w, 0, "node", Some(r.node));
    NumField(w, 1, "attempt", r.attempt);
    TextField(w, 2, "uri", Some(r.uri));
    NumField(w, 3, "produced_at_offset_ns", r.producedAtOffsetNs);
    TextField(w, 4, "originating_run", Some(r.originatingRun));
    TextField(w, 5, "content_hash", r.contentHash);
    SizeField(w, r);
    TextField(w, 7, "output_kind", r.outputKind);
  }

  lemma OutputPairs(w: Written, r: OutputProducedRecord)
    requires w.event == OutputProduced(r)
    ensures w.Pairs() == OutputProducedPairs(r)
  {
    hide OutputProducedPairs;
  }

  lemma SizeField(w: Written, r: OutputProducedRecord)
    requires w.event == OutputProduced(r)
    ensures GetU64(w.Record(), "size_bytes") == match r.sizeBytes case Some(n) => Some(n) case None => None
  {
    hide RecordOf, PairsOfEvent, Get, TextValue;
    OutputPairs(w, r);
    JsonField(w, 6, "size_bytes", NumValue(r.sizeBytes));
  }

  /** The first submission the writer emits for a pair is recovered exactly, with its offset
      as the write-ahead instant and its inputs known even when there are none. */
  lemma SubmissionRecovered(w: Written, r: AttemptSubmittedRecord, outcome: Option<string>)
    requires w.event == AttemptSubmitted(r)
    ensures KeyOf(w.Record(), KSubmitted) == Some((r.node, r.attempt))
    ensures FirstSubmission(w.Record(), (r.node, r.attempt), outcome) ==
            SubmittedAttempt(r.node, r.attempt, Some(InputValues(r.inputs)), r.executor, r.targetName,
                             r.observedName, r.observedUid, r.observedHost, r.structuralFingerprint,
                             r.policyHash, r.toolVersion, r.imageDigest, w.offsetNs, outcome)
  {
    hide RecordOf, PairsOfEvent, OffsetOf, KindOf, GetStr, GetU32, Get, TextValue, InputValues;
    HeaderRecovered(w.runId, w.seqNo, w.wall, w.offsetNs, w.event);
    assert w.Pairs() == AttemptSubmittedPairs(r) by { SubmittedPairs(w, r); }
    StringIsText(r.node);
    TextField(w, 0, "node", Some(r.node));
    NumField(w, 1, "attempt", r.attempt);
    JsonField(w, 2, "inputs", Some(JArr(InputValues(r.inputs))));
    TextField(w, 3, "executor", r.executor);
    TextField(w, 4, "target_name", r.targetName);
    TextField(w, 5, "observed_name", r.observedName);
    TextField(w, 6, "observed_uid", r.observedUid);
    TextField(w, 7, "observed_host", r.observedHost);
    TextField(w, 8, "structural_fingerprint", r.structuralFingerprint);
    TextField(w, 9, "policy_hash", r.policyHash);
    TextField(w, 10, "tool_version", r.toolVersion);
    TextField(w, 11, "image_digest", r.imageDigest);
  }

  lemma SubmittedPairs(w: Written, r: AttemptSubmittedRecord)
    requires w.event == AttemptSubmitted(r)
    ensures w.Pairs() == AttemptSubmittedPairs(r)
  {
    hide AttemptSubmittedPairs;
  }
}
