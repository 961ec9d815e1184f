/** From what a run emits to what a resume reads: the published document, in the names its
    readers use. */
module PublishedRun {
  import opened Text
  import opened Json
  import opened JsonParser
  import opened Canonical
  import opened CanonicalProofs
  import opened TerminalStates
  import opened EventStream
  import opened ReadRecords
  import opened FoldAttempts
  import opened Fold
  import FoldHistory
  import FoldSummary
  import opened FoldPayloads
  import opened FoldOfARun
  import opened WireFormat
  import opened ResumePlan
  import opened Resume

  // ---- What the document says of an artifact --------------------------------

  predicate SaysOrNull(v: Json, name: string, value: Option<Json>) {
    match value case Some(j) => Says(v, name, j) case None => Says(v, name, JNull)
  }

  predicate SaysPhases(v: Json, p: Phases) {
    && Says(v, "backoff", JNum(p.backoff)) && Says(v, "ready-wait", JNum(p.readyWait))
    && Says(v, "permit-wait", JNum(p.permitWait)) && Says(v, "executing", JNum(p.executing))
  }

  predicate SaysRow(v: Json, a: AttemptRecord) {
    && SaysText(v, "node", a.node) && Says(v, "attempt", JNum(a.attempt)) && SaysText(v, "status", a.status)
    && SaysText(v, "worker", a.worker) && Says(v, "metrics", a.metrics)
    && Get(v, "phase_durations_ns").Some? && SaysPhases(Get(v, "phase_durations_ns").value, a.phases)
    && (match a.message case Some(m) => SaysText(v, "message", m) case None => Says(v, "message", JNull))
    && SaysOrNull(v, "error", a.error)
    && SaysOrNull(v, "cost_declared", a.costDeclared) && SaysOrNull(v, "cost_measured", a.costMeasured)
    && Get(v, "durable_reference") == a.durableReference
    && Get(v, "durable_reference_meta") == a.durableReferenceMeta
    && SaysIfAny(v, "satisfied_from_run", a.satisfiedFromRun)
    && SaysIfAny(v, "originating_node", a.originatingNode)
    && Get(v, "inputs") == if a.inputs == [] then None else Some(JArr(a.inputs))
  }

  predicate SaysProduced(v: Json, o: ProducedOutput) {
    && SaysText(v, "node", o.node) && Says(v, "attempt", JNum(o.attempt)) && SaysText(v, "uri", o.uri)
    && Says(v, "produced_at_offset_ns", JNum(o.producedAtOffsetNs))
    && SaysText(v, "originating_run", o.originatingRun) && SaysIfAny(v, "content_hash", o.contentHash)
    && SaysIfAny(v, "kind", o.outputKind)
    && (match o.sizeBytes case Some(n) => Says(v, "size_bytes", JNum(n)) case None => Get(v, "size_bytes") == None)
  }

  predicate SaysStrings(v: Json, name: string, texts: seq<string>) {
    match GetArr(v, name)
    case Some(items) => |items| == |texts| && forall i :: 0 <= i < |items| ==> items[i] == JStr(texts[i])
    case None => false
  }

  predicate SaysSummary(v: Json, s: RunSummary) {
    && Says(v, "total_elapsed_ns", JNum(s.totalElapsedNs)) && Says(v, "critical_path_ns", JNum(s.criticalPathNs))
    && Says(v, "peak_slot_residency", JNum(s.peakSlotResidency)) && SaysStrings(v, "retained_values", s.retainedValues)
    && Says(v, "abandoned_pinned_time_ns", JNum(s.abandonedPinnedTimeNs))
    && Says(v, "abandoned_pinned_capacity", JNum(s.abandonedPinnedCapacity))
  }

  predicate SaysRows(v: Json, attempts: seq<AttemptRecord>) {
    match GetArr(v, "attempts")
    case Some(items) => |items| == |attempts| && forall i :: 0 <= i < |items| ==> SaysRow(items[i], attempts[i])
    case None => false
  }

  predicate SaysOutputs(v: Json, outputs: seq<ProducedOutput>) {
    match GetArr(v, "outputs")
    case Some(items) => |items| == |outputs| && forall i :: 0 <= i < |items| ==> SaysProduced(items[i], outputs[i])
    case None => false
  }

  /** The fields every attempt's row has. */
  function RowBase(a: AttemptRecord): map<string, Json> {
    map[
      "node" := JStr(a.node), "attempt" := JNum(a.attempt), "status" := JStr(a.status),
      "phase_durations_ns" := PhasesValue(a.phases), "worker" := JStr(a.worker),
      "message" := StrOrNull(a.message), "error" := OrNull(a.error), "metrics" := a.metrics,
      "cost_declared" := OrNull(a.costDeclared), "cost_measured" := OrNull(a.costMeasured)]
  }

  predicate IsOptional(name: string) {
    name in {"durable_reference", "durable_reference_meta", "satisfied_from_run", "originating_node", "inputs"}
  }

  lemma OptionSaid(m: map<string, Json>, field: string, o: Option<Json>)
    ensures forall name :: name != field ==> Get(JObj(WithOpt(m, field, o)), name) == Get(JObj(m), name)
    ensures Get(JObj(m), field) == None ==> Get(JObj(WithOpt(m, field, o)), field) == o
  {}

  lemma BaseSaid(a: AttemptRecord, v: Json)
    requires forall name :: !IsOptional(name) ==> Get(v, name) == Get(JObj(RowBase(a)), name)
    ensures SaysText(v, "node", a.node) && Says(v, "attempt", JNum(a.attempt)) && SaysText(v, "status", a.status)
    ensures SaysText(v, "worker", a.worker) && Says(v, "metrics", a.metrics)
    ensures Get(v, "phase_durations_ns").Some? && SaysPhases(Get(v, "phase_durations_ns").value, a.phases)
    ensures match a.message case Some(m) => SaysText(v, "message", m) case None => Says(v, "message", JNull)
    ensures SaysOrNull(v, "error", a.error)
    ensures SaysOrNull(v, "cost_declared", a.costDeclared) && SaysOrNull(v, "cost_measured", a.costMeasured)
  {
    hide Get, RowBase;
    NamesAreNot();
    BaseGives(a);
  }

  lemma NamesAreNot()
    ensures !IsOptional("node") && !IsOptional("attempt") && !IsOptional("status") && !IsOptional("worker")
    ensures !IsOptional("metrics") && !IsOptional("phase_durations_ns") && !IsOptional("message")
    ensures !IsOptional("error") && !IsOptional("cost_declared") && !IsOptional("cost_measured")
  {}

  lemma BaseGives(a: AttemptRecord)
    ensures var v := JObj(RowBase(a));
            && Get(v, "node") == Some(JStr(a.node)) && Get(v, "attempt") == Some(JNum(a.attempt))
            && Get(v, "status") == Some(JStr(a.status)) && Get(v, "worker") == Some(JStr(a.worker))
            && Get(v, "metrics") == Some(a.metrics) && Get(v, "message") == Some(StrOrNull(a.message))
            && Get(v, "error") == Some(OrNull(a.error)) && Get(v, "cost_declared") == Some(OrNull(a.costDeclared))
            && Get(v, "cost_measured") == Some(OrNull(a.costMeasured))
            && Get(v, "phase_durations_ns") == Some(PhasesValue(a.phases))
    ensures SaysPhases(PhasesValue(a.phases), a.phases)
  {
    hide StrOrNull, OrNull;
  }

  lemma NoOptions(a: AttemptRecord)
    ensures forall name :: name in RowBase(a) ==> !IsOptional(name)
  {}

  lemma RowSaid(a: AttemptRecord)
    ensures SaysRow(AttemptValue(a), a)
  {
    hide RowBase, WithOpt, IsOptional, PhasesValue, SaysPhases;
    var inputs := if a.inputs == [] then None else Some(JArr(a.inputs));
    RowIs(a);
    OptionsSaid(RowBase(a), a.durableReference, a.durableReferenceMeta, TextValue(a.satisfiedFromRun),
                TextValue(a.originatingNode), inputs) by { NoOptions(a); }
    BaseSaid(a, AttemptValue(a));
  }

  /** The row as the options laid over the base, one after another. */
  function Optioned(m: map<string, Json>, o1: Option<Json>, o2: Option<Json>, o3: Option<Json>, o4: Option<Json>,
                    o5: Option<Json>): map<string, Json> {
    WithOpt(WithOpt(WithOpt(WithOpt(WithOpt(m, "durable_reference", o1), "durable_reference_meta", o2),
                            "satisfied_from_run", o3), "originating_node", o4), "inputs", o5)
  }

  lemma RowIs(a: AttemptRecord)
    ensures AttemptValue(a) ==
            JObj(Optioned(RowBase(a), a.durableReference, a.durableReferenceMeta, TextValue(a.satisfiedFromRun),
                          TextValue(a.originatingNode), if a.inputs == [] then None else Some(JArr(a.inputs))))
  {
    hide PhasesValue, TextValue, OrNull, StrOrNull;
  }

  lemma OptionsSaid(m: map<string, Json>, o1: Option<Json>, o2: Option<Json>, o3: Option<Json>, o4: Option<Json>,
                    o5: Option<Json>)
    requires forall name :: name in m ==> !IsOptional(name)
    ensures var v := JObj(Optioned(m, o1, o2, o3, o4, o5));
            && (forall name :: !IsOptional(name) ==> Get(v, name) == Get(JObj(m), name))
            && Get(v, "durable_reference") == o1 && Get(v, "durable_reference_meta") == o2
            && Get(v, "satisfied_from_run") == o3 && Get(v, "originating_node") == o4 && Get(v, "inputs") == o5
  {
    hide WithOpt;
    var m1 := WithOpt(m, "durable_reference", o1);
    var m2 := WithOpt(m1, "durable_reference_meta", o2);
    var m3 := WithOpt(m2, "satisfied_from_run", o3);
    var m4 := WithOpt(m3, "originating_node", o4);
    OptionSaid(m, "durable_reference", o1);
    OptionSaid(m1, "durable_reference_meta", o2);
    OptionSaid(m2, "satisfied_from_run", o3);
    OptionSaid(m3, "originating_node", o4);
    OptionSaid(m4, "inputs", o5);
  }

  lemma ProducedSaid(o: ProducedOutput)
    ensures SaysProduced(OutputValue(o), o)
  {}

  lemma SummarySaid(s: RunSummary)
    ensures SaysSummary(SummaryValue(s), s)
  {}

  /** The body of the document: its attempts, outputs and summary. */
  lemma BodySaid(a: RunArtifact)
    ensures SaysRows(DocumentOf(a), a.attempts) && SaysOutputs(DocumentOf(a), a.outputs)
    ensures a.summary.None? ==> Says(DocumentOf(a), "summary", JNull)
    ensures a.summary.Some? ==>
              Get(DocumentOf(a), "summary").Some? && SaysSummary(Get(DocumentOf(a), "summary").value, a.summary.value)
    ensures Says(DocumentOf(a), "interrupted", JBool(a.interrupted))
  {
    hide AttemptValue, OutputValue, SummaryValue, SaysRow, SaysProduced, SaysSummary;
    forall i | 0 <= i < |a.attempts| ensures SaysRow(AttemptValue(a.attempts[i]), a.attempts[i]) {
      RowSaid(a.attempts[i]);
    }
    forall i | 0 <= i < |a.outputs| ensures SaysProduced(OutputValue(a.outputs[i]), a.outputs[i]) {
      ProducedSaid(a.outputs[i]);
    }
    if a.summary.Some? { SummarySaid(a.summary.value); }
  }

  /** Its header: the run's own, with how the run ended. */
  lemma HeaderKept(a: RunArtifact, runId: string, h: RunStartedHeader)
    requires SaysHeader(a.header, runId, h) && a.errors == []
    ensures Get(DocumentOf(a), "header").Some?
    ensures var header := Get(DocumentOf(a), "header").value;
            SaysHeader(header, runId, h) && SaysText(header, "overall_outcome", a.overallOutcome)
            && (Get(a.header, "tool_version") == None ==> Get(header, "tool_version") == None)
  {
    hide AttemptValue, OutputValue, SummaryValue;
    var header := Get(DocumentOf(a), "header").value;
    assert header == JObj(Fold.HeaderFields(a.header)["overall_outcome" := JStr(a.overallOutcome)]);
    HeaderUnchanged(a.header, runId, h, a.overallOutcome);
  }

  lemma HeaderUnchanged(header: Json, runId: string, h: RunStartedHeader, outcome: string)
    requires SaysHeader(header, runId, h)
    ensures header.JObj?
    ensures SaysHeader(JObj(header.fields["overall_outcome" := JStr(outcome)]), runId, h)
  {}

  // ---- What a run emitted --------------------------------------------------

  function FirstStart(emissions: seq<Call>): Option<RunStartedHeader>
    requires AllEmissions(emissions)
  {
    if emissions == [] then None
    else
      var last := emissions[|emissions| - 1];
      assert last in emissions;
      var before := FirstStart(emissions[..|emissions| - 1]);
      if before.Some? then before else if last.event.RunStarted? then Some(last.event.header) else None
  }

  function FirstFinish(emissions: seq<Call>): Option<RunOutcome>
    requires AllEmissions(emissions)
  {
    if emissions == [] then None
    else
      var last := emissions[|emissions| - 1];
      assert last in emissions;
      var before := FirstFinish(emissions[..|emissions| - 1]);
      if before.Some? then before else if last.event.RunFinished? then Some(last.event.runOutcome) else None
  }

  function LastOutcome(emissions: seq<Call>, n: string): Option<AttemptOutcomeRecord>
    requires AllEmissions(emissions)
  {
    if emissions == [] then None
    else
      var last := emissions[|emissions| - 1];
      assert last in emissions;
      if last.event.AttemptOutcome? && last.event.outcome.node == n then Some(last.event.outcome)
      else LastOutcome(emissions[..|emissions| - 1], n)
  }

  function LastState(emissions: seq<Call>, n: string): Option<TerminalState>
    requires AllEmissions(emissions)
  {
    if emissions == [] then None
    else
      var last := emissions[|emissions| - 1];
      assert last in emissions;
      if last.event.NodeTerminal? && last.event.node == n then Some(last.event.state)
      else LastState(emissions[..|emissions| - 1], n)
  }

  /** The record of an accepted emission: its kind, and what it says. */
  lemma RecordSays(runId: string, k: nat, c: Call)
    requires c.Emit?
    ensures KindOf(RecordOfCall(runId, k, c)) == KindOfWritten(c.event)
    ensures SaysEvent(RecordOfCall(runId, k, c), c.event, runId)
  {
    hide RecordOf, KindOf, SaysEvent, KindOfWritten;
    HeaderRecovered(runId, k, c.wall, c.offsetNs, c.event);
    EventSaid(WrittenCall(runId, k, c));
  }

  lemma NoErrors(runId: string, k: nat, c: Call)
    requires c.Emit? && c.event.RunFinished?
    ensures Get(RecordOfCall(runId, k, c), "errors") == None
  {
    hide RecordOf, OutcomeName;
    UnusedNameIsAbsent(runId, k, c.wall, c.offsetNs, c.event, "errors");
  }

  /** What the fold's first run-started says, if there is one. */
  predicate StartSaid(rec: Option<Json>, runId: string, h: Option<RunStartedHeader>) {
    match (rec, h)
    case (None, None) => true
    case (Some(r), Some(header)) => Get(r, "header").Some? && SaysHeader(Get(r, "header").value, runId, header)
                                    && Get(Get(r, "header").value, "tool_version") == None
    case _ => false
  }

  predicate FinishSaid(rec: Option<Json>, o: Option<RunOutcome>) {
    match (rec, o)
    case (None, None) => true
    case (Some(r), Some(outcome)) => SaysRunOutcome(r, outcome) && Get(r, "errors") == None
    case _ => false
  }

  lemma {:induction false} FirstsFold(runId: string, emissions: seq<Call>)
    requires AllEmissions(emissions)
    ensures StartSaid(FirstOf(Numbered(runId, emissions), KRunStarted), runId, FirstStart(emissions))
    ensures FinishSaid(FirstOf(Numbered(runId, emissions), KRunFinished), FirstFinish(emissions))
  {
    hide RecordOfCall, KindOf, FirstOf, Numbered, AllEmissions, SaysHeader, SaysRunOutcome;
    if emissions == [] {
      NoFirsts(runId);
    } else {
      var k, rs := |emissions| - 1, Numbered(runId, emissions);
      NumberedLast(runId, emissions);
      FirstsFold(runId, emissions[..k]);
      FoldHistory.FirstOfAppend(rs[..k], rs[k], KRunStarted);
      FoldHistory.FirstOfAppend(rs[..k], rs[k], KRunFinished);
      assert rs == rs[..k] + [rs[k]];
      OneFirst(runId, k, emissions[k]);
    }
  }

  lemma NoFirsts(runId: string)
    ensures FirstOf(Numbered(runId, []), KRunStarted) == None && FirstOf(Numbered(runId, []), KRunFinished) == None
  {}

  lemma OneFirst(runId: string, k: nat, c: Call)
    requires c.Emit?
    ensures var rec := RecordOfCall(runId, k, c);
            && (KindOf(rec) == KRunStarted <==> c.event.RunStarted?)
            && (KindOf(rec) == KRunFinished <==> c.event.RunFinished?)
            && (c.event.RunStarted? ==> StartSaid(Some(rec), runId, Some(c.event.header)))
            && (c.event.RunFinished? ==> FinishSaid(Some(rec), Some(c.event.runOutcome)))
  {
    hide RecordOfCall, KindOf, SaysRunOutcome, SaysHeader;
    RecordSays(runId, k, c);
    if c.event.RunFinished? { NoErrors(runId, k, c); }
    if c.event.RunStarted? { NoTool(runId, k, c); }
  }

  lemma NoTool(runId: string, k: nat, c: Call)
    requires c.Emit? && c.event.RunStarted? && Get(RecordOfCall(runId, k, c), "header").Some?
    ensures Get(Get(RecordOfCall(runId, k, c), "header").value, "tool_version") == None
  {
    hide RecordOf;
    JsonField(WrittenCall(runId, k, c), 0, "header", Some(RunStartedHeaderValue(c.event.header, runId)));
  }

  // ---- What a resume reads of a node ---------------------------------------

  function RowsOf(attempts: seq<AttemptRecord>): (rows: seq<Json>)
    ensures |rows| == |attempts| && forall i :: 0 <= i < |rows| ==> rows[i] == AttemptValue(attempts[i])
  {
    seq(|attempts|, i requires 0 <= i < |attempts| => AttemptValue(attempts[i]))
  }

  /** A reference kept as text; null is none, and what is not text is printed. */
  function ReferenceText(o: Option<Json>): Option<string> {
    match o
    case None => None
    case Some(JNull) => None
    case Some(JStr(s)) => Some(s)
    case Some(other) => Some(ValueText(other))
  }

  function HashText(o: Option<Json>): Option<string> {
    match o case Some(meta) => GetStr(meta, "content_hash") case None => None
  }

  /** The state is the one of that name, and failed under any other. */
  predicate IsStateOf(state: TerminalState, status: string) {
    (exists s :: StateName(s) == status && state == s) || ((forall s :: StateName(s) != status) && state == Failed)
  }

  lemma StateIsOf(status: string)
    ensures IsStateOf(TerminalOf(status), status)
  {
    if s :| StateName(s) == status { StateReadsBack(s); } else { NoStateNamed(status); }
  }

  lemma NoStateNamed(status: string)
    requires forall s :: StateName(s) != status
    ensures TerminalOf(status) == Failed
  {
    assert StateName(Succeeded) != status && StateName(TimedOut) != status && StateName(Skipped) != status;
    assert StateName(UpstreamSkipped) != status && StateName(UpstreamFailed) != status;
    assert StateName(Cancelled) != status && StateName(Abandoned) != status;
    assert StateName(SatisfiedFromPrior) != status;
  }

  /** What an attempt's row is read as. */
  lemma RowReads(a: AttemptRecord, runId: string)
    ensures GetStr(AttemptValue(a), "node") == Some(a.node)
    ensures NodeFrom(AttemptValue(a), runId) ==
            PriorNode(TerminalOf(a.status), ReferenceText(a.durableReference), HashText(a.durableReferenceMeta),
                      UnwrapOr(a.satisfiedFromRun, runId))
  {
    hide AttemptValue, TerminalOf, ValueText;
    RowSaid(a);
  }

  predicate FromOutcome(p: PriorNode, r: AttemptOutcomeRecord, runId: string) {
    && IsStateOf(p.terminal, r.status) && p.reference == ReferenceText(r.durableReference)
    && p.hash == HashText(r.durableReferenceMeta) && p.origin == UnwrapOr(r.satisfiedFromRun, runId)
  }

  lemma OutcomeReads(a: AttemptRecord, r: AttemptOutcomeRecord, runId: string)
    requires RecoversOutcome(a, r)
    ensures GetStr(AttemptValue(a), "node") == Some(r.node) && FromOutcome(NodeFrom(AttemptValue(a), runId), r, runId)
  {
    hide AttemptValue, NodeFrom, TerminalOf, ValueText, IsStateOf;
    RowReads(a, runId);
    StateIsOf(r.status);
  }

  lemma NodesFromLast(attempts: seq<AttemptRecord>, a: AttemptRecord, runId: string)
    ensures NodesFrom(RowsOf(attempts + [a]), runId) ==
            NodesFrom(RowsOf(attempts), runId)[a.node := NodeFrom(AttemptValue(a), runId)]
  {
    hide AttemptValue, NodeFrom;
    RowReads(a, runId);
    var rows := RowsOf(attempts + [a]);
    assert rows[..|rows| - 1] == RowsOf(attempts) && rows[|rows| - 1] == AttemptValue(a);
  }

  lemma NoRows(runId: string)
    ensures NodesFrom(RowsOf([]), runId) == map[]
  {}

  /** Of a node with an outcome the last one is read, and of no other node anything. */
  lemma {:induction false} OutcomesRead(runId: string, emissions: seq<Call>, n: string)
    requires AllEmissions(emissions)
    ensures var nodes := NodesFrom(RowsOf(ScanAll(Numbered(runId, emissions)).attempts), runId);
            match LastOutcome(emissions, n)
            case Some(r) => n in nodes && FromOutcome(nodes[n], r, runId)
            case None => n !in nodes
  {
    hide RecordOfCall, ScanStep, Numbered, AllEmissions, RowsOf, NodesFrom, NodeFrom, FromOutcome, RecoversOutcome;
    if emissions == [] {
      NoAttempts(runId);
      NoRows(runId);
    } else {
      var k := |emissions| - 1;
      NumberedLast(runId, emissions);
      var c, s := emissions[k], ScanAll(Numbered(runId, emissions[..k]));
      OutcomesRead(runId, emissions[..k], n);
      OneOutcome(runId, k, c, s);
      var after := ScanAll(Numbered(runId, emissions)).attempts;
      if c.event.AttemptOutcome? {
        assert after == s.attempts + [after[|s.attempts|]];
        NodesFromLast(s.attempts, after[|s.attempts|], runId);
        OutcomeReads(after[|s.attempts|], c.event.outcome, runId);
        assert after[|s.attempts|].node == c.event.outcome.node by {
          RecoversNode(after[|s.attempts|], c.event.outcome);
        }
      }
    }
  }

  lemma RecoversNode(a: AttemptRecord, r: AttemptOutcomeRecord)
    requires RecoversOutcome(a, r)
    ensures a.node == r.node
  {}

  lemma NoAttempts(runId: string)
    ensures ScanAll(Numbered(runId, [])).attempts == [] && ScanAll(Numbered(runId, [])).terminal == map[]
  {}

  /** A terminal record with nothing but its node and its state. */
  predicate TerminalSaid(rec: Json, state: TerminalState) {
    && GetStr(rec, "state") == Some(StateName(state))
    && Get(rec, "durable_reference") == None && Get(rec, "durable_reference_meta") == None
    && Get(rec, "satisfied_from_run") == None
  }

  lemma OneTerminal(runId: string, k: nat, c: Call, s: Scan)
    requires c.Emit?
    ensures var after := ScanStep(s, RecordOfCall(runId, k, c)).terminal;
            && (!c.event.NodeTerminal? ==> after == s.terminal)
            && (c.event.NodeTerminal? ==>
                  after == s.terminal[c.event.node := RecordOfCall(runId, k, c)]
                  && TerminalSaid(RecordOfCall(runId, k, c), c.event.state))
  {
    hide KindOf, NodeOf, OffsetOf, RecordOf, BuildAttemptRecord, StateName;
    HeaderRecovered(runId, k, c.wall, c.offsetNs, c.event);
    if c.event.NodeTerminal? {
      TerminalFields(WrittenCall(runId, k, c));
    } else {
      OnlyTerminalsEnd(s, RecordOfCall(runId, k, c));
    }
  }

  lemma OnlyTerminalsEnd(s: Scan, rec: Json)
    requires KindOf(rec) != KTerminal
    ensures ScanStep(s, rec).terminal == s.terminal
  {
    hide KindOf, NodeOf, OffsetOf, BuildAttemptRecord;
  }

  lemma TerminalFields(w: Written)
    requires w.event.NodeTerminal?
    ensures NodeOf(w.Record()) == Some(w.event.node) && TerminalSaid(w.Record(), w.event.state)
  {
    hide RecordOf, StateName, PairsOfEvent;
    FirstPairs(w);
    JsonField(w, 0, "node", Some(JStr(w.event.node)));
    JsonField(w, 1, "state", Some(JStr(StateName(w.event.state))));
    UnusedNameIsAbsent(w.runId, w.seqNo, w.wall, w.offsetNs, w.event, "durable_reference");
    UnusedNameIsAbsent(w.runId, w.seqNo, w.wall, w.offsetNs, w.event, "durable_reference_meta");
    UnusedNameIsAbsent(w.runId, w.seqNo, w.wall, w.offsetNs, w.event, "satisfied_from_run");
  }

  lemma {:induction false} TerminalsRead(runId: string, emissions: seq<Call>, n: string)
    requires AllEmissions(emissions)
    ensures var terminal := ScanAll(Numbered(runId, emissions)).terminal;
            match LastState(emissions, n)
            case Some(state) => n in terminal && TerminalSaid(terminal[n], state)
            case None => n !in terminal
  {
    hide RecordOfCall, ScanStep, Numbered, AllEmissions, TerminalSaid;
    if emissions == [] {
      NoAttempts(runId);
    } else {
      var k := |emissions| - 1;
      NumberedLast(runId, emissions);
      TerminalsRead(runId, emissions[..k], n);
      OneTerminal(runId, k, emissions[k], ScanAll(Numbered(runId, emissions[..k])));
    }
  }

  /** A terminal-only node's row is read as its state. */
  lemma NeverRanReads(n: string, rec: Json, state: TerminalState, runId: string)
    requires TerminalSaid(rec, state)
    ensures NodeFrom(AttemptValue(SynthesizeNeverRan(n, rec)), runId) == PriorNode(state, None, None, runId)
  {
    hide AttemptValue, NodeFrom, TerminalOf, StateName, ValueText;
    RowReads(SynthesizeNeverRan(n, rec), runId);
    StateReadsBack(state);
  }

  lemma {:induction false} NeverRanRowsRead(s: Scan, names: seq<string>, runId: string, n: string)
    requires forall m <- names :: m in s.terminal
    ensures var nodes := NodesFrom(RowsOf(NeverRanRows(s, names)), runId);
            && (n in nodes <==> n in names && n !in s.ran)
            && (n in nodes ==> nodes[n] == NodeFrom(AttemptValue(SynthesizeNeverRan(n, s.terminal[n])), runId))
  {
    hide RowsOf, NodesFrom, NodeFrom, AttemptValue;
    if names == [] {
      NoRows(runId);
    } else {
      var k := |names| - 1;
      NeverRanRowsRead(s, names[..k], runId, n);
      assert names == names[..k] + [names[k]];
      if names[k] !in s.ran {
        NodesFromLast(NeverRanRows(s, names[..k]), SynthesizeNeverRan(names[k], s.terminal[names[k]]), runId);
      }
    }
  }

  lemma {:induction false} CoversIsNamed(attempts: seq<AttemptRecord>, runId: string, n: string)
    ensures Covers(attempts, n) <==> n in NodesFrom(RowsOf(attempts), runId)
  {
    hide RowsOf, NodesFrom, NodeFrom;
    if attempts == [] {
      NoRows(runId);
    } else {
      var k := |attempts| - 1;
      assert attempts == attempts[..k] + [attempts[k]];
      CoversIsNamed(attempts[..k], runId, n);
      NodesFromLast(attempts[..k], attempts[k], runId);
      assert Covers(attempts, n) <==> Covers(attempts[..k], n) || attempts[k].node == n;
    }
  }

  lemma RosterReads(n: string, runId: string)
    ensures NodeFrom(AttemptValue(RosterRow(n)), runId) == PriorNode(UpstreamFailed, None, None, runId)
  {
    hide AttemptValue, NodeFrom;
    RowReads(RosterRow(n), runId);
  }

  lemma {:induction false} RosterRowsRead(attempts: seq<AttemptRecord>, roster: seq<string>, runId: string, n: string)
    ensures var before := NodesFrom(RowsOf(attempts), runId);
            var nodes := NodesFrom(RowsOf(WithRoster(attempts, roster)), runId);
            && (n in nodes <==> n in before || n in roster)
            && (n in nodes ==>
                nodes[n] == if n in before then before[n] else PriorNode(UpstreamFailed, None, None, runId))
  {
    hide RowsOf, NodesFrom, NodeFrom, Covers, RosterRow;
    if roster != [] {
      var k := |roster| - 1;
      var all := WithRoster(attempts, roster[..k]);
      assert roster == roster[..k] + [roster[k]];
      RosterRowsRead(attempts, roster[..k], runId, n);
      CoversIsNamed(all, runId, roster[k]);
      if !Covers(all, roster[k]) {
        NodesFromLast(all, RosterRow(roster[k]), runId);
        RosterNamed(roster[k]);
        RosterReads(roster[k], runId);
      }
    }
  }

  lemma RosterNamed(n: string)
    ensures RosterRow(n).node == n
  {}

  /** What a resume is to read of the node, in terms of what the run emitted: its last outcome;
      where it has none, its last terminal state; where it has neither, that the graph lists it
      and nothing else. */
  predicate ReadAs(nodes: map<string, PriorNode>, emissions: seq<Call>, roster: seq<string>, runId: string, n: string)
    requires AllEmissions(emissions)
  {
    match LastOutcome(emissions, n)
    case Some(r) => n in nodes && FromOutcome(nodes[n], r, runId)
    case None =>
      match LastState(emissions, n)
      case Some(state) => n in nodes && nodes[n] == PriorNode(state, None, None, runId)
      case None =>
        if n in roster then n in nodes && nodes[n] == PriorNode(UpstreamFailed, None, None, runId) else n !in nodes
  }

  lemma NodesRead(runId: string, emissions: seq<Call>, roster: seq<string>, n: string)
    requires AllEmissions(emissions)
    ensures var nodes := NodesFrom(RowsOf(AttemptsOf(Numbered(runId, emissions), roster)), runId);
            ReadAs(nodes, emissions, roster, runId, n)
  {
    hide RecordOfCall, ScanAll, Numbered, AllEmissions, RowsOf, NodesFrom, NodeFrom, FromOutcome, WithRoster,
      NeverRanRows, Covers, LastOutcome, LastState, TerminalSaid, Sorted, AttemptValue, SynthesizeNeverRan;
    var rs := Numbered(runId, emissions);
    var s := ScanAll(rs);
    OutcomesRead(runId, emissions, n);
    TerminalsRead(runId, emissions, n);
    FoldSummary.RanIsCovered(rs, n);
    CoversIsNamed(s.attempts, runId, n);
    NeverRanRowsRead(s, Sorted(s.terminal.Keys), runId, n);
    RowsAppend(s.attempts, CoverageRows(s), runId);
    RosterRowsRead(s.attempts + CoverageRows(s), roster, runId, n);
    if LastState(emissions, n).Some? { NeverRanReads(n, s.terminal[n], LastState(emissions, n).value, runId); }
  }

  lemma RowsAppend(a: seq<AttemptRecord>, b: seq<AttemptRecord>, runId: string)
    ensures NodesFrom(RowsOf(a + b), runId) == NodesFrom(RowsOf(a), runId) + NodesFrom(RowsOf(b), runId)
  {
    hide NodesFrom, AttemptValue;
    assert RowsOf(a + b) == RowsOf(a) + RowsOf(b);
    NodesFromAppend(RowsOf(a), RowsOf(b), runId);
  }

  // ---- End to end ----------------------------------------------------------

  /** How the run ended: the name its first run-finished carries; a run that never said so was
      interrupted and reads as cancelled. */
  predicate SaysEnding(v: Json, finish: Option<RunOutcome>) {
    && Get(v, "header").Some? && Says(v, "interrupted", JBool(finish.None?))
    && match finish
       case Some(RunSucceeded) => SaysText(Get(v, "header").value, "overall_outcome", "succeeded")
       case Some(RunFailed) => SaysText(Get(v, "header").value, "overall_outcome", "failed")
       case Some(RunCancelled) => SaysText(Get(v, "header").value, "overall_outcome", "cancelled")
       case Some(AssemblyFailed) => SaysText(Get(v, "header").value, "overall_outcome", "assembly-failed")
       case Some(BootstrapFailed) => SaysText(Get(v, "header").value, "overall_outcome", "bootstrap-failed")
       case None => SaysText(Get(v, "header").value, "overall_outcome", "cancelled")
  }

  predicate NeverExecuted(finish: Option<RunOutcome>) {
    finish == Some(AssemblyFailed) || finish == Some(BootstrapFailed)
  }

  /** What a run that executed is published with: every attempt, output and summary figure
      under its name; and of every node a resume reads what the run last said of it. */
  ghost predicate SaysExecution(v: Json, emissions: seq<Call>, records: seq<Json>, roster: seq<string>, runId: string,
                          tool: string)
    requires AllEmissions(emissions)
  {
    var attempts := AttemptsOf(records, roster);
    && SaysRows(v, attempts) && SaysOutputs(v, OutputsOf(records))
    && Get(v, "summary").Some? && SaysSummary(Get(v, "summary").value, SummaryOf(records, attempts))
    && Get(v, "header").Some?
    && forall n :: ReadAs(PriorRunOf(Get(v, "header").value, v, runId, tool).nodes, emissions, roster, runId, n)
  }

  predicate SaysNothingExecuted(v: Json) {
    SaysRows(v, []) && SaysOutputs(v, []) && Says(v, "summary", JNull)
  }

  /** **From the run to its document and back.** Whatever appends failed, if a run-started was
      accepted the accepted bytes fold, and the published text of the fold parses to a document
      whose header is that run-started's, which says how the run ended, and which says of its
      execution what the accepted emissions did. */
  lemma PublishedRunReadsBack(runId: string, calls: seq<Call>, roster: seq<string>, tool: string)
    requires FirstStart(Accepted(calls)).Some?
    ensures var emissions, folded := Accepted(calls), FoldStream(Joined(Run(runId, calls).lines), roster);
            && folded.Ok? && ParseText(ValueText(DocumentOf(folded.value))).Some?
            && var v := ParseText(ValueText(DocumentOf(folded.value))).value;
            && SaysEnding(v, FirstFinish(emissions))
            && SaysHeader(Get(v, "header").value, runId, FirstStart(emissions).value)
            && if NeverExecuted(FirstFinish(emissions)) then SaysNothingExecuted(v)
               else SaysExecution(v, emissions, AcceptedRecords(runId, calls), roster, runId, tool)
  {
    hide Run, Joined, Numbered, Accepted, FoldStream, Read, ParseText, ValueText, DocumentOf, SaysEnding, SaysHeader,
      SaysExecution, SaysNothingExecuted, FirstStart, FirstFinish, NeverExecuted;
    FoldHistory.ReadWhole(runId, calls);
    var bytes := Joined(Run(runId, calls).lines);
    RecordsReadBack(runId, Accepted(calls), bytes, roster, tool);
    ParseUndoesPrint(DocumentOf(FoldStream(bytes, roster).value));
  }

  lemma RecordsReadBack(runId: string, emissions: seq<Call>, bytes: string, roster: seq<string>, tool: string)
    requires AllEmissions(emissions) && FirstStart(emissions).Some?
    requires Read(bytes) == Ok(ReadStream(Numbered(runId, emissions), false))
    ensures FoldStream(bytes, roster).Ok?
    ensures var v := DocumentOf(FoldStream(bytes, roster).value);
            && SaysEnding(v, FirstFinish(emissions))
            && SaysHeader(Get(v, "header").value, runId, FirstStart(emissions).value)
            && if NeverExecuted(FirstFinish(emissions)) then SaysNothingExecuted(v)
               else SaysExecution(v, emissions, Numbered(runId, emissions), roster, runId, tool)
  {
    hide Numbered, Read, DocumentOf, SaysHeader, FirstStart, FirstFinish, AttemptsOf, SummaryOf, OutputsOf, SaysRows,
      SaysOutputs, SaysSummary, PriorRunOf, ReadAs, FirstOf, FoldSubmissions.SubmissionsOf, RowsOf;
    var rs := Numbered(runId, emissions);
    FirstsFold(runId, emissions);
    var a := FoldStream(bytes, roster).value;
    var finished := FirstOf(rs, KRunFinished);
    EndingIs(finished, FirstFinish(emissions));
    assert a.header == Get(FirstOf(rs, KRunStarted).value, "header").value;
    BodySaid(a);
    HeaderKept(a, runId, FirstStart(emissions).value);
    if !NeverExecuted(FirstFinish(emissions)) {
      forall n
        ensures ReadAs(PriorRunOf(Get(DocumentOf(a), "header").value, DocumentOf(a), runId, tool).nodes,
                       emissions, roster, runId, n)
      {
        NodesRead(runId, emissions, roster, n);
        DocumentRows(a, runId, tool);
      }
    }
  }

  lemma DocumentRows(a: RunArtifact, runId: string, tool: string)
    requires Get(DocumentOf(a), "header").Some?
    ensures PriorRunOf(Get(DocumentOf(a), "header").value, DocumentOf(a), runId, tool).nodes
            == NodesFrom(RowsOf(a.attempts), runId)
  {
    hide NodesFrom, AttemptValue, ParseFingerprint, OutputValue, SummaryValue;
    assert AttemptsIn(DocumentOf(a)) == RowsOf(a.attempts);
  }

  lemma EndingIs(finished: Option<Json>, finish: Option<RunOutcome>)
    requires FinishSaid(finished, finish)
    ensures finished.None? <==> finish.None?
    ensures ErrorsOf(finished) == []
    ensures OverallOutcome(finished) ==
            match finish
            case Some(RunSucceeded) => "succeeded" case Some(RunFailed) => "failed"
            case Some(RunCancelled) => "cancelled" case Some(AssemblyFailed) => "assembly-failed"
            case Some(BootstrapFailed) => "bootstrap-failed" case None => "cancelled"
    ensures PreExecution(OverallOutcome(finished)) <==> NeverExecuted(finish)
  {}
}
