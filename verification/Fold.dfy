/** The fold: from stream bytes to the run artifact and its published document. */
module Fold {
  import opened Text
  import opened Json
  import opened ReadRecords
  import opened FoldAttempts
  import opened FoldSubmissions
  import opened CriticalPath

  // ---- Produced outputs ----------------------------------------------------

  datatype ProducedOutput = ProducedOutput(
    node: string,
    attempt: nat,
    uri: string,
    contentHash: Option<string>,
    sizeBytes: Option<nat>,
    outputKind: Option<string>,
    producedAtOffsetNs: nat,
    originatingRun: string)

  function OutputOf(rec: Json): ProducedOutput {
    ProducedOutput(
      UnwrapOr(GetStr(rec, "node"), ""),
      UnwrapOr(GetU32(rec, "attempt"), 1),
      UnwrapOr(GetStr(rec, "uri"), ""),
      GetStr(rec, "content_hash"),
      GetU64(rec, "size_bytes"),
      GetStr(rec, "output_kind"),
      UnwrapOr(GetU64(rec, "produced_at_offset_ns"), OffsetOf(rec)),
      UnwrapOr(GetStr(rec, "originating_run"), ""))
  }

  function OutputsOf(rs: seq<Json>): seq<ProducedOutput> {
    if rs == [] then []
    else OutputsOf(rs[..|rs| - 1]) + if KindOf(rs[|rs| - 1]) == KOutput then [OutputOf(rs[|rs| - 1])] else []
  }

  // ---- The summary ---------------------------------------------------------

  datatype RunSummary = RunSummary(
    totalElapsedNs: nat,
    criticalPathNs: nat,
    peakSlotResidency: nat,
    retainedValues: seq<string>,
    abandonedPinnedTimeNs: nat,
    abandonedPinnedCapacity: nat)

  function Max(a: nat, b: nat): nat { if a < b then b else a }

  function MaxOffset(rs: seq<Json>): nat {
    if rs == [] then 0 else Max(MaxOffset(rs[..|rs| - 1]), OffsetOf(rs[|rs| - 1]))
  }

  function PeakResidency(rs: seq<Json>): nat {
    if rs == [] then 0
    else
      var rec := rs[|rs| - 1];
      var peak := PeakResidency(rs[..|rs| - 1]);
      if KindOf(rec) == KOutcome then Max(peak, UnwrapOr(GetU64(rec, "slot_residency"), 0)) else peak
  }

  /** Each node's latest `retained` flag. */
  function Retained(rs: seq<Json>): map<string, bool> {
    if rs == [] then map[]
    else
      var rec := rs[|rs| - 1];
      var m := Retained(rs[..|rs| - 1]);
      match (NodeOf(rec), GetBool(rec, "retained"))
      case (Some(n), Some(flag)) => if KindOf(rec) == KOutcome then m[n := flag] else m
      case _ => m
  }

  function RetainedNames(m: map<string, bool>, names: seq<string>): seq<string> {
    if names == [] then []
    else RetainedNames(m, names[..|names| - 1]) +
         if names[|names| - 1] in m && m[names[|names| - 1]] then [names[|names| - 1]] else []
  }

  function AttemptKey(rec: Json): Option<Key> {
    match (NodeOf(rec), GetU64(rec, "attempt"))
    case (Some(n), Some(a)) => Some((n, a))
    case _ => None
  }

  function OutcomeOffsets(rs: seq<Json>): map<Key, nat> {
    if rs == [] then map[]
    else
      var rec := rs[|rs| - 1];
      var m := OutcomeOffsets(rs[..|rs| - 1]);
      match AttemptKey(rec)
      case Some(key) => if KindOf(rec) == KOutcome then m[key := OffsetOf(rec)] else m
      case None => m
  }

  function SaturatingAdd(a: nat, b: nat): nat {
    if a + b < U64_LIMIT then a + b else U64_LIMIT - 1
  }

  datatype Pinned = Pinned(capacity: nat, time: nat)

  function PinnedStep(p: Pinned, rec: Json, offsets: map<Key, nat>): Pinned {
    if KindOf(rec) != KZombie then p
    else
      Pinned(
        SaturatingAdd(p.capacity, UnwrapOr(GetU64(rec, "pinned_capacity"), 0)),
        match AttemptKey(rec)
        case Some(key) =>
          if key in offsets then SaturatingAdd(p.time, SaturatingSub(OffsetOf(rec), offsets[key])) else p.time
        case None => p.time)
  }

  function PinnedBy(rs: seq<Json>, offsets: map<Key, nat>): Pinned {
    if rs == [] then Pinned(0, 0)
    else PinnedStep(PinnedBy(rs[..|rs| - 1], offsets), rs[|rs| - 1], offsets)
  }

  // ---- The timeline the critical path runs over ----------------------------

  function AddContribution(m: map<string, nat>, a: AttemptRecord): map<string, nat> {
    m[a.node := (if a.node in m then m[a.node] else 0) + a.phases.executing]
  }

  /** Executing time per node, summed over its attempts. */
  function Contributions(attempts: seq<AttemptRecord>): map<string, nat> {
    if attempts == [] then map[]
    else AddContribution(Contributions(attempts[..|attempts| - 1]), attempts[|attempts| - 1])
  }

  /** Earliest readiness and latest terminal offset per node. */
  datatype Bounds = Bounds(readyAt: map<string, nat>, terminalAt: map<string, nat>)

  function BoundsStep(b: Bounds, rec: Json): Bounds {
    match NodeOf(rec)
    case None => b
    case Some(n) =>
      var off := OffsetOf(rec);
      match KindOf(rec)
      case KReady => b.(readyAt := b.readyAt[n := if n in b.readyAt then Min(b.readyAt[n], off) else off])
      case KTerminal => b.(terminalAt := b.terminalAt[n := off])
      case KOutcome => b.(terminalAt := b.terminalAt[n := if n in b.terminalAt then Max(b.terminalAt[n], off) else off])
      case _ => b
  }

  function BoundsOf(rs: seq<Json>): Bounds {
    if rs == [] then Bounds(map[], map[]) else BoundsStep(BoundsOf(rs[..|rs| - 1]), rs[|rs| - 1])
  }

  function TimelineOf(rs: seq<Json>, attempts: seq<AttemptRecord>): Timeline {
    Timeline(Contributions(attempts), BoundsOf(rs).readyAt, BoundsOf(rs).terminalAt)
  }

  function SummaryOf(rs: seq<Json>, attempts: seq<AttemptRecord>): RunSummary {
    var retained := Retained(rs);
    var pinned := PinnedBy(rs, OutcomeOffsets(rs));
    RunSummary(
      MaxOffset(rs),
      CriticalPathOf(TimelineOf(rs, attempts)),
      PeakResidency(rs),
      RetainedNames(retained, Sorted(retained.Keys)),
      pinned.time,
      pinned.capacity)
  }

  // ---- The assemblers themselves -------------------------------------------

  method CriticalPathNs(records: seq<Json>, attempts: seq<AttemptRecord>) returns (best: nat)
    ensures best == CriticalPathOf(TimelineOf(records, attempts))
  {
    hide Nodes, SortByReady, BoundsOf, Contributions, Forward;
    var contribution := SumContributions(attempts);
    var readyAt, terminalAt := CollectBounds(records);
    var t := Timeline(contribution, readyAt, terminalAt);
    best := ForwardPass(t, SortByReady(t, Sorted(Nodes(t))));
  }

  method SumContributions(attempts: seq<AttemptRecord>) returns (contribution: map<string, nat>)
    ensures contribution == Contributions(attempts)
  {
    contribution := map[];
    for i := 0 to |attempts|
      invariant contribution == Contributions(attempts[..i])
    {
      assert attempts[..i + 1][..i] == attempts[..i];
      var a := attempts[i];
      if a.node !in contribution { contribution := contribution[a.node := 0]; }
      contribution := contribution[a.node := contribution[a.node] + a.phases.executing];
    }
    assert attempts[..|attempts|] == attempts;
  }

  method CollectBounds(records: seq<Json>) returns (readyAt: map<string, nat>, terminalAt: map<string, nat>)
    ensures Bounds(readyAt, terminalAt) == BoundsOf(records)
  {
    hide KindOf, NodeOf, OffsetOf;
    readyAt, terminalAt := map[], map[];
    for i := 0 to |records|
      invariant Bounds(readyAt, terminalAt) == BoundsOf(records[..i])
    {
      assert records[..i + 1][..i] == records[..i];
      var off := OffsetOf(records[i]);
      match NodeOf(records[i])
      case None =>
      case Some(n) =>
        match KindOf(records[i])
        case KReady => readyAt := readyAt[n := if n in readyAt then Min(readyAt[n], off) else off];
        case KTerminal => terminalAt := terminalAt[n := off];
        case KOutcome => terminalAt := terminalAt[n := if n in terminalAt then Max(terminalAt[n], off) else off];
        case _ =>
    }
    assert records[..|records|] == records;
  }

  method ForwardPass(t: Timeline, order: seq<string>) returns (best: nat)
    ensures best == Forward(t, order).best
  {
    hide Visit;
    var cp: map<string, nat> := map[];
    best := 0;
    for i := 0 to |order|
      invariant Forward(t, order[..i]) == Pass(cp, best)
    {
      assert order[..i + 1][..i] == order[..i];
      cp, best := Resolve(t, cp, best, order[i]);
    }
    assert order[..|order|] == order;
  }

  /** The loop body: record the value of `v` from the nodes resolved before it. */
  method Resolve(t: Timeline, cp: map<string, nat>, best: nat, v: string)
    returns (cp': map<string, nat>, best': nat)
    ensures Pass(cp', best') == Visit(t, Pass(cp, best), v)
  {
    hide ContributionOf, BaseOver;
    var base := BaseOf(t, cp, v, Sorted(cp.Keys));
    var value := base + ContributionOf(t, v);
    cp' := cp[v := value];
    best' := Max(best, value);
  }

  /** The inner loop: the best resolved predecessor of `v`, over the resolved nodes. */
  method BaseOf(t: Timeline, cp: map<string, nat>, v: string, resolved: seq<string>) returns (base: nat)
    requires forall u <- resolved :: u in cp
    ensures base == BaseOver(t, cp, v, resolved)
  {
    hide ReadyOf;
    base := 0;
    for i := 0 to |resolved|
      invariant base == BaseOver(t, cp, v, resolved[..i])
    {
      assert resolved[..i + 1][..i] == resolved[..i];
      var u := resolved[i];
      if u != v && u in t.terminalAt && t.terminalAt[u] <= ReadyOf(t, v) {
        base := Max(base, cp[u]);
      }
    }
    assert resolved[..|resolved|] == resolved;
  }

  method AssembleSummary(records: seq<Json>, attempts: seq<AttemptRecord>) returns (summary: RunSummary)
    ensures summary == SummaryOf(records, attempts)
  {
    hide CriticalPathOf, MaxOffset, PeakResidency, OutcomeOffsets;
    var retained := CollectRetained(records);
    var pinned := CollectPinned(records, OutcomeOffsets(records));
    var criticalPath := CriticalPathNs(records, attempts);
    summary := RunSummary(
      MaxOffset(records), criticalPath, PeakResidency(records),
      RetainedNames(retained, Sorted(retained.Keys)), pinned.time, pinned.capacity);
  }

  method CollectRetained(records: seq<Json>) returns (retained: map<string, bool>)
    ensures retained == Retained(records)
  {
    hide KindOf, NodeOf;
    retained := map[];
    for i := 0 to |records|
      invariant retained == Retained(records[..i])
    {
      assert records[..i + 1][..i] == records[..i];
      if KindOf(records[i]) == KOutcome {
        match (NodeOf(records[i]), GetBool(records[i], "retained"))
        case (Some(n), Some(flag)) => retained := retained[n := flag];
        case _ =>
      }
    }
    assert records[..|records|] == records;
  }

  method CollectPinned(records: seq<Json>, offsets: map<Key, nat>) returns (pinned: Pinned)
    ensures pinned == PinnedBy(records, offsets)
  {
    hide PinnedStep;
    pinned := Pinned(0, 0);
    for i := 0 to |records|
      invariant pinned == PinnedBy(records[..i], offsets)
    {
      assert records[..i + 1][..i] == records[..i];
      pinned := PinnedStep(pinned, records[i], offsets);
    }
    assert records[..|records|] == records;
  }

  // ---- The artifact --------------------------------------------------------

  datatype RunArtifact = RunArtifact(
    header: Json,
    overallOutcome: string,
    interrupted: bool,
    trailingPartialDiscarded: bool,
    errors: seq<string>,
    attempts: seq<AttemptRecord>,
    summary: Option<RunSummary>,
    outputs: seq<ProducedOutput>,
    submissions: seq<SubmittedAttempt>)

  datatype FoldError = CorruptRecord(line: nat) | MissingRunStarted

  /** The first record of a kind. */
  function FirstOf(rs: seq<Json>, kind: Kind): Option<Json> {
    if rs == [] then None
    else if KindOf(rs[0]) == kind then Some(rs[0])
    else FirstOf(rs[1..], kind)
  }

  function HeaderOf(runStarted: Json): Json {
    UnwrapOr(Get(runStarted, "header"), JObj(map[]))
  }

  function StringsIn(items: seq<Json>): seq<string> {
    if items == [] then []
    else (if items[0].JStr? then [items[0].s] else []) + StringsIn(items[1..])
  }

  function ErrorsOf(runFinished: Option<Json>): seq<string> {
    match runFinished
    case None => []
    case Some(rec) =>
      match GetArr(rec, "errors")
      case Some(items) => StringsIn(items)
      case None => []
  }

  /** A stream without `run-finished` is interrupted and reads as cancelled. */
  function OverallOutcome(runFinished: Option<Json>): string {
    match runFinished
    case None => "cancelled"
    case Some(rec) => UnwrapOr(GetStr(rec, "outcome"), "succeeded")
  }

  predicate PreExecution(outcome: string) {
    outcome == "assembly-failed" || outcome == "bootstrap-failed"
  }

  function FoldRecords(rs: seq<Json>, discarded: bool, nodes: seq<string>): Result<RunArtifact, FoldError> {
    match FirstOf(rs, KRunStarted)
    case None => Err(MissingRunStarted)
    case Some(started) =>
      var finished := FirstOf(rs, KRunFinished);
      var outcome := OverallOutcome(finished);
      if PreExecution(outcome) then
        Ok(RunArtifact(HeaderOf(started), outcome, finished.None?, discarded, ErrorsOf(finished), [], None, [], []))
      else
        var attempts := AttemptsOf(rs, nodes);
        Ok(RunArtifact(HeaderOf(started), outcome, finished.None?, discarded, ErrorsOf(finished),
                       attempts, Some(SummaryOf(rs, attempts)), OutputsOf(rs), SubmissionsOf(rs)))
  }

  function FoldStream(bytes: string, nodes: seq<string>): Result<RunArtifact, FoldError> {
    match Read(bytes)
    case Err(e) => Err(CorruptRecord(e.line))
    case Ok(s) => FoldRecords(s.records, s.trailingPartialDiscarded, nodes)
  }

  /** `fold_stream`, calling the reader and the assemblers. */
  method RunFold(bytes: string, nodes: seq<string>) returns (r: Result<RunArtifact, FoldError>)
    ensures r == FoldStream(bytes, nodes)
  {
    hide Read, AttemptsOf, SummaryOf, OutputsOf, SubmissionsOf, KindOf, HeaderOf, ErrorsOf, FirstOf;
    var read := ReadRecords.ReadRecords(bytes);
    if read.Err? { return Err(CorruptRecord(read.error.line)); }
    var rs := read.value.records;
    var started := FirstOf(rs, KRunStarted);
    if started.None? { return Err(MissingRunStarted); }
    var finished := FirstOf(rs, KRunFinished);
    var outcome := OverallOutcome(finished);
    var attempts: seq<AttemptRecord>, summary: Option<RunSummary> := [], None;
    var outputs: seq<ProducedOutput>, submissions: seq<SubmittedAttempt> := [], [];
    if !PreExecution(outcome) {
      attempts := AssembleAttempts(rs, nodes);
      var s := AssembleSummary(rs, attempts);
      summary := Some(s);
      outputs := OutputsOf(rs);
      submissions := AssembleSubmissions(rs);
    }
    r := Ok(RunArtifact(HeaderOf(started.value), outcome, finished.None?, read.value.trailingPartialDiscarded,
                        ErrorsOf(finished), attempts, summary, outputs, submissions));
  }

  // ---- The published document ----------------------------------------------

  function OrNull(o: Option<Json>): Json { UnwrapOr(o, JNull) }

  function StrOrNull(o: Option<string>): Json {
    match o case Some(s) => JStr(s) case None => JNull
  }

  function PhasesValue(p: Phases): Json {
    JObj(map["backoff" := JNum(p.backoff), "ready-wait" := JNum(p.readyWait),
             "permit-wait" := JNum(p.permitWait), "executing" := JNum(p.executing)])
  }

  function AttemptValue(a: AttemptRecord): Json {
    var base := map[
      "node" := JStr(a.node), "attempt" := JNum(a.attempt), "status" := JStr(a.status),
      "phase_durations_ns" := PhasesValue(a.phases), "worker" := JStr(a.worker),
      "message" := StrOrNull(a.message), "error" := OrNull(a.error), "metrics" := a.metrics,
      "cost_declared" := OrNull(a.costDeclared), "cost_measured" := OrNull(a.costMeasured)];
    var durable := WithOpt(WithOpt(base, "durable_reference", a.durableReference),
                           "durable_reference_meta", a.durableReferenceMeta);
    var lineage := WithOpt(WithOpt(durable, "satisfied_from_run", TextValue(a.satisfiedFromRun)),
                           "originating_node", TextValue(a.originatingNode));
    JObj(if a.inputs == [] then lineage else lineage["inputs" := JArr(a.inputs)])
  }

  function OutputValue(o: ProducedOutput): Json {
    var base := map[
      "node" := JStr(o.node), "attempt" := JNum(o.attempt), "uri" := JStr(o.uri),
      "produced_at_offset_ns" := JNum(o.producedAtOffsetNs), "originating_run" := JStr(o.originatingRun)];
    var sized := if o.sizeBytes.Some? then base["size_bytes" := JNum(o.sizeBytes.value)] else base;
    JObj(WithOpt(WithOpt(sized, "content_hash", TextValue(o.contentHash)), "kind", TextValue(o.outputKind)))
  }

  function StrArray(ss: seq<string>): Json {
    JArr(seq(|ss|, i requires 0 <= i < |ss| => JStr(ss[i])))
  }

  function SummaryValue(s: RunSummary): Json {
    JObj(map[
      "total_elapsed_ns" := JNum(s.totalElapsedNs), "critical_path_ns" := JNum(s.criticalPathNs),
      "peak_slot_residency" := JNum(s.peakSlotResidency), "retained_values" := StrArray(s.retainedValues),
      "abandoned_pinned_time_ns" := JNum(s.abandonedPinnedTimeNs),
      "abandoned_pinned_capacity" := JNum(s.abandonedPinnedCapacity)])
  }

  function HeaderFields(header: Json): map<string, Json> {
    match header case JObj(fields) => fields case _ => map[]
  }

  function DocumentOf(a: RunArtifact): Json {
    var outcome := HeaderFields(a.header)["overall_outcome" := JStr(a.overallOutcome)];
    var header := if a.errors == [] then outcome else outcome["errors" := StrArray(a.errors)];
    JObj(map[
      "header" := JObj(header),
      "attempts" := JArr(seq(|a.attempts|, i requires 0 <= i < |a.attempts| => AttemptValue(a.attempts[i]))),
      "outputs" := JArr(seq(|a.outputs|, i requires 0 <= i < |a.outputs| => OutputValue(a.outputs[i]))),
      "summary" := (match a.summary case Some(s) => SummaryValue(s) case None => JNull),
      "interrupted" := JBool(a.interrupted),
      "fold_reader" := JObj(map[
        "version" := JStr("dagr.run-fold@1"),
        "accepts" := StrArray(["dagr.event-stream@1"]),
        "interrupted" := JBool(a.interrupted)])
    ])
  }
}
