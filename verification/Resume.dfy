/** Resuming a run: parameters derived from the prior artifact, the facts read out of it, and
    the artifact the resume leaves for the next one. */
module Resume {
  import opened Text
  import opened Json
  import opened Canonical
  import opened JsonParser
  import CanonicalProofs
  import opened TerminalStates
  import opened ResumePlan
  import EventStream

  // ---- Parameters and interval ---------------------------------------------

  type Parameters = map<string, string>

  /** A string stays a string, anything else is rendered compactly. */
  function TextOf(v: Json): string {
    match v case JStr(s) => s case _ => ValueText(v)
  }

  function ReadParameters(header: Json): Parameters {
    match Get(header, "parameters")
    case Some(JObj(fields)) => map k | k in fields :: TextOf(fields[k])
    case _ => map[]
  }

  predicate Conflicts(prior: Parameters, overrides: Parameters, name: string) {
    name in overrides && name in prior && prior[name] != overrides[name]
  }

  /** There is no conflict exactly when the overrides change nothing the prior run had set. */
  lemma NoConflictMeansKept(prior: Parameters, overrides: Parameters)
    ensures (forall name :: !Conflicts(prior, overrides, name)) <==>
            forall name <- prior.Keys :: (prior + overrides)[name] == prior[name]
  {
    if forall name :: !Conflicts(prior, overrides, name) {
      forall name | name in prior ensures (prior + overrides)[name] == prior[name] {
        assert !Conflicts(prior, overrides, name);
      }
    }
    if forall name <- prior.Keys :: (prior + overrides)[name] == prior[name] {
      forall name ensures !Conflicts(prior, overrides, name) {
        if name in prior && name in overrides { assert (prior + overrides)[name] == overrides[name]; }
      }
    }
  }

  /** The first `names` of the overrides laid over the prior parameters. */
  function Overlaid(prior: Parameters, overrides: Parameters, names: seq<string>): Parameters
    requires forall n <- names :: n in overrides
  {
    if names == [] then prior
    else Overlaid(prior, overrides, names[..|names| - 1])[names[|names| - 1] := overrides[names[|names| - 1]]]
  }

  lemma {:induction false} OverlaidAt(prior: Parameters, overrides: Parameters, names: seq<string>, n: string)
    requires forall n <- names :: n in overrides
    ensures n in Overlaid(prior, overrides, names) <==> n in prior || n in names
    ensures n in Overlaid(prior, overrides, names) ==>
              Overlaid(prior, overrides, names)[n] == if n in names then overrides[n] else prior[n]
  {
    if names != [] {
      var k := |names| - 1;
      assert names == names[..k] + [names[k]];
      OverlaidAt(prior, overrides, names[..k], n);
    }
  }

  lemma OverlaidByAll(prior: Parameters, overrides: Parameters, names: seq<string>)
    requires forall n :: n in names <==> n in overrides
    ensures Overlaid(prior, overrides, names) == prior + overrides
  {
    hide Overlaid;
    forall n ensures n in Overlaid(prior, overrides, names) <==> n in prior + overrides {
      OverlaidAt(prior, overrides, names, n);
    }
    forall n | n in prior + overrides ensures Overlaid(prior, overrides, names)[n] == (prior + overrides)[n] {
      OverlaidAt(prior, overrides, names, n);
    }
  }

  predicate AnyConflict(prior: Parameters, overrides: Parameters, names: seq<string>) {
    exists n <- names :: Conflicts(prior, overrides, n)
  }

  lemma OneMoreName(prior: Parameters, overrides: Parameters, names: seq<string>, i: nat)
    requires i < |names|
    ensures AnyConflict(prior, overrides, names[..i + 1]) <==>
            AnyConflict(prior, overrides, names[..i]) || Conflicts(prior, overrides, names[i])
    ensures (forall n <- names[..i] :: n in overrides) && names[i] in overrides ==>
              (forall n <- names[..i + 1] :: n in overrides)
              && Overlaid(prior, overrides, names[..i + 1]) ==
                  Overlaid(prior, overrides, names[..i])[names[i] := overrides[names[i]]]
  {
    hide Conflicts;
    assert names[..i + 1] == names[..i] + [names[i]] && names[..i + 1][..i] == names[..i];
    assert names[i] in names[..i + 1];
  }

  /** `derive_parameters`: the prior parameters overlaid by the overrides. Refused exactly on a
      conflict without force, naming the first; the use of force is recorded exactly when there
      was something to force. */
  method DeriveParameters(prior: Parameters, overrides: Parameters, force: bool)
      returns (r: Result<(Parameters, bool), string>)
    ensures r.Err? <==> !force && exists name :: Conflicts(prior, overrides, name)
    ensures r.Err? ==> Conflicts(prior, overrides, r.error)
                       && forall name :: Conflicts(prior, overrides, name) ==> LexLe(r.error, name)
    ensures r.Ok? ==> r.value.0 == prior + overrides
    ensures r.Ok? ==> (r.value.1 <==> exists name :: Conflicts(prior, overrides, name))
  {
    hide LexLe, Overlaid, AnyConflict, Conflicts;
    var names := Sorted(overrides.Keys);
    var derived, forced := prior, false;
    OverlaidByNone(prior, overrides, names);
    for i := 0 to |names|
      invariant derived == Overlaid(prior, overrides, names[..i])
      invariant forced <==> AnyConflict(prior, overrides, names[..i])
      invariant !force ==> !forced
    {
      var name := names[i];
      OneMoreName(prior, overrides, names, i);
      if Conflicts(prior, overrides, name) && !force {
        FirstConflict(prior, overrides, names, i);
        return Err(name);
      }
      if Conflicts(prior, overrides, name) { forced := true; }
      derived := derived[name := overrides[name]];
    }
    assert names[..|names|] == names;
    OverlaidByAll(prior, overrides, names);
    AllNames(prior, overrides, names);
    r := Ok((derived, forced));
  }

  lemma OverlaidByNone(prior: Parameters, overrides: Parameters, names: seq<string>)
    ensures Overlaid(prior, overrides, names[..0]) == prior && !AnyConflict(prior, overrides, names[..0])
  {}

  lemma AllNames(prior: Parameters, overrides: Parameters, names: seq<string>)
    requires forall n :: n in names <==> n in overrides
    ensures AnyConflict(prior, overrides, names) <==> exists name :: Conflicts(prior, overrides, name)
  {
    assert forall name :: Conflicts(prior, overrides, name) ==> name in names;
  }

  lemma FirstConflict(prior: Parameters, overrides: Parameters, names: seq<string>, i: nat)
    requires i < |names| && Conflicts(prior, overrides, names[i])
    requires !AnyConflict(prior, overrides, names[..i])
    requires forall n :: n in names <==> n in overrides
    requires forall i, j :: 0 <= i < j < |names| ==> LexLe(names[i], names[j])
    ensures forall name :: Conflicts(prior, overrides, name) ==> LexLe(names[i], name)
  {
    hide LexLe;
    LexTotal(names[i], names[i]);
    assert names == names[..i] + names[i..];
    forall name | Conflicts(prior, overrides, name) ensures LexLe(names[i], name) {
      assert name in names && name !in names[..i];
      var j :| 0 <= j < |names[i..]| && names[i..][j] == name;
      assert names[i + j] == name;
    }
  }

  function IntervalValue(start: string, end: string): Json {
    JObj(map["start" := JStr(start), "end" := JStr(end)])
  }

  lemma IntervalSays(start: string, end: string)
    ensures GetStr(IntervalValue(start, end), "start") == Some(start)
    ensures GetStr(IntervalValue(start, end), "end") == Some(end)
  {}

  /** `derive_interval`, with the same discipline. */
  function DeriveInterval(prior: Json, supplied: Option<(string, string)>, force: bool): (r: Option<(Json, bool)>)
    ensures r.None? <==>
            supplied.Some? && !force && prior != JNull && prior != IntervalValue(supplied.value.0, supplied.value.1)
    ensures r.Some? ==> r.value.0 == (if supplied.None? then prior
              else IntervalValue(supplied.value.0, supplied.value.1))
    ensures r.Some? && r.value.1 ==> force && prior != JNull && prior != r.value.0
  {
    match supplied
    case None => Some((prior, false))
    case Some((start, end)) =>
      var interval := IntervalValue(start, end);
      if prior != JNull && prior != interval then
        if !force then None else Some((interval, true))
      else Some((interval, false))
  }

  // ---- Reading the prior artifact ------------------------------------------

  function HexDigits(s: string): Option<nat> {
    if s == [] then Some(0)
    else
      match HexDigits(s[..|s| - 1])
      case None => None
      case Some(n) =>
        match HexValue(s[|s| - 1])
        case None => None
        case Some(d) => if 16 * n + d < U64_LIMIT then Some(16 * n + d) else None
  }

  /** `u64::from_str_radix(_, 16)`: one sign at most, one digit at least, no overflow. */
  function FromHex(s: string): Option<nat> {
    var digits := if s != [] && s[0] == '+' then s[1..] else s;
    if digits == [] then None else HexDigits(digits)
  }

  /** What follows the last colon. */
  function AfterColon(s: string): string {
    if s == [] || s[|s| - 1] == ':' then [] else AfterColon(s[..|s| - 1]) + [s[|s| - 1]]
  }

  function ParseFingerprint(header: Json, field: string): Option<nat> {
    match GetStr(header, field) case None => None case Some(raw) => FromHex(AfterColon(raw))
  }

  function TerminalOf(status: string): TerminalState {
    if status == "succeeded" then Succeeded
    else if status == "timed-out" then TimedOut
    else if status == "skipped" then Skipped
    else if status == "upstream-skipped" then UpstreamSkipped
    else if status == "upstream-failed" then UpstreamFailed
    else if status == "cancelled" then Cancelled
    else if status == "abandoned" then Abandoned
    else if status == "satisfied-from-prior" then SatisfiedFromPrior
    else Failed
  }

  /** The reader of a recorded state undoes the writer of one. */
  lemma StateReadsBack(s: TerminalState)
    ensures TerminalOf(StateName(s)) == s
  {}

  function HashIn(a: Json): Option<string> {
    match Get(a, "durable_reference_meta") case Some(meta) => GetStr(meta, "content_hash") case None => None
  }

  /** What one attempt record says of its node. */
  function NodeFrom(a: Json, runId: string): PriorNode {
    PriorNode(
      TerminalOf(UnwrapOr(GetStr(a, "status"), "failed")),
      match GetNonNull(a, "durable_reference") case Some(v) => Some(TextOf(v)) case None => None,
      HashIn(a),
      UnwrapOr(GetStr(a, "satisfied_from_run"), runId))
  }

  /** The last attempt of each node speaks for it. */
  function NodesFrom(attempts: seq<Json>, runId: string): map<string, PriorNode> {
    if attempts == [] then map[]
    else
      var before, a := NodesFrom(attempts[..|attempts| - 1], runId), attempts[|attempts| - 1];
      match GetStr(a, "node") case Some(node) => before[node := NodeFrom(a, runId)] case None => before
  }

  function AttemptsIn(artifact: Json): seq<Json> {
    match GetArr(artifact, "attempts") case Some(items) => items case None => []
  }

  function PriorRunOf(header: Json, artifact: Json, runId: string, tool: string): PriorRun {
    PriorRun(
      match ParseFingerprint(header, "fingerprint_structural") case Some(n) => n case None => U64_LIMIT - 1,
      match ParseFingerprint(header, "fingerprint_policy") case Some(n) => n case None => U64_LIMIT - 1,
      match GetU64(header, "fingerprint_algorithm_version") case Some(n) => n case None => 0,
      UnwrapOr(GetStr(header, "tool_version"), tool),
      NodesFrom(AttemptsIn(artifact), runId))
  }

  /** `n` as `width` lowercase hexadecimal digits. */
  function HexOf(n: nat, width: nat): string {
    if width == 0 then "" else HexOf(n / 16, width - 1) + [HexDigit(n % 16)]
  }

  function Pow16(width: nat): nat { if width == 0 then 1 else 16 * Pow16(width - 1) }

  lemma {:induction false} HexReads(n: nat, width: nat)
    requires n < Pow16(width) && n < U64_LIMIT
    ensures HexDigits(HexOf(n, width)) == Some(n) && ':' !in HexOf(n, width)
  {
    hide HexDigit;
    if width > 0 {
      HexReads(n / 16, width - 1);
      var t := HexOf(n, width);
      assert t[..|t| - 1] == HexOf(n / 16, width - 1);
      DigitReads(n % 16);
    }
  }

  lemma DigitReads(d: nat)
    requires d < 16
    ensures HexValue(HexDigit(d)) == Some(d) && HexDigit(d) != ':' && HexDigit(d) != '+'
  {}

  lemma {:induction false} AfterColonIs(p: string, t: string)
    requires ':' !in t
    ensures AfterColon(p + ":" + t) == t
  {
    var s := p + ":" + t;
    if t == [] {
      assert s[|s| - 1] == ':';
    } else {
      var k := |t| - 1;
      assert s[..|s| - 1] == p + ":" + t[..k] && s[|s| - 1] == t[k];
      AfterColonIs(p, t[..k]);
    }
  }

  lemma {:induction false} HexSized(n: nat, width: nat)
    ensures |HexOf(n, width)| == width && '+' !in HexOf(n, width)
  {
    hide HexDigit;
    if width > 0 {
      HexSized(n / 16, width - 1);
      DigitReads(n % 16);
    }
  }

  /** A fingerprint is the number after the last colon of its text. */
  lemma FingerprintReads(header: Json, field: string, p: string, n: nat, width: nat)
    requires GetStr(header, field) == Some(p + ":" + HexOf(n, width))
    requires 0 < width && n < Pow16(width) && n < U64_LIMIT
    ensures ParseFingerprint(header, field) == Some(n)
  {
    hide HexDigits, HexOf, Pow16, AfterColon, GetStr;
    HexReads(n, width);
    HexSized(n, width);
    AfterColonIs(p, HexOf(n, width));
  }

  /** The facts of a prior run are read under their own names. */
  lemma PriorFactsRead(header: Json, artifact: Json, runId: string, tool: string, p: string, structural: nat,
                       policy: nat, algorithm: nat, recorded: string, width: nat)
    requires GetStr(header, "fingerprint_structural") == Some(p + ":" + HexOf(structural, width))
    requires GetStr(header, "fingerprint_policy") == Some(p + ":" + HexOf(policy, width))
    requires 0 < width && structural < Pow16(width) && policy < Pow16(width)
    requires structural < U64_LIMIT && policy < U64_LIMIT && algorithm < U64_LIMIT
    requires Get(header, "fingerprint_algorithm_version") == Some(JNum(algorithm))
    requires GetStr(header, "tool_version") == Some(recorded)
    ensures var prior := PriorRunOf(header, artifact, runId, tool);
            && prior.structural == structural && prior.policy == policy
            && prior.algorithm == algorithm && prior.tool == recorded
  {
    hide ParseFingerprint, HexOf, Pow16, NodesFrom;
    FingerprintReads(header, "fingerprint_structural", p, structural, width);
    FingerprintReads(header, "fingerprint_policy", p, policy, width);
  }

  /** `build_prior_run`. */
  method BuildPriorRun(header: Json, artifact: Json, runId: string, tool: string) returns (prior: PriorRun)
    ensures prior == PriorRunOf(header, artifact, runId, tool)
  {
    hide NodeFrom, ParseFingerprint;
    var attempts, nodes := AttemptsIn(artifact), map[];
    for i := 0 to |attempts|
      invariant nodes == NodesFrom(attempts[..i], runId)
    {
      assert attempts[..i + 1][..i] == attempts[..i];
      match GetStr(attempts[i], "node")
      case Some(node) => nodes := nodes[node := NodeFrom(attempts[i], runId)];
      case None =>
    }
    assert attempts[..|attempts|] == attempts;
    var structural, policy := ParseFingerprint(header, "fingerprint_structural"),
        ParseFingerprint(header, "fingerprint_policy");
    var algorithm := GetU64(header, "fingerprint_algorithm_version");
    prior := PriorRun(
      if structural.Some? then structural.value else U64_LIMIT - 1,
      if policy.Some? then policy.value else U64_LIMIT - 1,
      if algorithm.Some? then algorithm.value else 0,
      UnwrapOr(GetStr(header, "tool_version"), tool),
      nodes);
  }

  // ---- Building the resumed artifact ---------------------------------------

  function ReferenceIn(nodes: map<string, PriorNode>, node: string): Option<string> {
    if node in nodes then nodes[node].reference else None
  }

  function RecordedHashIn(nodes: map<string, PriorNode>, node: string): Option<string> {
    if node in nodes then nodes[node].hash else None
  }

  /** A node satisfied from the prior run, its durable reference and hash copied forward. */
  function CarriedRecord(node: string, origin: string, nodes: map<string, PriorNode>): Json {
    var base := map[
      "node" := JStr(node), "attempt" := JNum(1), "status" := JStr("satisfied-from-prior"),
      "phase_durations_ns" := JObj(map["executing" := JNum(0)]), "worker" := JStr("resume"),
      "satisfied_from_run" := JStr(origin)];
    var referenced := WithOpt(base, "durable_reference", TextValue(ReferenceIn(nodes, node)));
    JObj(match RecordedHashIn(nodes, node)
         case Some(hash) => referenced["durable_reference_meta" := JObj(map["content_hash" := JStr(hash)])]
         case None => referenced)
  }

  /** Its produced-output entry, attributed to the run it originates in. */
  function CarriedOutput(node: string, reference: string, origin: string, nodes: map<string, PriorNode>): Json {
    JObj(WithOpt(map[
      "node" := JStr(node), "attempt" := JNum(1), "uri" := JStr(reference),
      "produced_at_offset_ns" := JNum(0), "originating_run" := JStr(origin)],
      "content_hash", TextValue(RecordedHashIn(nodes, node))))
  }

  function CarriedRecords(names: seq<string>, satisfied: map<string, string>, nodes: map<string, PriorNode>): seq<Json>
    requires forall n <- names :: n in satisfied
  {
    if names == [] then []
    else
      var n := names[|names| - 1];
      CarriedRecords(names[..|names| - 1], satisfied, nodes) + [CarriedRecord(n, satisfied[n], nodes)]
  }

  function CarriedOutputs(names: seq<string>, satisfied: map<string, string>, nodes: map<string, PriorNode>): seq<Json>
    requires forall n <- names :: n in satisfied
  {
    if names == [] then []
    else
      var n := names[|names| - 1];
      CarriedOutputs(names[..|names| - 1], satisfied, nodes)
      + match ReferenceIn(nodes, n) case Some(r) => [CarriedOutput(n, r, satisfied[n], nodes)] case None => []
  }

  function LineageRoot(header: Json, parentId: string): string {
    match Get(header, "resume_lineage")
    case Some(lineage) => UnwrapOr(GetStr(lineage, "lineage_root_run_id"), parentId)
    case None => parentId
  }

  /** What a resume settles before it builds its artifact. */
  datatype Settled = Settled(runId: string, parameters: Parameters, interval: Json, forced: bool,
      satisfied: map<string, string>)

  function ResumedHeader(s: Settled, prior: Json, parentId: string, tool: string): map<string, Json> {
    var named := map["run_id" := JStr(s.runId), "pipeline" := JStr(UnwrapOr(GetStr(prior, "pipeline"), ""))];
    var printed := WithOpt(WithOpt(WithOpt(named,
      "fingerprint_structural", Get(prior, "fingerprint_structural")),
      "fingerprint_policy", Get(prior, "fingerprint_policy")),
      "fingerprint_algorithm_version", Get(prior, "fingerprint_algorithm_version"));
    var set0 := printed["tool_version" := JStr(tool)]["parameters" :=
        JObj(map k | k in s.parameters :: JStr(s.parameters[k]))]
                       ["data_interval" := s.interval];
    var environment := match Get(prior, "captured_environment") case Some(v) => v case None => JObj(map[]);
    var captured := set0["captured_environment" := environment];
    var linked := captured["resume_lineage" := JObj(map["parent_run_id" := JStr(parentId),
                                                        "lineage_root_run_id" := JStr(LineageRoot(prior, parentId))])];
    var marked := if s.forced then linked["resume_forced" := JBool(true)] else linked;
    marked["overall_outcome" := JStr("succeeded")]
  }

  function ResumedArtifact(s: Settled, prior: Json, parentId: string, nodes: map<string, PriorNode>,
          tool: string): Json {
    var names := Sorted(s.satisfied.Keys);
    JObj(map[
      "header" := JObj(ResumedHeader(s, prior, parentId, tool)),
      "attempts" := JArr(CarriedRecords(names, s.satisfied, nodes)),
      "outputs" := JArr(CarriedOutputs(names, s.satisfied, nodes)),
      "summary" := JNull])
  }

  /** The two lists a resume records its carried nodes in. */
  method CarryForward(names: seq<string>, satisfied: map<string, string>, nodes: map<string, PriorNode>)
      returns (attempts: seq<Json>, outputs: seq<Json>)
    requires forall n <- names :: n in satisfied
    ensures attempts == CarriedRecords(names, satisfied, nodes) && outputs == CarriedOutputs(names, satisfied, nodes)
  {
    hide CarriedRecord, CarriedOutput;
    attempts, outputs := [], [];
    for i := 0 to |names|
      invariant attempts == CarriedRecords(names[..i], satisfied, nodes)
      invariant outputs == CarriedOutputs(names[..i], satisfied, nodes)
    {
      assert names[..i + 1][..i] == names[..i];
      var node, origin := names[i], satisfied[names[i]];
      attempts := attempts + [CarriedRecord(node, origin, nodes)];
      match ReferenceIn(nodes, node)
      case Some(reference) => outputs := outputs + [CarriedOutput(node, reference, origin, nodes)];
      case None =>
    }
    assert names[..|names|] == names;
  }

  /** `build_resumed_artifact`. */
  method BuildResumedArtifact(s: Settled, prior: Json, parentId: string, nodes: map<string, PriorNode>, tool: string)
      returns (artifact: Json)
    ensures artifact == ResumedArtifact(s, prior, parentId, nodes, tool)
  {
    hide ResumedHeader, CarriedRecords, CarriedOutputs, Sorted;
    var attempts, outputs := CarryForward(Sorted(s.satisfied.Keys), s.satisfied, nodes);
    artifact := JObj(map[
      "header" := JObj(ResumedHeader(s, prior, parentId, tool)),
      "attempts" := JArr(attempts), "outputs" := JArr(outputs), "summary" := JNull]);
  }

  // ---- One generation ------------------------------------------------------

  function HeaderIn(artifact: Json): Json {
    match Get(artifact, "header") case Some(header) => header case None => JNull
  }

  function RunIdIn(artifact: Json): string { UnwrapOr(GetStr(HeaderIn(artifact), "run_id"), "") }

  function ParentIn(artifact: Json): Option<string> {
    match Get(HeaderIn(artifact), "resume_lineage")
    case Some(lineage) => GetStr(lineage, "parent_run_id")
    case None => None
  }

  /** The lineage root an artifact stands for: its recorded one, or itself. */
  function RootIn(artifact: Json): string { LineageRoot(HeaderIn(artifact), RunIdIn(artifact)) }

  function NodesIn(artifact: Json): map<string, PriorNode> { NodesFrom(AttemptsIn(artifact), RunIdIn(artifact)) }

  function ParametersIn(artifact: Json): Parameters { ReadParameters(HeaderIn(artifact)) }

  /** Resume from an artifact as it is written and read back. */
  function Resumed(artifact: Json, s: Settled, tool: string): Json {
    match ParseText(ValueText(artifact))
    case Some(prior) => ResumedArtifact(s, HeaderIn(prior), RunIdIn(prior), NodesIn(prior), tool)
    case None => JNull
  }

  lemma ResumedIs(artifact: Json, s: Settled, tool: string)
    ensures Resumed(artifact, s, tool) ==
            ResumedArtifact(s, HeaderIn(artifact), RunIdIn(artifact), NodesIn(artifact), tool)
  {
    hide ParseText, ValueText, ResumedArtifact, NodesIn, HeaderIn, RunIdIn;
    CanonicalProofs.ParseUndoesPrint(artifact);
  }

  /** The header of a resumed artifact reads back as it was settled, linked to its immediate
      predecessor and to that one's root. */
  lemma HeaderReadsBack(artifact: Json, s: Settled, tool: string)
    ensures RunIdIn(Resumed(artifact, s, tool)) == s.runId
    ensures ParentIn(Resumed(artifact, s, tool)) == Some(RunIdIn(artifact))
    ensures RootIn(Resumed(artifact, s, tool)) == RootIn(artifact)
    ensures ParametersIn(Resumed(artifact, s, tool)) == s.parameters
  {
    hide Resumed, ResumedArtifact, NodesIn, RunIdIn, ParentIn, RootIn, ParametersIn;
    ResumedIs(artifact, s, tool);
    var prior, parentId := HeaderIn(artifact), RunIdIn(artifact);
    IdentityReadsBack(s, prior, parentId, NodesIn(artifact), tool);
    LineageReadsBack(s, prior, parentId, NodesIn(artifact), tool);
    RootReadsBack(artifact);
  }

  /** The rest of a resumed header: what was settled, the tool, and what is taken over. */
  predicate SettledHeader(header: Json, s: Settled, prior: Json, tool: string) {
    && Get(header, "data_interval") == Some(s.interval) && GetStr(header, "tool_version") == Some(tool)
    && Get(header, "resume_forced") == (if s.forced then Some(JBool(true)) else None)
    && GetStr(header, "overall_outcome") == Some("succeeded")
    && GetStr(header, "pipeline") == Some(UnwrapOr(GetStr(prior, "pipeline"), ""))
    && Get(header, "fingerprint_structural") == Get(prior, "fingerprint_structural")
    && Get(header, "fingerprint_policy") == Get(prior, "fingerprint_policy")
    && Get(header, "fingerprint_algorithm_version") == Get(prior, "fingerprint_algorithm_version")
    && Get(header, "captured_environment") == Some(UnwrapOr(Get(prior, "captured_environment"), JObj(map[])))
  }

  /** **A resumed header says what was settled** and takes over the pipeline, the fingerprints
      and the environment of the run it resumes. */
  lemma SettledReadsBack(artifact: Json, s: Settled, tool: string)
    ensures SettledHeader(HeaderIn(Resumed(artifact, s, tool)), s, HeaderIn(artifact), tool)
  {
    hide Resumed, NodesIn, RunIdIn, CarriedRecords, CarriedOutputs, Sorted, SettledHeader, ResumedHeader;
    ResumedIs(artifact, s, tool);
    SettledFields(s, HeaderIn(artifact), RunIdIn(artifact), tool);
  }

  lemma SettledFields(s: Settled, prior: Json, parentId: string, tool: string)
    ensures SettledHeader(JObj(ResumedHeader(s, prior, parentId, tool)), s, prior, tool)
  {
    hide ResumedHeader;
    SettledFacts(s, prior, parentId, tool);
    SettledNames(s, prior, parentId, tool);
    SettledFingerprints(s, prior, parentId, tool);
  }

  lemma SettledFacts(s: Settled, prior: Json, parentId: string, tool: string)
    ensures var header := JObj(ResumedHeader(s, prior, parentId, tool));
            && Get(header, "data_interval") == Some(s.interval) && GetStr(header, "tool_version") == Some(tool)
            && Get(header, "resume_forced") == (if s.forced then Some(JBool(true)) else None)
  {
    hide LineageRoot;
  }

  lemma SettledNames(s: Settled, prior: Json, parentId: string, tool: string)
    ensures var header := JObj(ResumedHeader(s, prior, parentId, tool));
            && GetStr(header, "overall_outcome") == Some("succeeded")
            && GetStr(header, "pipeline") == Some(UnwrapOr(GetStr(prior, "pipeline"), ""))
            && Get(header, "captured_environment") == Some(UnwrapOr(Get(prior, "captured_environment"), JObj(map[])))
  {
    hide LineageRoot;
  }

  lemma SettledFingerprints(s: Settled, prior: Json, parentId: string, tool: string)
    ensures var header := JObj(ResumedHeader(s, prior, parentId, tool));
            && Get(header, "fingerprint_structural") == Get(prior, "fingerprint_structural")
            && Get(header, "fingerprint_policy") == Get(prior, "fingerprint_policy")
            && Get(header, "fingerprint_algorithm_version") == Get(prior, "fingerprint_algorithm_version")
  {
    hide LineageRoot;
  }

  /** The produced output a carried node is recorded with: the reference it had, its hash if
      one was recorded, and the run it came from. */
  predicate SaysCarried(v: Json, n: string, reference: string, origin: string, hash: Option<string>) {
    && GetStr(v, "node") == Some(n) && Get(v, "attempt") == Some(JNum(1)) && GetStr(v, "uri") == Some(reference)
    && Get(v, "produced_at_offset_ns") == Some(JNum(0)) && GetStr(v, "originating_run") == Some(origin)
    && Get(v, "content_hash") == TextValue(hash)
  }

  /** Those of the names whose value has a reference, in order. */
  function Referencing(names: seq<string>, nodes: map<string, PriorNode>): (ns: seq<string>)
    ensures forall n :: n in ns <==> n in names && ReferenceIn(nodes, n).Some?
  {
    if names == [] then []
    else
      var n := names[|names| - 1];
      assert names == names[..|names| - 1] + [n];
      Referencing(names[..|names| - 1], nodes) + if ReferenceIn(nodes, n).Some? then [n] else []
  }

  predicate SayCarried(outputs: seq<Json>, ns: seq<string>, satisfied: map<string, string>,
                       nodes: map<string, PriorNode>)
    requires forall n <- ns :: n in satisfied && ReferenceIn(nodes, n).Some?
  {
    |outputs| == |ns| && forall i :: 0 <= i < |ns| ==>
      SaysCarried(outputs[i], ns[i], ReferenceIn(nodes, ns[i]).value, satisfied[ns[i]], RecordedHashIn(nodes, ns[i]))
  }

  lemma {:induction false} CarriedOutputsSay(names: seq<string>, satisfied: map<string, string>,
          nodes: map<string, PriorNode>)
    requires forall n <- names :: n in satisfied
    ensures SayCarried(CarriedOutputs(names, satisfied, nodes), Referencing(names, nodes), satisfied, nodes)
  {
    hide CarriedOutput, SaysCarried, ReferenceIn, RecordedHashIn;
    if names != [] {
      var k := |names| - 1;
      var n := names[k];
      CarriedOutputsSay(names[..k], satisfied, nodes);
      if ReferenceIn(nodes, n).Some? {
        CarriedOutputSays(n, ReferenceIn(nodes, n).value, satisfied[n], nodes);
      }
    }
  }

  lemma CarriedOutputSays(n: string, reference: string, origin: string, nodes: map<string, PriorNode>)
    ensures SaysCarried(CarriedOutput(n, reference, origin, nodes), n, reference, origin, RecordedHashIn(nodes, n))
  {
    hide RecordedHashIn;
  }

  /** **A resumed artifact lists as outputs exactly the durable values it carried**, one for
      each in the order of names, under the run that produced it. */
  lemma OutputsReadBack(artifact: Json, s: Settled, tool: string)
    ensures var nodes, outputs := NodesIn(artifact), GetArr(Resumed(artifact, s, tool), "outputs");
            outputs.Some?
            && SayCarried(outputs.value, Referencing(Sorted(s.satisfied.Keys), nodes), s.satisfied, nodes)
  {
    hide Resumed, NodesIn, RunIdIn, CarriedRecords, CarriedOutputs, Sorted, ResumedHeader, ReferenceIn, SayCarried,
      Referencing;
    ResumedIs(artifact, s, tool);
    CarriedOutputsSay(Sorted(s.satisfied.Keys), s.satisfied, NodesIn(artifact));
  }

  lemma RootReadsBack(artifact: Json)
    ensures RootIn(artifact) == LineageRoot(HeaderIn(artifact), RunIdIn(artifact))
  {}

  lemma IdentityReadsBack(s: Settled, prior: Json, parentId: string, nodes: map<string, PriorNode>, tool: string)
    ensures RunIdIn(ResumedArtifact(s, prior, parentId, nodes, tool)) == s.runId
    ensures ParametersIn(ResumedArtifact(s, prior, parentId, nodes, tool)) == s.parameters
  {
    hide ResumedHeader, CarriedRecords, CarriedOutputs, Sorted;
    HeaderFields(s, prior, parentId, tool);
  }

  lemma LineageReadsBack(s: Settled, prior: Json, parentId: string, nodes: map<string, PriorNode>, tool: string)
    ensures ParentIn(ResumedArtifact(s, prior, parentId, nodes, tool)) == Some(parentId)
    ensures RootIn(ResumedArtifact(s, prior, parentId, nodes, tool)) == LineageRoot(prior, parentId)
  {
    hide ResumedHeader, CarriedRecords, CarriedOutputs, Sorted, RunIdIn;
    HeaderFields(s, prior, parentId, tool);
  }

  lemma HeaderFields(s: Settled, prior: Json, parentId: string, tool: string)
    ensures Get(JObj(ResumedHeader(s, prior, parentId, tool)), "run_id") == Some(JStr(s.runId))
    ensures Get(JObj(ResumedHeader(s, prior, parentId, tool)), "parameters") ==
            Some(JObj(map k | k in s.parameters :: JStr(s.parameters[k])))
    ensures Get(JObj(ResumedHeader(s, prior, parentId, tool)), "resume_lineage") ==
            Some(JObj(map["parent_run_id" := JStr(parentId),
                "lineage_root_run_id" := JStr(LineageRoot(prior, parentId))]))
  {
    hide LineageRoot;
  }

  lemma CarriedRecordReadsBack(node: string, origin: string, nodes: map<string, PriorNode>, runId: string)
    ensures GetStr(CarriedRecord(node, origin, nodes), "node") == Some(node)
    ensures NodeFrom(CarriedRecord(node, origin, nodes), runId) ==
            PriorNode(SatisfiedFromPrior, ReferenceIn(nodes, node), RecordedHashIn(nodes, node), origin)
  {
    hide ReferenceIn, RecordedHashIn, CarriedRecord;
    CarriedRecordSays(node, origin, nodes);
  }

  lemma CarriedRecordSays(node: string, origin: string, nodes: map<string, PriorNode>)
    ensures var v := CarriedRecord(node, origin, nodes);
            && GetStr(v, "node") == Some(node) && GetStr(v, "status") == Some("satisfied-from-prior")
            && GetStr(v, "satisfied_from_run") == Some(origin)
            && Get(v, "durable_reference") == TextValue(ReferenceIn(nodes, node))
            && HashIn(v) == RecordedHashIn(nodes, node)
  {
    hide ReferenceIn, RecordedHashIn;
  }

  /** A carried node's row, by name: satisfied from its origin by the resume, in no time. */
  lemma CarriedRowSays(node: string, origin: string, nodes: map<string, PriorNode>)
    ensures var v := CarriedRecord(node, origin, nodes);
            && Get(v, "attempt") == Some(JNum(1)) && GetStr(v, "status") == Some("satisfied-from-prior")
            && GetStr(v, "worker") == Some("resume") && GetStr(v, "satisfied_from_run") == Some(origin)
            && Get(v, "phase_durations_ns") == Some(JObj(map["executing" := JNum(0)]))
  {
    hide ReferenceIn, RecordedHashIn;
  }

  lemma {:induction false} CarriedRecordsReadBack(names: seq<string>, satisfied: map<string, string>,
          nodes: map<string, PriorNode>, runId: string, n: string)
    requires forall n <- names :: n in satisfied
    ensures var read := NodesFrom(CarriedRecords(names, satisfied, nodes), runId);
            && (n in read <==> n in names)
            && (n in names ==> read[n] == PriorNode(SatisfiedFromPrior, ReferenceIn(nodes, n),
                RecordedHashIn(nodes, n), satisfied[n]))
  {
    hide CarriedRecord, NodeFrom, ReferenceIn, RecordedHashIn;
    if names != [] {
      var k := |names| - 1;
      assert names == names[..k] + [names[k]];
      CarriedRecordsReadBack(names[..k], satisfied, nodes, runId, n);
      CarriedRecordReadsBack(names[k], satisfied[names[k]], nodes, runId);
      var earlier, last := CarriedRecords(names[..k], satisfied, nodes),
          CarriedRecord(names[k], satisfied[names[k]], nodes);
      assert (earlier + [last])[..|earlier|] == earlier;
    }
  }

  /** **One resume carries its satisfied nodes**: what the next resume reads is exactly the
      satisfied nodes, each with the reference, hash and origin it had. */
  lemma NodesReadBack(artifact: Json, s: Settled, tool: string)
    ensures NodesIn(Resumed(artifact, s, tool)) ==
            map n | n in s.satisfied ::
              PriorNode(SatisfiedFromPrior, ReferenceIn(NodesIn(artifact), n),
                  RecordedHashIn(NodesIn(artifact), n), s.satisfied[n])
  {
    hide Resumed, CarriedRecords, CarriedOutputs, NodesFrom, ResumedHeader, Sorted, ReferenceIn, RecordedHashIn;
    ResumedIs(artifact, s, tool);
    var runId := RunIdIn(Resumed(artifact, s, tool));
    forall n { CarriedRecordsReadBack(Sorted(s.satisfied.Keys), s.satisfied, NodesIn(artifact), runId, n); }
  }

  // ---- Chains --------------------------------------------------------------

  function AfterAll(first: Json, resumes: seq<Settled>, tool: string): Json {
    if resumes == [] then first
    else Resumed(AfterAll(first, resumes[..|resumes| - 1], tool), resumes[|resumes| - 1], tool)
  }

  /** Every plan takes its origins from the artifact it resumes. */
  ghost predicate OriginsFollow(first: Json, resumes: seq<Settled>, tool: string) {
    forall i :: 0 <= i < |resumes| ==>
      var nodes := NodesIn(AfterAll(first, resumes[..i], tool));
      forall n <- resumes[i].satisfied.Keys :: n in nodes && resumes[i].satisfied[n] == nodes[n].origin
  }

  lemma OriginsFollowEarlier(first: Json, resumes: seq<Settled>, tool: string)
    requires resumes != [] && OriginsFollow(first, resumes, tool)
    ensures OriginsFollow(first, resumes[..|resumes| - 1], tool)
  {
    hide AfterAll, NodesIn;
    var earlier := resumes[..|resumes| - 1];
    forall i | 0 <= i < |earlier| ensures earlier[..i] == resumes[..i] && earlier[i] == resumes[i] {}
  }

  /** **A chain of any length keeps what it carries**: a node satisfied at every resume still
      has the durable reference, the content hash and the originating run it had at first. */
  lemma {:induction false} ChainKeepsReferences(first: Json, resumes: seq<Settled>, tool: string, n: string)
    requires OriginsFollow(first, resumes, tool) && resumes != []
    requires forall s <- resumes :: n in s.satisfied
    ensures n in NodesIn(first) && n in NodesIn(AfterAll(first, resumes, tool))
    ensures NodesIn(AfterAll(first, resumes, tool))[n] == NodesIn(first)[n].(terminal := SatisfiedFromPrior)
  {
    hide NodesIn, Resumed;
    var k := |resumes| - 1;
    var last := resumes[k];
    assert last in resumes && OriginsFollow(first, resumes, tool);
    NodesReadBack(AfterAll(first, resumes[..k], tool), last, tool);
    if k > 0 {
      OriginsFollowEarlier(first, resumes, tool);
      ChainKeepsReferences(first, resumes[..k], tool, n);
    } else {
      assert resumes[..0] == [];
    }
  }

  /** Over a chain of any length the root stays the first run's and the parent is the immediate
      predecessor. */
  lemma {:induction false} ChainKeepsLineage(first: Json, resumes: seq<Settled>, tool: string)
    requires resumes != []
    ensures RootIn(AfterAll(first, resumes, tool)) == RootIn(first)
    ensures RunIdIn(AfterAll(first, resumes, tool)) == resumes[|resumes| - 1].runId
    ensures ParentIn(AfterAll(first, resumes, tool)) ==
            Some(if |resumes| == 1 then RunIdIn(first) else resumes[|resumes| - 2].runId)
  {
    hide Resumed, RootIn, RunIdIn, ParentIn, ParametersIn;
    var k := |resumes| - 1;
    HeaderReadsBack(AfterAll(first, resumes[..k], tool), resumes[k], tool);
    if k > 0 { ChainKeepsLineage(first, resumes[..k], tool); } else { assert resumes[..0] == []; }
  }

  /** The root travels only in artifacts built here: a header the writer streams for a resumed
      run names its parent alone, so resuming from its plain fold starts a new lineage. */
  lemma StreamedHeaderHasNoRoot(h: EventStream.RunStartedHeader, runId: string)
    ensures LineageRoot(EventStream.RunStartedHeaderValue(h, runId), runId) == runId
  {
    assert GetStr(EventStream.RunStartedHeaderValue(h, runId).fields["resume_lineage"], "lineage_root_run_id") == None;
  }

  function OverlaidBy(first: Parameters, overrides: seq<Parameters>): Parameters {
    if overrides == [] then first else OverlaidBy(first, overrides[..|overrides| - 1]) + overrides[|overrides| - 1]
  }

  /** And the parameters are the first run's overlaid by every accepted override in turn. */
  lemma {:induction false} ChainKeepsParameters(first: Json, resumes: seq<Settled>, tool: string,
          overrides: seq<Parameters>)
    requires |overrides| == |resumes|
    requires forall i :: 0 <= i < |resumes| ==>
               resumes[i].parameters == ParametersIn(AfterAll(first, resumes[..i], tool)) + overrides[i]
    ensures ParametersIn(AfterAll(first, resumes, tool)) == OverlaidBy(ParametersIn(first), overrides)
  {
    hide Resumed, RootIn, RunIdIn, ParentIn, ParametersIn;
    if resumes != [] {
      var k := |resumes| - 1;
      forall i | 0 <= i < k ensures resumes[..k][..i] == resumes[..i] {}
      HeaderReadsBack(AfterAll(first, resumes[..k], tool), resumes[k], tool);
      ChainKeepsParameters(first, resumes[..k], tool, overrides[..k]);
    }
  }

  /** **But no plan satisfies a node twice**: read back, a carried node is not a success, so the
      next plan over such an artifact carries nothing and every node runs again. */
  lemma NothingIsCarriedTwice(artifact: Json, s: Settled, tool: string, g: Graph, prior: PriorRun, m: set<string>)
    requires WellFormed(g) && IsMustRun(g, prior, m)
    requires prior.nodes == NodesIn(Resumed(artifact, s, tool))
    ensures SatisfiedOf(g, prior, m) == map[] && m == g.inputs.Keys
  {
    hide NodesIn, Resumed;
    NodesReadBack(artifact, s, tool);
    assert forall n :: !DidSucceed(prior, n);
    assert SeedOf(g, prior) == g.inputs.Keys;
  }

  // ---- Chains the planner makes --------------------------------------------

  /** One resume as it is carried out: what was settled and what had to run again. */
  datatype Generation = Generation(settled: Settled, mustRun: set<string>)

  /** The resume follows its plan over the artifact it read. */
  ghost predicate FollowsPlan(g: Graph, artifact: Json, gen: Generation, tool: string)
    requires WellFormed(g)
  {
    var prior := PriorRunOf(HeaderIn(artifact), artifact, RunIdIn(artifact), tool);
    IsMustRun(g, prior, gen.mustRun) && gen.settled.satisfied == SatisfiedOf(g, prior, gen.mustRun)
  }

  /** What any artifact of the finished resume says: the satisfied nodes were carried, and all
      others it mentions had to run again and are this run's own. */
  ghost predicate Records(next: Json, gen: Generation) {
    && (forall n <- gen.settled.satisfied.Keys ::
          n in NodesIn(next) && NodesIn(next)[n].terminal == SatisfiedFromPrior)
    && (forall n <- NodesIn(next).Keys :: n !in gen.settled.satisfied ==>
          n in gen.mustRun && NodesIn(next)[n].origin == gen.settled.runId)
  }

  /** Each resume follows its plan over the artifact the one before it left. */
  ghost predicate RealChain(g: Graph, artifacts: seq<Json>, gens: seq<Generation>, tool: string)
    requires WellFormed(g)
  {
    && |artifacts| == |gens| + 1
    && forall i :: 0 <= i < |gens| ==> FollowsPlan(g, artifacts[i], gens[i], tool) && Records(artifacts[i + 1], gens[i])
  }

  lemma SatisfiedSucceeded(g: Graph, artifact: Json, gen: Generation, tool: string, n: string)
    requires WellFormed(g) && FollowsPlan(g, artifact, gen, tool) && n in gen.settled.satisfied
    ensures n in NodesIn(artifact) && NodesIn(artifact)[n].terminal == Succeeded
    ensures gen.settled.satisfied[n] == NodesIn(artifact)[n].origin && n in g.inputs && n !in gen.mustRun
  {
    hide NodesFrom, IsMustRun, ParseFingerprint;
  }

  lemma CarriedRunsAgain(g: Graph, artifact: Json, gen: Generation, tool: string, n: string)
    requires WellFormed(g) && FollowsPlan(g, artifact, gen, tool)
    requires n in NodesIn(artifact) && NodesIn(artifact)[n].terminal == SatisfiedFromPrior
    ensures n in g.inputs ==> n in gen.mustRun
    ensures n !in gen.settled.satisfied
  {
    hide IsMustRun, ParseFingerprint, NodesFrom;
    var prior := PriorRunOf(HeaderIn(artifact), artifact, RunIdIn(artifact), tool);
    if n in g.inputs { CarriedForwardRunsAgain(g, prior, gen.mustRun, n); }
  }

  /** **Over chains of plans a node is carried once.** In a chain of any length, each resume
      following its plan over the artifact before it, what a resume satisfies had succeeded in
      that artifact and keeps the origin read there; the next resume finds it carried, runs it
      again and does not satisfy it. So from the second resume on what is satisfied ran itself
      in the resume just before, and that run is its origin. */
  lemma RealChainCarriesOnce(g: Graph, artifacts: seq<Json>, gens: seq<Generation>, tool: string, i: nat, n: string)
    requires WellFormed(g) && RealChain(g, artifacts, gens, tool) && i < |gens| && n in gens[i].settled.satisfied
    ensures n in NodesIn(artifacts[i]) && NodesIn(artifacts[i])[n].terminal == Succeeded
    ensures gens[i].settled.satisfied[n] == NodesIn(artifacts[i])[n].origin
    ensures i > 0 ==> n in gens[i - 1].mustRun && n !in gens[i - 1].settled.satisfied
    ensures i > 0 ==> gens[i].settled.satisfied[n] == gens[i - 1].settled.runId
    ensures i + 1 < |gens| ==> n in gens[i + 1].mustRun && n !in gens[i + 1].settled.satisfied
  {
    hide NodesIn, FollowsPlan;
    SatisfiedSucceeded(g, artifacts[i], gens[i], tool, n);
    if i > 0 { assert Records(artifacts[i - 1 + 1], gens[i - 1]); }
    if i + 1 < |gens| { CarriedRunsAgain(g, artifacts[i + 1], gens[i + 1], tool, n); }
  }

  // ---- The artifact of a finished resume -----------------------------------

  /** The carried records followed by the attempts made. */
  function Completed(artifact: Json, s: Settled, executed: seq<Json>, tool: string): Json {
    match Resumed(artifact, s, tool)
    case JObj(fields) => JObj(fields["attempts" := JArr(AttemptsIn(JObj(fields)) + executed)])
    case other => other
  }

  /** An attempt some node made itself. */
  predicate OwnAttempt(a: Json, mustRun: set<string>) {
    && GetStr(a, "node").Some? && GetStr(a, "node").value in mustRun
    && GetStr(a, "satisfied_from_run").None?
    && TerminalOf(UnwrapOr(GetStr(a, "status"), "failed")) != SatisfiedFromPrior
  }

  lemma {:induction false} NodesFromAppend(a: seq<Json>, b: seq<Json>, runId: string)
    ensures NodesFrom(a + b, runId) == NodesFrom(a, runId) + NodesFrom(b, runId)
  {
    hide NodeFrom;
    if b == [] {
      assert a + b == a;
    } else {
      NodesFromAppend(a, b[..|b| - 1], runId);
      assert (a + b)[..|a + b| - 1] == a + b[..|b| - 1];
    }
  }

  lemma {:induction false} OwnNodes(executed: seq<Json>, mustRun: set<string>, runId: string)
    requires forall a <- executed :: OwnAttempt(a, mustRun)
    ensures forall n <- NodesFrom(executed, runId).Keys ::
              n in mustRun && NodesFrom(executed, runId)[n].origin == runId
              && NodesFrom(executed, runId)[n].terminal != SatisfiedFromPrior
  {
    hide TerminalOf;
    if executed != [] {
      var k := |executed| - 1;
      OwnNodes(executed[..k], mustRun, runId);
      assert executed[k] in executed && forall a <- executed[..k] :: a in executed;
    }
  }

  lemma CompletedReadsBack(artifact: Json, s: Settled, executed: seq<Json>, tool: string)
    ensures NodesIn(Completed(artifact, s, executed, tool)) ==
            NodesIn(Resumed(artifact, s, tool)) + NodesFrom(executed, s.runId)
  {
    hide NodesFrom, ResumedHeader, CarriedRecords, CarriedOutputs, Sorted, Resumed, LineageRoot;
    ResumedIs(artifact, s, tool);
    HeaderReadsBack(artifact, s, tool);
    NodesFromAppend(AttemptsIn(Resumed(artifact, s, tool)), executed, s.runId);
  }

  /** Such an artifact continues a chain, and keeps of every satisfied node the reference, the
      hash and the origin it had. */
  lemma CompletedContinues(g: Graph, artifact: Json, gen: Generation, executed: seq<Json>, tool: string)
    requires WellFormed(g) && FollowsPlan(g, artifact, gen, tool)
    requires forall a <- executed :: OwnAttempt(a, gen.mustRun)
    ensures var next := Completed(artifact, gen.settled, executed, tool);
            && Records(next, gen)
            && forall n <- gen.settled.satisfied.Keys ::
                 n in NodesIn(artifact) && NodesIn(next)[n] == NodesIn(artifact)[n].(terminal := SatisfiedFromPrior)
  {
    hide NodesFrom, NodesIn, Resumed, Completed, FollowsPlan, OwnAttempt;
    CompletedReadsBack(artifact, gen.settled, executed, tool);
    NodesReadBack(artifact, gen.settled, tool);
    OwnNodes(executed, gen.mustRun, gen.settled.runId);
    forall n | n in gen.settled.satisfied
      ensures n in NodesIn(artifact) && gen.settled.satisfied[n] == NodesIn(artifact)[n].origin && n !in gen.mustRun
    {
      SatisfiedSucceeded(g, artifact, gen, tool, n);
    }
  }
}
