/** The one-record-per-attempt body of a run artifact: a single pass over the stream. */
module FoldAttempts {
  import opened Text
  import opened Json
  import opened Canonical

  // ---- Reading a record ----------------------------------------------------

  /** The kinds the fold tells apart; every other kind, or none, is passed over. */
  datatype Kind =
    | KRunStarted | KRunFinished | KReady | KAdmitted | KStarted | KOutcome
    | KTerminal | KOutput | KSubmitted | KZombie | KOther

  function KindNamed(name: string): Kind {
    if name == "run-started" then KRunStarted
    else if name == "run-finished" then KRunFinished
    else if name == "node-ready" then KReady
    else if name == "node-admitted" then KAdmitted
    else if name == "attempt-started" then KStarted
    else if name == "attempt-outcome" then KOutcome
    else if name == "node-terminal" then KTerminal
    else if name == "output-produced" then KOutput
    else if name == "attempt-submitted" then KSubmitted
    else if name == "zombie-at-exit" then KZombie
    else KOther
  }

  function KindOf(rec: Json): Kind {
    match GetStr(rec, "kind")
    case Some(name) => KindNamed(name)
    case None => KOther
  }

  function NodeOf(rec: Json): Option<string> { GetStr(rec, "node") }

  function OffsetOf(rec: Json): (off: nat)
    ensures off < U64_LIMIT
  {
    match GetU64(rec, "offset_ns")
    case Some(n) => n
    case None => 0
  }

  /** A record of this kind that names this node. */
  predicate Names(rec: Json, kind: Kind, node: string) {
    KindOf(rec) == kind && NodeOf(rec) == Some(node)
  }

  // ---- Attempt records -----------------------------------------------------

  const UNKNOWN_WORKER := "unknown"

  datatype Phases = Phases(backoff: nat, readyWait: nat, permitWait: nat, executing: nat) {
    function Total(): nat { backoff + readyWait + permitWait + executing }
  }

  const ZERO_PHASES := Phases(0, 0, 0, 0)

  datatype AttemptRecord = AttemptRecord(
    node: string,
    attempt: nat,
    status: string,
    phases: Phases,
    worker: string,
    message: Option<string>,
    error: Option<Json>,
    metrics: Json,
    costDeclared: Option<Json>,
    costMeasured: Option<Json>,
    durableReference: Option<Json>,
    durableReferenceMeta: Option<Json>,
    satisfiedFromRun: Option<string>,
    originatingNode: Option<string>,
    inputs: seq<Json>)

  function Min(a: nat, b: nat): nat { if a < b then a else b }

  function SaturatingSub(a: nat, b: nat): nat { if a < b then 0 else a - b }

  function Lookup(m: map<string, nat>, n: string): Option<nat> {
    if n in m then Some(m[n]) else None
  }

  /** How far into the window `(start, end]` an instant falls; 0 when outside it. */
  function Within(at: Option<nat>, start: nat, end: nat): nat {
    match at
    case Some(a) => if start < a <= end then a - start else 0
    case None => 0
  }

  /** Where an attempt's own window begins. */
  function WindowStart(startedAt: Option<nat>, end: nat): nat {
    Min(UnwrapOr(startedAt, end), end)
  }

  /** The four phases of the window ending at `end`; `executing` absorbs the remainder. */
  function PhasesOf(attempt: nat, end: nat, readyAt: Option<nat>, admittedAt: Option<nat>,
                    startedAt: Option<nat>, prevTerminalAt: Option<nat>): Phases
  {
    var start := WindowStart(startedAt, end);
    var total := SaturatingSub(end, start);
    var readyWait := Min(Within(readyAt, start, end), total);
    var permitWait := Min(Within(admittedAt, start, end), SaturatingSub(total, readyWait));
    var backoffIn := if attempt > 1 then Within(prevTerminalAt, start, end) else 0;
    var backoff := Min(backoffIn, SaturatingSub(total, readyWait + permitWait));
    Phases(backoff, readyWait, permitWait, total - readyWait - permitWait - backoff)
  }

  function WorkerOf(rec: Json): string {
    match GetStr(rec, "worker")
    case Some(w) => w
    case None =>
      var thread := match GetU64(rec, "thread")
                    case Some(n) => Some(NumText(n))
                    case None => GetStr(rec, "thread");
      match (GetStr(rec, "pool"), thread)
      case (Some(p), Some(t)) => p + "#" + t
      case (Some(p), None) => p
      case (None, Some(t)) => UNKNOWN_WORKER + "#" + t
      case (None, None) => UNKNOWN_WORKER
  }

  function ObjectsIn(items: seq<Json>): seq<Json> {
    if items == [] then []
    else (if items[0].JObj? then [items[0]] else []) + ObjectsIn(items[1..])
  }

  function ConsumedInputsOf(rec: Json): seq<Json> {
    match GetArr(rec, "inputs")
    case Some(items) => ObjectsIn(items)
    case None => []
  }

  function MetricsOf(rec: Json): Json {
    match Get(rec, "metrics")
    case Some(JObj(m)) => JObj(m)
    case _ => JObj(map[])
  }

  // ---- The pass ------------------------------------------------------------

  /** What the pass holds between two records: the last-seen offsets per node, the attempts
      so far, the nodes that ran, and each node's last terminal record. */
  datatype Scan = Scan(
    readyAt: map<string, nat>,
    admittedAt: map<string, nat>,
    startedAt: map<string, nat>,
    prevTerminalAt: map<string, nat>,
    attempts: seq<AttemptRecord>,
    ran: set<string>,
    terminal: map<string, Json>)

  const SCAN_START := Scan(map[], map[], map[], map[], [], {}, map[])

  function BuildAttemptRecord(rec: Json, node: string, s: Scan): AttemptRecord {
    var attempt := UnwrapOr(GetU32(rec, "attempt"), 1);
    AttemptRecord(
      node,
      attempt,
      UnwrapOr(GetStr(rec, "status"), "failed"),
      PhasesOf(attempt, OffsetOf(rec), Lookup(s.readyAt, node), Lookup(s.admittedAt, node),
               Lookup(s.startedAt, node), Lookup(s.prevTerminalAt, node)),
      WorkerOf(rec),
      GetStr(rec, "message"),
      GetNonNull(rec, "error"),
      MetricsOf(rec),
      GetNonNull(rec, "cost_declared"),
      GetNonNull(rec, "cost_measured"),
      GetNonNull(rec, "durable_reference"),
      GetNonNull(rec, "durable_reference_meta"),
      GetStr(rec, "satisfied_from_run"),
      GetStr(rec, "originating_node"),
      ConsumedInputsOf(rec))
  }

  function ScanStep(s: Scan, rec: Json): Scan {
    match NodeOf(rec)
    case None => s
    case Some(n) =>
      var off := OffsetOf(rec);
      match KindOf(rec)
      case KReady => s.(readyAt := s.readyAt[n := off])
      case KAdmitted => s.(admittedAt := s.admittedAt[n := off])
      case KStarted => s.(startedAt := s.startedAt[n := off])
      case KOutcome =>
        s.(attempts := s.attempts + [BuildAttemptRecord(rec, n, s)],
           prevTerminalAt := s.prevTerminalAt[n := off],
           ran := s.ran + {n})
      case KTerminal => s.(terminal := s.terminal[n := rec])
      case _ => s
  }

  function ScanAll(rs: seq<Json>): Scan {
    if rs == [] then SCAN_START else ScanStep(ScanAll(rs[..|rs| - 1]), rs[|rs| - 1])
  }

  // ---- Coverage of nodes that never ran ------------------------------------

  function SynthesizeNeverRan(node: string, rec: Json): AttemptRecord {
    AttemptRecord(
      node, 1, UnwrapOr(GetStr(rec, "state"), "upstream-failed"), ZERO_PHASES, UNKNOWN_WORKER,
      GetStr(rec, "message"), GetNonNull(rec, "error"), JObj(map[]), None, None,
      GetNonNull(rec, "durable_reference"), GetNonNull(rec, "durable_reference_meta"),
      GetStr(rec, "satisfied_from_run"), GetStr(rec, "originating_node"), [])
  }

  function RosterRow(node: string): AttemptRecord {
    AttemptRecord(node, 1, "upstream-failed", ZERO_PHASES, UNKNOWN_WORKER,
                  None, None, JObj(map[]), None, None, None, None, None, None, [])
  }

  /** Rows for the terminal-only nodes among `names`, in order. */
  function NeverRanRows(s: Scan, names: seq<string>): (rows: seq<AttemptRecord>)
    requires forall n <- names :: n in s.terminal
    ensures forall a <- rows :: a.phases == ZERO_PHASES
  {
    if names == [] then []
    else
      var n := names[|names| - 1];
      var rows := NeverRanRows(s, names[..|names| - 1]);
      if n in s.ran then rows else rows + [SynthesizeNeverRan(n, s.terminal[n])]
  }

  predicate Covers(attempts: seq<AttemptRecord>, node: string) {
    exists a <- attempts :: a.node == node
  }

  /** `attempts` followed by a row for each roster node not yet covered. */
  function WithRoster(attempts: seq<AttemptRecord>, nodes: seq<string>): (all: seq<AttemptRecord>)
    ensures attempts <= all
    ensures forall i :: |attempts| <= i < |all| ==> all[i].phases == ZERO_PHASES && all[i].node in nodes
    ensures forall n <- nodes :: Covers(all, n)
  {
    if nodes == [] then attempts
    else
      var n := nodes[|nodes| - 1];
      var all := WithRoster(attempts, nodes[..|nodes| - 1]);
      var more := all + [RosterRow(n)];
      assert Covers(more, n) && forall m <- nodes :: Covers(all, m) ==> Covers(more, m) by {
        assert more[|all|].node == n;
        assert forall a <- all :: a in more;
      }
      assert forall m <- nodes :: m == n || m in nodes[..|nodes| - 1];
      if Covers(all, n) then all else more
  }

  function CoverageRows(s: Scan): seq<AttemptRecord> {
    NeverRanRows(s, Sorted(s.terminal.Keys))
  }

  function AttemptsOf(rs: seq<Json>, nodes: seq<string>): seq<AttemptRecord> {
    var s := ScanAll(rs);
    WithRoster(s.attempts + CoverageRows(s), nodes)
  }

  // ---- The assembler itself ------------------------------------------------

  method AssembleAttempts(records: seq<Json>, graphNodes: seq<string>) returns (attempts: seq<AttemptRecord>)
    ensures attempts == AttemptsOf(records, graphNodes)
  {
    hide ScanAll, NeverRanRows, WithRoster;
    var s := ScanRecords(records);
    var covered := CoverTerminalOnly(s);
    attempts := CoverRoster(covered, graphNodes);
  }

  /** The pass over the records, updating one map per kind of record. */
  method ScanRecords(records: seq<Json>) returns (s: Scan)
    ensures s == ScanAll(records)
  {
    hide BuildAttemptRecord, KindOf, NodeOf, OffsetOf;
    var readyAt: map<string, nat>, admittedAt: map<string, nat> := map[], map[];
    var startedAt: map<string, nat>, prevTerminalAt: map<string, nat> := map[], map[];
    var attempts: seq<AttemptRecord> := [];
    var ran: set<string> := {};
    var terminal: map<string, Json> := map[];
    for i := 0 to |records|
      invariant ScanAll(records[..i]) == Scan(readyAt, admittedAt, startedAt, prevTerminalAt, attempts, ran, terminal)
    {
      assert records[..i + 1][..i] == records[..i];
      var rec := records[i];
      var off := OffsetOf(rec);
      match NodeOf(rec)
      case None =>
      case Some(n) =>
        match KindOf(rec)
        case KReady => readyAt := readyAt[n := off];
        case KAdmitted => admittedAt := admittedAt[n := off];
        case KStarted => startedAt := startedAt[n := off];
        case KOutcome =>
          var before := Scan(readyAt, admittedAt, startedAt, prevTerminalAt, attempts, ran, terminal);
          attempts := attempts + [BuildAttemptRecord(rec, n, before)];
          prevTerminalAt := prevTerminalAt[n := off];
          ran := ran + {n};
        case KTerminal => terminal := terminal[n := rec];
        case _ =>
    }
    assert records[..|records|] == records;
    s := Scan(readyAt, admittedAt, startedAt, prevTerminalAt, attempts, ran, terminal);
  }

  /** A zero-elapsed row for every node with a terminal record and no attempt. */
  method CoverTerminalOnly(s: Scan) returns (attempts: seq<AttemptRecord>)
    ensures attempts == s.attempts + CoverageRows(s)
  {
    hide NeverRanRows;
    attempts := CoverNames(s, Sorted(s.terminal.Keys));
  }

  method CoverNames(s: Scan, names: seq<string>) returns (attempts: seq<AttemptRecord>)
    requires forall n <- names :: n in s.terminal
    ensures attempts == s.attempts + NeverRanRows(s, names)
  {
    hide SynthesizeNeverRan;
    attempts := s.attempts;
    ghost var rows: seq<AttemptRecord> := [];
    for i := 0 to |names|
      invariant rows == NeverRanRows(s, names[..i])
      invariant attempts == s.attempts + rows
    {
      assert names[..i + 1][..i] == names[..i];
      if names[i] !in s.ran {
        var row := SynthesizeNeverRan(names[i], s.terminal[names[i]]);
        attempts := attempts + [row];
        rows := rows + [row];
      }
    }
    assert names[..|names|] == names;
  }

  /** A conservative row for every roster node the stream never mentioned. */
  method CoverRoster(covered: seq<AttemptRecord>, graphNodes: seq<string>) returns (attempts: seq<AttemptRecord>)
    ensures attempts == WithRoster(covered, graphNodes)
  {
    attempts := covered;
    for i := 0 to |graphNodes|
      invariant attempts == WithRoster(covered, graphNodes[..i])
    {
      assert graphNodes[..i + 1][..i] == graphNodes[..i];
      var seen := Covers(attempts, graphNodes[i]);
      if !seen { attempts := attempts + [RosterRow(graphNodes[i])]; }
    }
    assert graphNodes[..|graphNodes|] == graphNodes;
  }

  // ---- Phases --------------------------------------------------------------

  /** The four phases partition the attempt's own window exactly, for any offsets: nothing
      underflows, nothing is lost, and each recorded wait is clipped into the window. */
  lemma PhasesPartitionTheWindow(attempt: nat, end: nat, readyAt: Option<nat>, admittedAt: Option<nat>,
                                 startedAt: Option<nat>, prevTerminalAt: Option<nat>)
    ensures var p := PhasesOf(attempt, end, readyAt, admittedAt, startedAt, prevTerminalAt);
            && p.Total() == end - WindowStart(startedAt, end)
            && p.Total() <= end
            && (startedAt.Some? && startedAt.value <= end ==> p.Total() == end - startedAt.value)
  {}

  /** In the ordinary order (ready, admitted and any earlier attempt's end no later than the
      start) every wait lies outside the window and the whole window is execution. */
  lemma OrdinaryAttemptOnlyExecutes(attempt: nat, end: nat, readyAt: Option<nat>, admittedAt: Option<nat>,
                                    start: nat, prevTerminalAt: Option<nat>)
    requires start <= end
    requires readyAt.Some? ==> readyAt.value <= start
    requires admittedAt.Some? ==> admittedAt.value <= start
    requires prevTerminalAt.Some? ==> prevTerminalAt.value <= start
    ensures PhasesOf(attempt, end, readyAt, admittedAt, Some(start), prevTerminalAt) == Phases(0, 0, 0, end - start)
  {}

  // ---- A crash never rewrites history --------------------------------------

  lemma StepGrows(s: Scan, rec: Json)
    ensures s.attempts <= ScanStep(s, rec).attempts
  {
    hide BuildAttemptRecord, KindOf, NodeOf, OffsetOf;
    if KindOf(rec) == KOutcome && NodeOf(rec).Some? {
      var more := [BuildAttemptRecord(rec, NodeOf(rec).value, s)];
      assert ScanStep(s, rec).attempts == s.attempts + more;
    } else {
      assert ScanStep(s, rec).attempts == s.attempts;
    }
  }

  /** The attempt records of a record prefix are a prefix of those of the whole stream. */
  lemma {:induction false} AttemptsGrow(rs: seq<Json>, k: nat)
    requires k <= |rs|
    ensures ScanAll(rs[..k]).attempts <= ScanAll(rs).attempts
  {
    hide ScanStep;
    if k < |rs| {
      var before := rs[..|rs| - 1];
      AttemptsGrow(before, k);
      StepGrows(ScanAll(before), rs[|rs| - 1]);
      assert before[..k] == rs[..k];
    } else {
      assert rs[..k] == rs;
    }
  }

  /** How many outcome-derived attempt records a stream has. */
  function OutcomeCount(rs: seq<Json>): nat {
    |ScanAll(rs).attempts|
  }

  /** The published attempts start with the outcome-derived ones, then coverage rows. */
  lemma AttemptsStartWithOutcomes(rs: seq<Json>, nodes: seq<string>)
    ensures ScanAll(rs).attempts <= AttemptsOf(rs, nodes)
    ensures forall i :: OutcomeCount(rs) <= i < |AttemptsOf(rs, nodes)| ==>
              AttemptsOf(rs, nodes)[i].phases == ZERO_PHASES
    ensures forall n <- nodes :: Covers(AttemptsOf(rs, nodes), n)
  {
    hide ScanStep, ScanAll;
    var s := ScanAll(rs);
    var body := s.attempts + CoverageRows(s);
    assert s.attempts <= body <= WithRoster(body, nodes);
    assert forall i :: |s.attempts| <= i < |body| ==> body[i] in CoverageRows(s);
  }
}
