/** The phases of a folded attempt, read off the positions of records in the stream. */
module FoldPhases {
  import opened Text
  import opened Json
  import opened FoldAttempts
  import opened StreamTiming
  import opened StreamBounds

  // ---- Positions -----------------------------------------------------------

  /** The last record of the kind naming the node strictly between two positions, or -1. */
  function LastIn(rs: seq<Json>, kind: Kind, n: string, i: int, j: int): (k: int)
    requires -1 <= i && j <= |rs|
    ensures k == -1 || i < k < j
    decreases j - i
  {
    if j <= i + 1 then -1 else if Names(rs[j - 1], kind, n) then j - 1 else LastIn(rs, kind, n, i, j - 1)
  }

  /** It is the last. */
  lemma {:induction false} LastInIsLast(rs: seq<Json>, kind: Kind, n: string, i: int, j: int)
    requires -1 <= i && j <= |rs|
    ensures var k := LastIn(rs, kind, n, i, j);
            && (k >= 0 ==> Names(rs[k], kind, n))
            && forall m :: i < m < j && (k == -1 || k < m) ==> !Names(rs[m], kind, n)
    decreases j - i
  {
    hide Names;
    if i + 1 < j && !Names(rs[j - 1], kind, n) { LastInIsLast(rs, kind, n, i, j - 1); }
  }

  /** Looking from further back finds the same record, if it finds one after the start. */
  lemma {:induction false} LastInFrom(rs: seq<Json>, kind: Kind, n: string, i: int, j: int)
    requires -1 <= i && j <= |rs|
    ensures var k := LastIn(rs, kind, n, -1, j);
            LastIn(rs, kind, n, i, j) == if k > i then k else -1
    decreases j
  {
    hide Names;
    if 0 < j && i + 1 < j && !Names(rs[j - 1], kind, n) { LastInFrom(rs, kind, n, i, j - 1); }
  }

  function OffsetAt(rs: seq<Json>, k: int): Option<nat>
    requires k < |rs|
  {
    if k < 0 then None else Some(OffsetOf(rs[k]))
  }

  /** What the pass remembers of a node is the offset of the last record of each kind. */
  lemma {:induction false} RemembersLast(rs: seq<Json>, n: string, j: nat)
    requires j <= |rs|
    ensures var s := ScanAll(rs[..j]);
            && Lookup(s.startedAt, n) == OffsetAt(rs, LastIn(rs, KStarted, n, -1, j))
            && Lookup(s.readyAt, n) == OffsetAt(rs, LastIn(rs, KReady, n, -1, j))
            && Lookup(s.admittedAt, n) == OffsetAt(rs, LastIn(rs, KAdmitted, n, -1, j))
            && Lookup(s.prevTerminalAt, n) == OffsetAt(rs, LastIn(rs, KOutcome, n, -1, j))
  {
    hide ScanStep, Names, Lookup, OffsetOf;
    if j == 0 {
      NothingRemembered(n);
    } else {
      RemembersLast(rs, n, j - 1);
      assert rs[..j][..j - 1] == rs[..j - 1] && rs[..j][j - 1] == rs[j - 1];
      StepRemembers(ScanAll(rs[..j - 1]), rs[j - 1], n);
    }
  }

  lemma NothingRemembered(n: string)
    ensures Lookup(SCAN_START.startedAt, n) == None && Lookup(SCAN_START.readyAt, n) == None
    ensures Lookup(SCAN_START.admittedAt, n) == None && Lookup(SCAN_START.prevTerminalAt, n) == None
  {}

  function Latest(before: Option<nat>, rec: Json, kind: Kind, n: string): Option<nat> {
    if Names(rec, kind, n) then Some(OffsetOf(rec)) else before
  }

  function Put(m: map<string, nat>, rec: Json, kind: Kind): map<string, nat> {
    if KindOf(rec) == kind && NodeOf(rec).Some? then m[NodeOf(rec).value := OffsetOf(rec)] else m
  }

  lemma PutLooksUp(m: map<string, nat>, rec: Json, kind: Kind, n: string)
    ensures Lookup(Put(m, rec, kind), n) == Latest(Lookup(m, n), rec, kind, n)
  {
    hide OffsetOf, KindOf, NodeOf;
  }

  lemma StepPutsStarted(s: Scan, rec: Json)
    ensures ScanStep(s, rec).startedAt == Put(s.startedAt, rec, KStarted)
  {
    hide BuildAttemptRecord, OffsetOf, KindOf, NodeOf;
  }

  lemma StepPutsReady(s: Scan, rec: Json)
    ensures ScanStep(s, rec).readyAt == Put(s.readyAt, rec, KReady)
  {
    hide BuildAttemptRecord, OffsetOf, KindOf, NodeOf;
  }

  lemma StepPutsAdmitted(s: Scan, rec: Json)
    ensures ScanStep(s, rec).admittedAt == Put(s.admittedAt, rec, KAdmitted)
  {
    hide BuildAttemptRecord, OffsetOf, KindOf, NodeOf;
  }

  lemma StepPutsOutcome(s: Scan, rec: Json)
    ensures ScanStep(s, rec).prevTerminalAt == Put(s.prevTerminalAt, rec, KOutcome)
  {
    hide BuildAttemptRecord, OffsetOf, KindOf, NodeOf;
  }

  lemma StepRemembers(s: Scan, rec: Json, n: string)
    ensures var t := ScanStep(s, rec);
            && Lookup(t.startedAt, n) == Latest(Lookup(s.startedAt, n), rec, KStarted, n)
            && Lookup(t.readyAt, n) == Latest(Lookup(s.readyAt, n), rec, KReady, n)
            && Lookup(t.admittedAt, n) == Latest(Lookup(s.admittedAt, n), rec, KAdmitted, n)
            && Lookup(t.prevTerminalAt, n) == Latest(Lookup(s.prevTerminalAt, n), rec, KOutcome, n)
  {
    hide ScanStep, Put, Latest, Lookup;
    StepPutsStarted(s, rec);
    StepPutsReady(s, rec);
    StepPutsAdmitted(s, rec);
    StepPutsOutcome(s, rec);
    PutLooksUp(s.startedAt, rec, KStarted, n);
    PutLooksUp(s.readyAt, rec, KReady, n);
    PutLooksUp(s.admittedAt, rec, KAdmitted, n);
    PutLooksUp(s.prevTerminalAt, rec, KOutcome, n);
  }

  // ---- The phases of one attempt -------------------------------------------

  /** How long after the start at `i` the last record of the kind before `j` came, if after. */
  function Wait(rs: seq<Json>, kind: Kind, n: string, i: nat, j: nat): int
    requires i < j <= |rs|
  {
    var k := LastIn(rs, kind, n, i, j);
    if k < 0 then 0 else OffsetOf(rs[k]) - OffsetOf(rs[i])
  }

  function Attempt(rec: Json): nat { UnwrapOr(GetU32(rec, "attempt"), 1) }

  /** The attempt started at `i` and reported at `j`: what the node waited for after the start,
      readiness first, then admission, then, for a retry, the outcome before; each at most what
      is left of the window; the rest is execution. */
  function PhasesBetween(rs: seq<Json>, n: string, i: nat, j: nat): (p: Phases)
    requires i < j < |rs| && NonDecreasing(rs)
  {
    hide OffsetOf, Names;
    var window := OffsetOf(rs[j]) - OffsetOf(rs[i]);
    var ready, admitted, retried := Wait(rs, KReady, n, i, j), Wait(rs, KAdmitted, n, i, j),
      if Attempt(rs[j]) > 1 then Wait(rs, KOutcome, n, i, j) else 0;
    var permit := Least(admitted, window - ready);
    var backoff := Least(retried, window - ready - permit);
    Phases(backoff, ready, permit, window - ready - permit - backoff)
  }

  function Least(a: int, b: int): int { if a < b then a else b }

  lemma WaitFits(rs: seq<Json>, kind: Kind, n: string, i: nat, j: nat)
    requires i < j < |rs| && NonDecreasing(rs)
    ensures 0 <= Wait(rs, kind, n, i, j) <= OffsetOf(rs[j]) - OffsetOf(rs[i])
  {
    hide OffsetOf;
  }

  /** Where the record is in the stream's attempts: as many precede it as outcomes do. */
  function Position(rs: seq<Json>, j: nat): nat
    requires j <= |rs|
  {
    |ScanAll(rs[..j]).attempts|
  }

  /** Only records before the start lie at or before it, and no wait counts those. */
  lemma WithinIsWait(rs: seq<Json>, kind: Kind, n: string, i: nat, j: nat)
    requires i < j < |rs| && NonDecreasing(rs)
    ensures Within(OffsetAt(rs, LastIn(rs, kind, n, -1, j)), OffsetOf(rs[i]), OffsetOf(rs[j])) ==
            Wait(rs, kind, n, i, j)
  {
    hide OffsetOf, Names;
    LastInFrom(rs, kind, n, i, j);
  }

  /** **The phases are those of the positions.** Whatever else the stream holds, as long as
      offsets never step back, an attempt's four phases are what the records between its start
      and its outcome make them; without a start they are all zero. */
  lemma AttemptHasPhases(rs: seq<Json>, nodes: seq<string>, n: string, j: nat)
    requires NonDecreasing(rs) && j < |rs| && Names(rs[j], KOutcome, n)
    ensures var attempts, i := AttemptsOf(rs, nodes), LastIn(rs, KStarted, n, -1, j);
            && Position(rs, j) < |attempts|
            && attempts[Position(rs, j)].node == n && attempts[Position(rs, j)].attempt == Attempt(rs[j])
            && attempts[Position(rs, j)].phases == if i < 0 then ZERO_PHASES else PhasesBetween(rs, n, i, j)
  {
    hide ScanAll, AttemptsOf, NonDecreasing, OffsetOf, BuildAttemptRecord, KindOf, NodeOf, PhasesBetween;
    var s := ScanAll(rs[..j]);
    assert rs[..j + 1][..j] == rs[..j] && rs[..j + 1][j] == rs[j];
    AttemptsGrow(rs, j + 1);
    AttemptsStartWithOutcomes(rs, nodes);
    OutcomeAdds(rs, j, n);
    RemembersLast(rs, n, j);
    PhasesAre(rs, n, j, s);
  }

  lemma OutcomeAdds(rs: seq<Json>, j: nat, n: string)
    requires j < |rs| && Names(rs[j], KOutcome, n)
    ensures ScanAll(rs[..j + 1]).attempts ==
            ScanAll(rs[..j]).attempts + [BuildAttemptRecord(rs[j], n, ScanAll(rs[..j]))]
  {
    hide BuildAttemptRecord, OffsetOf;
    assert rs[..j + 1][..j] == rs[..j] && rs[..j + 1][j] == rs[j];
  }

  lemma PhasesAre(rs: seq<Json>, n: string, j: nat, s: Scan)
    requires NonDecreasing(rs) && j < |rs| && Names(rs[j], KOutcome, n)
    requires Lookup(s.startedAt, n) == OffsetAt(rs, LastIn(rs, KStarted, n, -1, j))
    requires Lookup(s.readyAt, n) == OffsetAt(rs, LastIn(rs, KReady, n, -1, j))
    requires Lookup(s.admittedAt, n) == OffsetAt(rs, LastIn(rs, KAdmitted, n, -1, j))
    requires Lookup(s.prevTerminalAt, n) == OffsetAt(rs, LastIn(rs, KOutcome, n, -1, j))
    ensures var a, i := BuildAttemptRecord(rs[j], n, s), LastIn(rs, KStarted, n, -1, j);
            && a.node == n && a.attempt == Attempt(rs[j])
            && a.phases == if i < 0 then ZERO_PHASES else PhasesBetween(rs, n, i, j)
  {
    hide OffsetOf, LastIn, Wait, Within, WorkerOf, MetricsOf, ConsumedInputsOf, NonDecreasing, Names;
    var i := LastIn(rs, KStarted, n, -1, j);
    if i >= 0 {
      InOrder(rs, i, j);
      WithinIsWait(rs, KReady, n, i, j);
      WithinIsWait(rs, KAdmitted, n, i, j);
      WithinIsWait(rs, KOutcome, n, i, j);
      WaitFits(rs, KReady, n, i, j);
      WaitFits(rs, KAdmitted, n, i, j);
      WaitFits(rs, KOutcome, n, i, j);
    }
  }

  lemma InOrder(rs: seq<Json>, i: nat, j: nat)
    requires NonDecreasing(rs) && i < j < |rs|
    ensures OffsetOf(rs[i]) <= OffsetOf(rs[j])
  {
    hide OffsetOf;
  }

  /** Nothing about the node between its start and its outcome. */
  predicate Undisturbed(rs: seq<Json>, n: string, i: nat, j: nat) {
    && i < j < |rs| && Names(rs[i], KStarted, n) && Names(rs[j], KOutcome, n)
    && forall m, kind :: i < m < j && kind in {KStarted, KReady, KAdmitted, KOutcome} ==> !Names(rs[m], kind, n)
  }

  /** An undisturbed attempt has executed from its start to its outcome. */
  lemma UndisturbedExecutes(rs: seq<Json>, nodes: seq<string>, n: string, i: nat, j: nat)
    requires NonDecreasing(rs) && Undisturbed(rs, n, i, j)
    ensures Position(rs, j) < |AttemptsOf(rs, nodes)|
    ensures AttemptsOf(rs, nodes)[Position(rs, j)].phases == Phases(0, 0, 0, OffsetOf(rs[j]) - OffsetOf(rs[i]))
  {
    hide Names, AttemptsOf, NonDecreasing, OffsetOf, Position;
    AttemptHasPhases(rs, nodes, n, j);
    LastStartIs(rs, n, i, j);
    NothingBetween(rs, KReady, n, i, j);
    NothingBetween(rs, KAdmitted, n, i, j);
    NothingBetween(rs, KOutcome, n, i, j);
    InOrder(rs, i, j);
  }

  lemma NothingBetween(rs: seq<Json>, kind: Kind, n: string, i: nat, j: nat)
    requires Undisturbed(rs, n, i, j) && kind in {KStarted, KReady, KAdmitted, KOutcome}
    ensures LastIn(rs, kind, n, i, j) == -1 && Wait(rs, kind, n, i, j) == 0
  {
    hide Names, OffsetOf, LastIn;
    LastInIsLast(rs, kind, n, i, j);
  }

  lemma LastStartIs(rs: seq<Json>, n: string, i: nat, j: nat)
    requires Undisturbed(rs, n, i, j)
    ensures LastIn(rs, KStarted, n, -1, j) == i
  {
    hide Names, OffsetOf, LastIn;
    LastInIsLast(rs, KStarted, n, -1, j);
    NothingBetween(rs, KStarted, n, i, j);
    LastInFrom(rs, KStarted, n, i, j);
  }

  // ---- What a node executed ------------------------------------------------

  function ExecutedAt(rs: seq<Json>, n: string, j: nat): nat
    requires NonDecreasing(rs) && j < |rs|
  {
    var i := LastIn(rs, KStarted, n, -1, j);
    if i < 0 then 0 else PhasesBetween(rs, n, i, j).executing
  }

  /** Over the node's outcomes among the first `k` records. */
  function ExecutedUpTo(rs: seq<Json>, n: string, k: nat): nat
    requires NonDecreasing(rs) && k <= |rs|
  {
    if k == 0 then 0
    else ExecutedUpTo(rs, n, k - 1) + if Names(rs[k - 1], KOutcome, n) then ExecutedAt(rs, n, k - 1) else 0
  }

  /** **A node's executed time is that of its outcomes**, each from its own start. */
  lemma ExecutedIsItsOutcomes(rs: seq<Json>, nodes: seq<string>, n: string)
    requires NonDecreasing(rs)
    ensures ExecutedBy(AttemptsOf(rs, nodes), n) == ExecutedUpTo(rs, n, |rs|)
  {
    hide AttemptsOf, ScanAll, ExecutedBy, ExecutedUpTo, NonDecreasing;
    CoverageContributesNothing(rs, nodes, n);
    assert rs[..|rs|] == rs;
    ExecutedSoFar(rs, n, |rs|);
  }

  lemma {:induction false} ExecutedSoFar(rs: seq<Json>, n: string, k: nat)
    requires NonDecreasing(rs) && k <= |rs|
    ensures ExecutedBy(ScanAll(rs[..k]).attempts, n) == ExecutedUpTo(rs, n, k)
  {
    hide ScanStep, NonDecreasing, PhasesBetween, OffsetOf, BuildAttemptRecord, KindOf, NodeOf, ExecutedBy;
    if k == 0 {
      NothingExecuted(n);
    } else {
      ExecutedSoFar(rs, n, k - 1);
      assert rs[..k][..k - 1] == rs[..k - 1] && rs[..k][k - 1] == rs[k - 1];
      OneMoreExecuted(ScanAll(rs[..k - 1]), rs[k - 1], n);
      if Names(rs[k - 1], KOutcome, n) {
        RemembersLast(rs, n, k - 1);
        PhasesAre(rs, n, k - 1, ScanAll(rs[..k - 1]));
      }
    }
  }

  lemma NothingExecuted(n: string)
    ensures ExecutedBy([], n) == 0 && SCAN_START.attempts == []
  {}

  lemma OneMoreExecuted(s: Scan, rec: Json, n: string)
    ensures ExecutedBy(ScanStep(s, rec).attempts, n) ==
            ExecutedBy(s.attempts, n)
            + if Names(rec, KOutcome, n) then BuildAttemptRecord(rec, n, s).phases.executing else 0
  {
    hide OffsetOf, KindOf, NodeOf, PhasesOf, WorkerOf, MetricsOf, ConsumedInputsOf;
    if KindOf(rec) == KOutcome && NodeOf(rec).Some? {
      var a := BuildAttemptRecord(rec, NodeOf(rec).value, s);
      assert (s.attempts + [a])[..|s.attempts|] == s.attempts;
    }
  }
}
