/** What the figures of a run summary mean, and which nodes an artifact covers. */
module FoldSummary {
  import opened Text
  import opened Json
  import opened FoldAttempts
  import opened FoldSubmissions
  import opened Fold

  /** The elapsed time is the latest offset any record carries. */
  lemma {:induction false} ElapsedIsLatest(rs: seq<Json>)
    ensures forall r <- rs :: OffsetOf(r) <= MaxOffset(rs)
    ensures rs != [] ==> exists r <- rs :: OffsetOf(r) == MaxOffset(rs)
  {
    hide OffsetOf, MaxOffset;
    if rs != [] {
      var k := |rs| - 1;
      var before, last := rs[..k], rs[k];
      ElapsedIsLatest(before);
      OneMore(rs);
      assert rs == before + [last];
      assert last in rs && forall r <- before :: r in rs;
    }
  }

  lemma OneMore(rs: seq<Json>)
    requires rs != []
    ensures MaxOffset(rs) ==
            if |rs| == 1 then OffsetOf(rs[0]) else Max(MaxOffset(rs[..|rs| - 1]), OffsetOf(rs[|rs| - 1]))
  {
    hide OffsetOf;
  }

  function ResidencyOf(rec: Json): nat {
    if KindOf(rec) == KOutcome then UnwrapOr(GetU64(rec, "slot_residency"), 0) else 0
  }

  /** The peak is the largest residency any outcome reports, and 0 when none does. */
  lemma {:induction false} PeakIsLargest(rs: seq<Json>)
    ensures forall r <- rs :: ResidencyOf(r) <= PeakResidency(rs)
    ensures PeakResidency(rs) == 0 || exists r <- rs :: ResidencyOf(r) == PeakResidency(rs)
  {
    hide KindOf, GetU64;
    if rs != [] {
      var k := |rs| - 1;
      PeakIsLargest(rs[..k]);
      assert rs == rs[..k] + [rs[k]];
      assert rs[k] in rs && forall r <- rs[..k] :: r in rs;
    }
  }

  /** The flag an outcome record sets for its node, if it sets one. */
  predicate Flags(rec: Json, n: string, flag: bool) {
    KindOf(rec) == KOutcome && NodeOf(rec) == Some(n) && GetBool(rec, "retained") == Some(flag)
  }

  predicate LastFlagIs(rs: seq<Json>, n: string, flag: bool) {
    exists i :: 0 <= i < |rs| && Flags(rs[i], n, flag) && forall j :: i < j < |rs| ==> !Flags(rs[j], n, !flag)
  }

  lemma LastFlagStep(rs: seq<Json>, rec: Json, n: string, flag: bool)
    ensures LastFlagIs(rs + [rec], n, flag) <==>
            Flags(rec, n, flag) || (LastFlagIs(rs, n, flag) && !Flags(rec, n, !flag))
  {
    hide Flags;
    var all := rs + [rec];
    assert all[|rs|] == rec && forall i :: 0 <= i < |rs| ==> all[i] == rs[i];
    if LastFlagIs(rs, n, flag) && !Flags(rec, n, !flag) {
      var i :| 0 <= i < |rs| && Flags(rs[i], n, flag) && forall j :: i < j < |rs| ==> !Flags(rs[j], n, !flag);
      assert Flags(all[i], n, flag);
    }
    if LastFlagIs(all, n, flag) && !Flags(rec, n, flag) {
      var i :| 0 <= i < |all| && Flags(all[i], n, flag) && forall j :: i < j < |all| ==> !Flags(all[j], n, !flag);
      assert i < |rs| && Flags(rs[i], n, flag);
      assert forall j :: i < j < |rs| ==> rs[j] == all[j];
      assert !Flags(all[|rs|], n, !flag);
    }
  }

  lemma {:induction false} RetainedIsLastFlag(rs: seq<Json>, n: string, flag: bool)
    ensures n in Retained(rs) && Retained(rs)[n] == flag <==> LastFlagIs(rs, n, flag)
  {
    hide KindOf, NodeOf, GetBool, LastFlagIs;
    if rs == [] {
      NoFlags(n, flag);
    } else {
      var k := |rs| - 1;
      RetainedIsLastFlag(rs[..k], n, flag);
      LastFlagStep(rs[..k], rs[k], n, flag);
      assert rs == rs[..k] + [rs[k]];
    }
  }

  lemma NoFlags(n: string, flag: bool)
    ensures !LastFlagIs([], n, flag)
  {}

  lemma {:induction false} NamesWithFlag(m: map<string, bool>, names: seq<string>, n: string)
    ensures n in RetainedNames(m, names) <==> n in names && n in m && m[n]
  {
    if names != [] {
      var k := |names| - 1;
      NamesWithFlag(m, names[..k], n);
      assert names == names[..k] + [names[k]];
    }
  }

  /** A node's value counts as retained exactly when the last outcome that says so says yes. */
  lemma RetainedValuesMeanLastFlag(rs: seq<Json>, attempts: seq<AttemptRecord>, n: string)
    ensures n in SummaryOf(rs, attempts).retainedValues <==> LastFlagIs(rs, n, true)
  {
    hide Retained, LastFlagIs, Sorted, RetainedNames, TimelineOf;
    RetainedIsLastFlag(rs, n, true);
    NamesWithFlag(Retained(rs), Sorted(Retained(rs).Keys), n);
  }

  /** What a zombie pins, and for how long after its attempt's own outcome. */
  function PinsOf(rec: Json): nat {
    if KindOf(rec) == KZombie then UnwrapOr(GetU64(rec, "pinned_capacity"), 0) else 0
  }

  function PinnedFor(rec: Json, offsets: map<Key, nat>): nat {
    if KindOf(rec) == KZombie && AttemptKey(rec).Some? && AttemptKey(rec).value in offsets then
      SaturatingSub(OffsetOf(rec), offsets[AttemptKey(rec).value])
    else 0
  }

  function SumOf(xs: seq<nat>): nat { if xs == [] then 0 else SumOf(xs[..|xs| - 1]) + xs[|xs| - 1] }

  function Capped(n: nat): nat { if n < U64_LIMIT then n else U64_LIMIT - 1 }

  /** The abandoned figures are the sums over the zombies, stopping at the largest u64. */
  lemma {:induction false} PinnedIsCappedSum(rs: seq<Json>, offsets: map<Key, nat>)
    ensures PinnedBy(rs, offsets).capacity == Capped(SumOf(seq(|rs|, i requires 0 <= i < |rs| => PinsOf(rs[i]))))
    ensures PinnedBy(rs, offsets).time == Capped(SumOf(seq(|rs|,
              i requires 0 <= i < |rs| => PinnedFor(rs[i], offsets))))
  {
    hide KindOf, GetU64, OffsetOf, AttemptKey;
    var pins := seq(|rs|, i requires 0 <= i < |rs| => PinsOf(rs[i]));
    var times := seq(|rs|, i requires 0 <= i < |rs| => PinnedFor(rs[i], offsets));
    if rs == [] {
      assert pins == [] && times == [];
    } else {
      var k := |rs| - 1;
      PinnedIsCappedSum(rs[..k], offsets);
      assert pins[..k] == seq(|rs[..k]|, i requires 0 <= i < |rs[..k]| => PinsOf(rs[..k][i]));
      assert times[..k] == seq(|rs[..k]|, i requires 0 <= i < |rs[..k]| => PinnedFor(rs[..k][i], offsets));
    }
  }

  predicate ReportsOutcome(rec: Json, n: string, attempt: nat) {
    KindOf(rec) == KOutcome && GetStr(rec, "node") == Some(n) && GetU64(rec, "attempt") == Some(attempt)
  }

  /** The last outcome reported for the attempt among the first `j` records, or -1. */
  function LastReport(rs: seq<Json>, n: string, attempt: nat, j: nat): (k: int)
    requires j <= |rs|
    ensures -1 <= k < j
    ensures k >= 0 ==> ReportsOutcome(rs[k], n, attempt)
  {
    if j == 0 then -1
    else if ReportsOutcome(rs[j - 1], n, attempt) then j - 1
    else LastReport(rs, n, attempt, j - 1)
  }

  lemma KeyIs(rec: Json, n: string, attempt: nat)
    ensures AttemptKey(rec) == Some((n, attempt)) <==>
            GetStr(rec, "node") == Some(n) && GetU64(rec, "attempt") == Some(attempt)
  {}

  lemma {:induction false} OffsetsAreLast(rs: seq<Json>, n: string, attempt: nat, j: nat)
    requires j <= |rs|
    ensures var k := LastReport(rs, n, attempt, j);
            && ((n, attempt) in OutcomeOffsets(rs[..j]) <==> k >= 0)
            && (k >= 0 ==> OutcomeOffsets(rs[..j])[(n, attempt)] == OffsetOf(rs[k]))
  {
    hide KindOf, AttemptKey, OffsetOf, GetStr, GetU64;
    if j > 0 {
      OffsetsAreLast(rs, n, attempt, j - 1);
      KeyIs(rs[j - 1], n, attempt);
      assert rs[..j][..j - 1] == rs[..j - 1] && rs[..j][j - 1] == rs[j - 1];
    }
  }

  /** For how long after the last outcome reported for its attempt a zombie was still there. */
  function PinnedSince(rs: seq<Json>, rec: Json): nat {
    match (GetStr(rec, "node"), GetU64(rec, "attempt"))
    case (Some(n), Some(attempt)) =>
      var k := LastReport(rs, n, attempt, |rs|);
      if KindOf(rec) != KZombie || k < 0 then 0 else SaturatingSub(OffsetOf(rec), OffsetOf(rs[k]))
    case _ => 0
  }

  lemma PinnedForIs(rs: seq<Json>, rec: Json)
    ensures PinnedFor(rec, OutcomeOffsets(rs)) == PinnedSince(rs, rec)
  {
    hide KindOf, OffsetOf, OutcomeOffsets, LastReport;
    assert rs[..|rs|] == rs;
    match (GetStr(rec, "node"), GetU64(rec, "attempt"))
    case (Some(n), Some(attempt)) =>
      KeyIs(rec, n, attempt);
      OffsetsAreLast(rs, n, attempt, |rs|);
    case _ =>
  }

  /** **What the abandoned figures sum**: capacity over all zombies, and time over those whose
      attempt has an outcome, from the last one. */
  lemma PinnedFigures(rs: seq<Json>, attempts: seq<AttemptRecord>)
    ensures SummaryOf(rs, attempts).abandonedPinnedCapacity ==
            Capped(SumOf(seq(|rs|, i requires 0 <= i < |rs| => PinsOf(rs[i]))))
    ensures SummaryOf(rs, attempts).abandonedPinnedTimeNs ==
            Capped(SumOf(seq(|rs|, i requires 0 <= i < |rs| => PinnedSince(rs, rs[i]))))
  {
    hide TimelineOf, Retained, RetainedNames, OutcomeOffsets, PinnedBy, SumOf, PinnedFor, PinnedSince, PinsOf;
    PinnedIsCappedSum(rs, OutcomeOffsets(rs));
    forall i | 0 <= i < |rs| ensures PinnedFor(rs[i], OutcomeOffsets(rs)) == PinnedSince(rs, rs[i]) {
      PinnedForIs(rs, rs[i]);
    }
    assert seq(|rs|, i requires 0 <= i < |rs| => PinnedFor(rs[i], OutcomeOffsets(rs))) ==
           seq(|rs|, i requires 0 <= i < |rs| => PinnedSince(rs, rs[i]));
  }

  // ---- Coverage ------------------------------------------------------------

  lemma {:induction false} NeverRanCovers(s: Scan, names: seq<string>, n: string)
    requires forall m <- names :: m in s.terminal
    ensures Covers(NeverRanRows(s, names), n) <==> n in names && n !in s.ran
    ensures forall a <- NeverRanRows(s, names) :: a.node in names && a == SynthesizeNeverRan(a.node, s.terminal[a.node])
  {
    hide SynthesizeNeverRan;
    if names != [] {
      var k := |names| - 1;
      NeverRanCovers(s, names[..k], n);
      assert names == names[..k] + [names[k]];
      SynthesizedNode(names[k], s.terminal[names[k]]);
      CoversAppend(NeverRanRows(s, names[..k]), SynthesizeNeverRan(names[k], s.terminal[names[k]]), n);
    }
  }

  lemma SynthesizedNode(n: string, rec: Json)
    ensures SynthesizeNeverRan(n, rec).node == n
  {}

  lemma CoversAppend(attempts: seq<AttemptRecord>, a: AttemptRecord, n: string)
    ensures Covers(attempts + [a], n) <==> Covers(attempts, n) || a.node == n
  {
    var all := attempts + [a];
    assert a in all && forall b <- attempts :: b in all;
  }

  lemma CoversConcat(a: seq<AttemptRecord>, b: seq<AttemptRecord>, n: string)
    ensures Covers(a + b, n) <==> Covers(a, n) || Covers(b, n)
  {
    assert forall x :: x in a + b <==> x in a || x in b;
  }

  lemma {:induction false} RanIsCovered(rs: seq<Json>, n: string)
    ensures Covers(ScanAll(rs).attempts, n) <==> n in ScanAll(rs).ran
  {
    hide KindOf, NodeOf, OffsetOf, BuildAttemptRecord, Covers;
    if rs == [] {
      NothingCovered(n);
    } else {
      var k := |rs| - 1;
      var s := ScanAll(rs[..k]);
      RanIsCovered(rs[..k], n);
      if NodeOf(rs[k]).Some? {
        BuiltFor(rs[k], NodeOf(rs[k]).value, s);
        CoversAppend(s.attempts, BuildAttemptRecord(rs[k], NodeOf(rs[k]).value, s), n);
      }
    }
  }

  lemma NothingCovered(n: string)
    ensures !Covers([], n)
  {}

  lemma {:induction false} ScanSees(rs: seq<Json>, n: string)
    ensures n in ScanAll(rs).ran <==> exists r <- rs :: Names(r, KOutcome, n)
    ensures n in ScanAll(rs).terminal <==> exists r <- rs :: Names(r, KTerminal, n)
  {
    hide ScanStep, Names;
    if rs != [] {
      var k := |rs| - 1;
      ScanSees(rs[..k], n);
      StepSees(ScanAll(rs[..k]), rs[k], n);
      assert rs == rs[..k] + [rs[k]];
      assert rs[k] in rs && forall r <- rs[..k] :: r in rs;
    }
  }

  lemma StepSees(s: Scan, rec: Json, n: string)
    ensures n in ScanStep(s, rec).ran <==> n in s.ran || Names(rec, KOutcome, n)
    ensures n in ScanStep(s, rec).terminal <==> n in s.terminal || Names(rec, KTerminal, n)
  {
    hide KindOf, NodeOf, OffsetOf, BuildAttemptRecord, ScanStep;
    StepRecords(s, rec);
  }

  lemma StepRecords(s: Scan, rec: Json)
    ensures ScanStep(s, rec).ran ==
            s.ran + if KindOf(rec) == KOutcome && NodeOf(rec).Some? then {NodeOf(rec).value} else {}
    ensures ScanStep(s, rec).terminal.Keys ==
            s.terminal.Keys + if KindOf(rec) == KTerminal && NodeOf(rec).Some? then {NodeOf(rec).value} else {}
  {
    hide KindOf, NodeOf, OffsetOf, BuildAttemptRecord;
  }

  lemma BuiltFor(rec: Json, node: string, s: Scan)
    ensures BuildAttemptRecord(rec, node, s).node == node
  {}

  lemma {:induction false} RosterAddsOnlyItsNodes(attempts: seq<AttemptRecord>, nodes: seq<string>, n: string)
    ensures Covers(WithRoster(attempts, nodes), n) <==> Covers(attempts, n) || n in nodes
  {
    hide RosterRow;
    if nodes != [] {
      var k := |nodes| - 1;
      RosterAddsOnlyItsNodes(attempts, nodes[..k], n);
      assert nodes == nodes[..k] + [nodes[k]];
      RosterNode(nodes[k]);
      CoversAppend(WithRoster(attempts, nodes[..k]), RosterRow(nodes[k]), n);
    }
  }

  lemma RosterNode(n: string)
    ensures RosterRow(n).node == n
  {}

  /** **Coverage is exact**: the artifact has a row for a node exactly when an outcome or a
      terminal record names it or the roster lists it. No node is lost and none is invented. */
  lemma CoverageIsExact(rs: seq<Json>, nodes: seq<string>, n: string)
    ensures Covers(AttemptsOf(rs, nodes), n) <==>
            n in nodes || exists r <- rs :: Names(r, KOutcome, n) || Names(r, KTerminal, n)
  {
    hide Covers, ScanAll, WithRoster, NeverRanRows, Names, Sorted;
    var s := ScanAll(rs);
    RanIsCovered(rs, n);
    ScanSees(rs, n);
    NeverRanCovers(s, Sorted(s.terminal.Keys), n);
    CoversConcat(s.attempts, CoverageRows(s), n);
    RosterAddsOnlyItsNodes(s.attempts + CoverageRows(s), nodes, n);
  }
}
