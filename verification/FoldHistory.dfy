/** What a crash and what submissions can and cannot change in a folded artifact. */
module FoldHistory {
  import opened Text
  import opened Json
  import opened CriticalPath
  import opened EventStream
  import opened ReadRecords
  import opened FoldAttempts
  import opened FoldSubmissions
  import opened Fold

  // ---- A crash never rewrites history --------------------------------------

  lemma FirstOfPrefix(rs: seq<Json>, k: nat, kind: Kind)
    requires k <= |rs| && FirstOf(rs[..k], kind).Some?
    ensures FirstOf(rs, kind) == FirstOf(rs[..k], kind)
  {
    hide KindOf;
    if KindOf(rs[0]) != kind {
      assert rs[..k][1..] == rs[1..][..k - 1];
      FirstOfPrefix(rs[1..], k - 1, kind);
    }
  }

  lemma {:induction false} OutputsGrow(rs: seq<Json>, k: nat)
    requires k <= |rs|
    ensures OutputsOf(rs[..k]) <= OutputsOf(rs)
  {
    hide KindOf, OutputOf;
    if k < |rs| {
      OutputsGrow(rs[..|rs| - 1], k);
      assert rs[..|rs| - 1][..k] == rs[..k];
    } else {
      assert rs[..k] == rs;
    }
  }

  /** Whether the fold of these records is a run that got past assembly and bootstrap. */
  predicate Executed(rs: seq<Json>) {
    !PreExecution(OverallOutcome(FirstOf(rs, KRunFinished)))
  }

  lemma PrefixExecuted(rs: seq<Json>, k: nat)
    requires k <= |rs| && Executed(rs)
    ensures Executed(rs[..k])
  {
    if FirstOf(rs[..k], KRunFinished).Some? { FirstOfPrefix(rs, k, KRunFinished); }
  }

  /** What the fold of a record prefix shares with the fold of the whole stream. */
  predicate SharesHistory(part: RunArtifact, whole: RunArtifact, outcomes: nat) {
    && part.header == whole.header
    && outcomes <= |part.attempts| && outcomes <= |whole.attempts|
    && part.attempts[..outcomes] == whole.attempts[..outcomes]
    && (forall i :: outcomes <= i < |part.attempts| ==> part.attempts[i].phases == ZERO_PHASES)
    && part.outputs <= whole.outputs
  }

  /** **A crash never rewrites history.** The fold of any record prefix that still has its
      `run-started` agrees with the fold of the full run on the header, on every
      outcome-derived attempt record field for field, and on every produced output it
      holds; it is flagged interrupted exactly when `run-finished` was lost. */
  lemma CrashKeepsHistory(rs: seq<Json>, k: nat, discarded: bool, nodes: seq<string>)
    requires k <= |rs| && FirstOf(rs[..k], KRunStarted).Some? && Executed(rs)
    ensures var part, whole := FoldRecords(rs[..k], discarded, nodes), FoldRecords(rs, false, nodes);
            && part.Ok? && whole.Ok?
            && SharesHistory(part.value, whole.value, OutcomeCount(rs[..k]))
            && (part.value.interrupted <==> FirstOf(rs[..k], KRunFinished).None?)
            && part.value.trailingPartialDiscarded == discarded
  {
    hide KindOf, AttemptsOf, SummaryOf, SubmissionsOf, OutputsOf, ScanAll, FirstOf;
    FirstOfPrefix(rs, k, KRunStarted);
    PrefixExecuted(rs, k);
    OutputsGrow(rs, k);
    AttemptsGrow(rs, k);
    AttemptsStartWithOutcomes(rs, nodes);
    AttemptsStartWithOutcomes(rs[..k], nodes);
    PrefixesAgree(ScanAll(rs[..k]).attempts, ScanAll(rs).attempts, AttemptsOf(rs, nodes));
  }

  lemma PrefixesAgree<T>(a: seq<T>, b: seq<T>, c: seq<T>)
    requires a <= b <= c
    ensures c[..|a|] == a
  {}

  /** The same on bytes: cut a writer's accepted bytes anywhere after `run-started` is
      wholly present, and folding the cut keeps the history of folding everything. */
  lemma FoldOfACutKeepsHistory(runId: string, calls: seq<Call>, n: nat, nodes: seq<string>)
    requires var vs := AcceptedRecords(runId, calls);
             && n <= |Joined(Run(runId, calls).lines)|
             && FirstOf(vs[..Kept(vs, n)], KRunStarted).Some?
             && Executed(vs)
    ensures var bytes := Joined(Run(runId, calls).lines);
            var vs := AcceptedRecords(runId, calls);
            var part, whole := FoldStream(bytes[..n], nodes), FoldStream(bytes, nodes);
            && part.Ok? && whole.Ok?
            && SharesHistory(part.value, whole.value, OutcomeCount(vs[..Kept(vs, n)]))
            && (part.value.trailingPartialDiscarded <==> CutsInside(vs, n))
  {
    hide Run, Joined, FoldRecords, Read, SharesHistory, Executed, FirstOf, ScanAll, Numbered;
    var bytes := Joined(Run(runId, calls).lines);
    var vs := AcceptedRecords(runId, calls);
    WriterThenCutThenRead(runId, calls, n);
    ReadWhole(runId, calls);
    KeptIsBounded(vs, n, Kept(vs, n));
    CrashKeepsHistory(vs, Kept(vs, n), CutsInside(vs, n), nodes);
  }

  /** Uncut, the accepted bytes read back as all the accepted records. */
  lemma ReadWhole(runId: string, calls: seq<Call>)
    ensures Read(Joined(Run(runId, calls).lines)) == Ok(ReadStream(AcceptedRecords(runId, calls), false))
  {
    hide Run, Read, Numbered, Split, ReadPieces;
    var vs := AcceptedRecords(runId, calls);
    var bytes := Joined(Run(runId, calls).lines);
    RunIsGapless(runId, calls);
    JoinedLines(vs);
    WriterThenCutThenRead(runId, calls, |bytes|);
    assert bytes[..|bytes|] == bytes;
    EverythingKept(vs);
    assert vs[..|vs|] == vs;
  }

  lemma {:induction false} EndsBeforeStreamEnds(vs: seq<Json>, i: nat)
    requires i < |vs|
    ensures TextEnd(vs, i) < |StreamOf(vs)|
  {
    hide LineOf;
    if i == 0 {
      StartsAtZero(vs);
      assert |LineOf(vs[0])| == |Canonical.ValueText(vs[0])| + 1 by { LineLength(vs[0]); }
    } else {
      Shifted(vs, i);
      EndsBeforeStreamEnds(vs[1..], i - 1);
    }
  }

  lemma LineLength(v: Json)
    ensures |LineOf(v)| == |Canonical.ValueText(v)| + 1
  {}

  lemma EverythingKept(vs: seq<Json>)
    ensures Kept(vs, |StreamOf(vs)|) == |vs| && !CutsInside(vs, |StreamOf(vs)|)
  {
    hide StreamOf, TextEnd, StartOf, Kept, WhollyPresent;
    forall i | 0 <= i < |vs| ensures TextEnd(vs, i) < |StreamOf(vs)| { EndsBeforeStreamEnds(vs, i); }
    var k := Kept(vs, |StreamOf(vs)|);
    KeptIsBounded(vs, |StreamOf(vs)|, k);
    NoneMissing(vs, |StreamOf(vs)|, k);
  }

  lemma NoneMissing(vs: seq<Json>, n: nat, k: nat)
    requires WhollyPresent(vs, n, k)
    requires k < |vs| ==> TextEnd(vs, k) <= n
    ensures k == |vs|
  {
    hide TextEnd;
  }

  // ---- Submissions are additive --------------------------------------------

  /** The stream with every `attempt-submitted` record deleted. */
  function Without(rs: seq<Json>): seq<Json> {
    if rs == [] then []
    else Without(rs[..|rs| - 1]) + if KindOf(rs[|rs| - 1]) == KSubmitted then [] else [rs[|rs| - 1]]
  }

  lemma WithoutStep(rs: seq<Json>)
    requires rs != []
    ensures var before, rec := rs[..|rs| - 1], rs[|rs| - 1];
            && (KindOf(rec) == KSubmitted ==> Without(rs) == Without(before))
            && (KindOf(rec) != KSubmitted ==>
                  Without(rs) == Without(before) + [rec] && Without(rs)[..|Without(rs)| - 1] == Without(before))
  {
    hide KindOf;
  }

  lemma {:induction false} ScanIgnoresSubmissions(rs: seq<Json>)
    ensures ScanAll(Without(rs)) == ScanAll(rs)
  {
    hide BuildAttemptRecord, OffsetOf, KindOf, NodeOf, Without;
    if rs == [] {
      NothingToDelete();
    } else {
      WithoutStep(rs);
      ScanIgnoresSubmissions(rs[..|rs| - 1]);
    }
  }

  lemma {:induction false} BoundsIgnoreSubmissions(rs: seq<Json>)
    ensures BoundsOf(Without(rs)) == BoundsOf(rs)
  {
    hide OffsetOf, KindOf, NodeOf, Without;
    if rs == [] {
      NothingToDelete();
    } else {
      WithoutStep(rs);
      BoundsIgnoreSubmissions(rs[..|rs| - 1]);
    }
  }

  lemma {:induction false} OutputsIgnoreSubmissions(rs: seq<Json>)
    ensures OutputsOf(Without(rs)) == OutputsOf(rs)
  {
    hide OutputOf, KindOf, Without;
    if rs == [] {
      NothingToDelete();
    } else {
      WithoutStep(rs);
      OutputsIgnoreSubmissions(rs[..|rs| - 1]);
    }
  }

  lemma {:induction false} SummaryIgnoresSubmissions(rs: seq<Json>)
    ensures PeakResidency(Without(rs)) == PeakResidency(rs)
    ensures Retained(Without(rs)) == Retained(rs)
    ensures OutcomeOffsets(Without(rs)) == OutcomeOffsets(rs)
  {
    hide OffsetOf, KindOf, NodeOf, Without, GetU64, GetBool, AttemptKey;
    if rs == [] {
      NothingToDelete();
    } else {
      WithoutStep(rs);
      SummaryIgnoresSubmissions(rs[..|rs| - 1]);
    }
  }

  lemma {:induction false} PinnedIgnoresSubmissions(rs: seq<Json>, offsets: map<Key, nat>)
    ensures PinnedBy(Without(rs), offsets) == PinnedBy(rs, offsets)
  {
    hide OffsetOf, KindOf, Without, GetU64, AttemptKey;
    if rs == [] {
      NothingToDelete();
    } else {
      WithoutStep(rs);
      PinnedIgnoresSubmissions(rs[..|rs| - 1], offsets);
    }
  }

  lemma NothingToDelete()
    ensures Without([]) == []
  {}

  lemma FirstOfAppend(rs: seq<Json>, rec: Json, kind: Kind)
    ensures FirstOf(rs + [rec], kind) ==
            if FirstOf(rs, kind).Some? then FirstOf(rs, kind) else if KindOf(rec) == kind then Some(rec) else None
  {
    hide KindOf;
    if rs == [] {
      assert rs + [rec] == [rec] && [rec][1..] == [];
    } else {
      assert (rs + [rec])[1..] == rs[1..] + [rec];
      FirstOfAppend(rs[1..], rec, kind);
    }
  }

  lemma {:induction false} FirstIgnoresSubmissions(rs: seq<Json>, kind: Kind)
    requires kind != KSubmitted
    ensures FirstOf(Without(rs), kind) == FirstOf(rs, kind)
  {
    hide KindOf, Without, FirstOf;
    if rs == [] {
      NothingToDelete();
    } else {
      var before, rec := rs[..|rs| - 1], rs[|rs| - 1];
      WithoutStep(rs);
      FirstIgnoresSubmissions(before, kind);
      FirstOfAppend(before, rec, kind);
      FirstOfAppend(Without(before), rec, kind);
      assert rs == before + [rec];
    }
  }

  /** The latest instant is not a submission's alone: some other record is as late. */
  predicate SubmissionsAreNotLast(rs: seq<Json>) {
    forall r <- rs :: KindOf(r) == KSubmitted ==> OffsetOf(r) <= MaxOffset(Without(rs))
  }

  lemma {:induction false} MaxOffsetSplits(rs: seq<Json>)
    ensures MaxOffset(Without(rs)) <= MaxOffset(rs)
    ensures forall r <- rs :: OffsetOf(r) <= MaxOffset(rs)
    ensures MaxOffset(rs) == MaxOffset(Without(rs)) ||
            exists r <- rs :: KindOf(r) == KSubmitted && OffsetOf(r) == MaxOffset(rs)
  {
    hide OffsetOf, KindOf, Without;
    if rs == [] {
      NothingToDelete();
    } else {
      var before, rec := rs[..|rs| - 1], rs[|rs| - 1];
      WithoutStep(rs);
      MaxOffsetSplits(before);
      assert rs == before + [rec];
      assert rec in rs && forall r <- before :: r in rs;
    }
  }

  lemma ElapsedUnchanged(rs: seq<Json>)
    ensures MaxOffset(Without(rs)) == MaxOffset(rs) <==> SubmissionsAreNotLast(rs)
  {
    hide OffsetOf, KindOf, Without, MaxOffset;
    MaxOffsetSplits(rs);
  }

  /** Deleting submissions changes no attempt, no output and no critical path: of the
      summary, only the total elapsed time can move. */
  lemma SubmissionsAreAdditive(rs: seq<Json>, nodes: seq<string>)
    ensures AttemptsOf(Without(rs), nodes) == AttemptsOf(rs, nodes)
    ensures OutputsOf(Without(rs)) == OutputsOf(rs)
    ensures var attempts := AttemptsOf(rs, nodes);
            SummaryOf(Without(rs), attempts) == SummaryOf(rs, attempts).(totalElapsedNs := MaxOffset(Without(rs)))
  {
    hide ScanAll, Without, CriticalPathOf, PeakResidency, Retained, OutcomeOffsets, PinnedBy, BoundsOf, OutputsOf,
      Contributions, WithRoster, CoverageRows, RetainedNames;
    ScanIgnoresSubmissions(rs);
    BoundsIgnoreSubmissions(rs);
    OutputsIgnoreSubmissions(rs);
    SummaryIgnoresSubmissions(rs);
    PinnedIgnoresSubmissions(rs, OutcomeOffsets(rs));
  }

  /** The published document, when the fold yields one. */
  function PublishedBy(rs: seq<Json>, discarded: bool, nodes: seq<string>): Option<Json> {
    match FoldRecords(rs, discarded, nodes)
    case Ok(a) => Some(DocumentOf(a))
    case Err(_) => None
  }

  lemma DocumentsDifferOnlyInElapsed(a: RunArtifact, b: RunArtifact)
    requires a.summary.Some? && b.summary.Some?
    requires a == b.(submissions := a.submissions, summary := a.summary)
    requires a.summary.value == b.summary.value.(totalElapsedNs := a.summary.value.totalElapsedNs)
    ensures DocumentOf(a) == DocumentOf(b) <==> a.summary.value.totalElapsedNs == b.summary.value.totalElapsedNs
  {
    hide AttemptValue, OutputValue, StrArray, HeaderFields;
    assert Get(DocumentOf(a), "summary") == Some(SummaryValue(a.summary.value));
    assert Get(DocumentOf(b), "summary") == Some(SummaryValue(b.summary.value));
    assert Get(SummaryValue(a.summary.value), "total_elapsed_ns") == Some(JNum(a.summary.value.totalElapsedNs));
    assert Get(SummaryValue(b.summary.value), "total_elapsed_ns") == Some(JNum(b.summary.value.totalElapsedNs));
  }

  /** The fold's documentation promises that submissions leave the published document
      byte-identical. That holds exactly when the run failed before execution, or no
      submission is later than every other record; otherwise the total elapsed time moves. */
  lemma DocumentUnchangedExactlyWhen(rs: seq<Json>, discarded: bool, nodes: seq<string>)
    requires FirstOf(rs, KRunStarted).Some?
    ensures PublishedBy(Without(rs), discarded, nodes) == PublishedBy(rs, discarded, nodes)
            <==> !Executed(rs) || SubmissionsAreNotLast(rs)
  {
    hide FirstOf, AttemptsOf, SummaryOf, OutputsOf, SubmissionsOf, DocumentOf, Without, MaxOffset,
        SubmissionsAreNotLast,
      HeaderOf, ErrorsOf, OverallOutcome;
    FirstIgnoresSubmissions(rs, KRunStarted);
    FirstIgnoresSubmissions(rs, KRunFinished);
    ElapsedUnchanged(rs);
    if Executed(rs) {
      SubmissionsAreAdditive(rs, nodes);
      SummaryElapsed(rs, AttemptsOf(rs, nodes));
      DocumentsDifferOnlyInElapsed(FoldRecords(Without(rs), discarded, nodes).value,
          FoldRecords(rs, discarded, nodes).value);
    }
  }

  lemma SummaryElapsed(rs: seq<Json>, attempts: seq<AttemptRecord>)
    ensures SummaryOf(rs, attempts).totalElapsedNs == MaxOffset(rs)
  {}

  function Rec(kind: string, offset: nat): Json {
    JObj(map["kind" := JStr(kind), "offset_ns" := JNum(offset)])
  }

  lemma StartThenSubmission(a: Json, b: Json)
    requires KindOf(a) == KRunStarted && KindOf(b) == KSubmitted
    ensures Without([a, b]) == [a] && MaxOffset([a]) == OffsetOf(a)
    ensures FirstOf([a, b], KRunStarted) == Some(a) && FirstOf([a, b], KRunFinished) == None
  {
    hide KindOf, OffsetOf, Without, FirstOf, MaxOffset;
    assert [a, b] == [a] + [b] && [a] == [] + [a];
    assert [a, b][..1] == [a] && [a][..0] == [];
    NothingToDelete();
    WithoutStep([a]);
    WithoutStep([a, b]);
    FirstOfTwo(a, b, KRunStarted);
    FirstOfTwo(a, b, KRunFinished);
    MaxOfOne(a);
  }

  lemma FirstOfTwo(a: Json, b: Json, kind: Kind)
    ensures FirstOf([a, b], kind) ==
            if KindOf(a) == kind then Some(a) else if KindOf(b) == kind then Some(b) else None
  {
    hide KindOf;
    assert [a, b][1..] == [b] && [b][1..] == [];
    assert FirstOf([b], kind) == if KindOf(b) == kind then Some(b) else FirstOf([], kind);
  }

  lemma MaxOfOne(a: Json)
    ensures MaxOffset([a]) == OffsetOf(a)
  {
    hide OffsetOf;
    assert [a][..0] == [];
  }

  lemma LateSubmissionChangesDocument(a: Json, b: Json)
    requires KindOf(a) == KRunStarted && KindOf(b) == KSubmitted && OffsetOf(a) < OffsetOf(b)
    ensures PublishedBy(Without([a, b]), false, []) != PublishedBy([a, b], false, [])
  {
    hide PublishedBy, KindOf, OffsetOf, Without, MaxOffset, FirstOf;
    StartThenSubmission(a, b);
    assert b in [a, b];
    assert !SubmissionsAreNotLast([a, b]);
    DocumentUnchangedExactlyWhen([a, b], false, []);
  }

  /** A concrete stream whose document a trailing submission changes. */
  lemma TrailingSubmissionChangesDocument()
    ensures var rs := [Rec("run-started", 0), Rec("attempt-submitted", 5)];
            PublishedBy(Without(rs), false, []) != PublishedBy(rs, false, [])
  {
    hide Rec, PublishedBy, Without, KindOf, OffsetOf;
    RecReads("run-started", 0);
    RecReads("attempt-submitted", 5);
    LateSubmissionChangesDocument(Rec("run-started", 0), Rec("attempt-submitted", 5));
  }

  lemma RecReads(kind: string, offset: nat)
    requires offset < U64_LIMIT
    ensures KindOf(Rec(kind, offset)) == KindNamed(kind) && OffsetOf(Rec(kind, offset)) == offset
  {}
}
