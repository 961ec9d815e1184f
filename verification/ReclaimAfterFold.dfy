/** From the stream to the reaper: a blob a run recorded is one a reclaim keeps, once that
    run is folded and its artifact written canonically. */
module ReclaimAfterFold {
  import opened Text
  import opened Json
  import opened Canonical
  import opened JsonParser
  import CanonicalProofs
  import opened EventStream
  import opened FoldAttempts
  import opened Fold
  import opened FoldPayloads
  import opened BlobRef
  import Gc = BlobGc

  lemma {:induction false} OutputIsKept(rs: seq<Json>, i: nat)
    requires i < |rs| && KindOf(rs[i]) == KOutput
    ensures OutputOf(rs[i]) in OutputsOf(rs)
  {
    hide KindOf, OutputOf;
    if i < |rs| - 1 {
      assert rs[..|rs| - 1][i] == rs[i];
      OutputIsKept(rs[..|rs| - 1], i);
    }
  }

  lemma {:induction false} OutcomeIsKept(rs: seq<Json>, i: nat, node: string)
    requires i < |rs| && KindOf(rs[i]) == KOutcome && NodeOf(rs[i]) == Some(node)
    ensures BuildAttemptRecord(rs[i], node, ScanAll(rs[..i])) in ScanAll(rs).attempts
  {
    hide KindOf, NodeOf, BuildAttemptRecord, OffsetOf;
    if i < |rs| - 1 {
      assert rs[..|rs| - 1][i] == rs[i] && rs[..|rs| - 1][..i] == rs[..i];
      OutcomeIsKept(rs[..|rs| - 1], i, node);
    }
  }

  lemma FieldLeaf(fields: map<string, Json>, k: string, text: string)
    requires k in fields && Gc.StringLeaf(fields[k], text)
    ensures Gc.StringLeaf(JObj(fields), text)
  {}

  lemma ItemLeaf(items: seq<Json>, item: Json, text: string)
    requires item in items && Gc.StringLeaf(item, text)
    ensures Gc.StringLeaf(JArr(items), text)
  {}

  lemma UriLeaf(o: ProducedOutput)
    ensures Gc.StringLeaf(OutputValue(o), o.uri)
  {
    FieldLeaf(OutputValue(o).fields, "uri", o.uri);
  }

  lemma DurableReferenceLeaf(t: AttemptRecord, text: string)
    requires t.durableReference.Some? && Gc.StringLeaf(t.durableReference.value, text)
    ensures Gc.StringLeaf(AttemptValue(t), text)
  {
    hide Gc.StringLeaf, PhasesValue;
    FieldLeaf(AttemptValue(t).fields, "durable_reference", text);
  }

  lemma OutputInDocument(a: RunArtifact, o: ProducedOutput, text: string)
    requires o in a.outputs && Gc.StringLeaf(OutputValue(o), text)
    ensures Gc.StringLeaf(DocumentOf(a), text)
  {
    hide Gc.StringLeaf, OutputValue, AttemptValue, SummaryValue, StrArray, HeaderFields;
    var items := seq(|a.outputs|, i requires 0 <= i < |a.outputs| => OutputValue(a.outputs[i]));
    var i :| 0 <= i < |a.outputs| && a.outputs[i] == o;
    assert items[i] == OutputValue(o);
    ItemLeaf(items, OutputValue(o), text);
    assert DocumentOf(a).fields["outputs"].items == items;
    FieldLeaf(DocumentOf(a).fields, "outputs", text);
  }

  lemma AttemptInDocument(a: RunArtifact, t: AttemptRecord, text: string)
    requires t in a.attempts && Gc.StringLeaf(AttemptValue(t), text)
    ensures Gc.StringLeaf(DocumentOf(a), text)
  {
    hide Gc.StringLeaf, OutputValue, AttemptValue, SummaryValue, StrArray, HeaderFields;
    var items := seq(|a.attempts|, i requires 0 <= i < |a.attempts| => AttemptValue(a.attempts[i]));
    var i :| 0 <= i < |a.attempts| && a.attempts[i] == t;
    assert items[i] == AttemptValue(t);
    ItemLeaf(items, AttemptValue(t), text);
    assert DocumentOf(a).fields["attempts"].items == items;
    FieldLeaf(DocumentOf(a).fields, "attempts", text);
  }

  /** The event records the text as a blob reference. */
  predicate Records(e: Event, text: string) {
    match e
    case OutputProduced(r) => r.uri == text
    case AttemptOutcome(r) => r.durableReference.Some? && Gc.StringLeaf(r.durableReference.value, text)
    case _ => false
  }

  /** What an emitted event records is in the folded document. */
  lemma RecordedIsInDocument(rs: seq<Json>, discarded: bool, nodes: seq<string>, i: nat, w: Written, text: string)
    requires i < |rs| && rs[i] == w.Record() && Records(w.event, text)
    requires FoldRecords(rs, discarded, nodes).Ok? && !PreExecution(FoldRecords(rs, discarded,
              nodes).value.overallOutcome)
    ensures Gc.StringLeaf(DocumentOf(FoldRecords(rs, discarded, nodes).value), text)
  {
    hide KindOf, NodeOf, OutputOf, OutputsOf, AttemptsOf, ScanAll, BuildAttemptRecord, SummaryOf, HeaderOf, FirstOf,
      OverallOutcome, ErrorsOf, DocumentOf, RecordOf, AttemptValue, OutputValue;
    var a := FoldRecords(rs, discarded, nodes).value;
    match w.event
    case OutputProduced(r) =>
      OutputRecovered(w, r);
      OutputIsKept(rs, i);
      UriLeaf(OutputOf(rs[i]));
      OutputInDocument(a, OutputOf(rs[i]), text);
    case AttemptOutcome(r) =>
      var t := BuildAttemptRecord(rs[i], r.node, ScanAll(rs[..i]));
      AttemptOutcomeRecovered(w, r, ScanAll(rs[..i]));
      OutcomeIsKept(rs, i, r.node);
      AttemptsStartWithOutcomes(rs, nodes);
      assert t in AttemptsOf(rs, nodes);
      DurableReferenceLeaf(t, text);
      AttemptInDocument(a, t, text);
    case _ =>
  }

  /** **A recorded blob is reclaim-proof**: emit an event naming a blob of this container, fold
      the stream, write the document canonically where a walk sees it, and the blob counts as
      referenced, so no reclaim ever removes it. */
  lemma RecordedBlobIsReferenced(
      rs: seq<Json>, discarded: bool, nodes: seq<string>, i: nat, w: Written, text: string,
      base: Gc.Node, at: Gc.Path, backend: string, container: string, hex: string)
    requires i < |rs| && rs[i] == w.Record() && Records(w.event, text)
    requires FoldRecords(rs, discarded, nodes).Ok? && !PreExecution(FoldRecords(rs, discarded,
              nodes).value.overallOutcome)
    requires Parse(text) == Ok(BlobRef(backend, container, BlobKey(ALGORITHM, hex)))
    requires Gc.VisibleRun(base, at)
    requires Gc.Visible(base, at).value.artifact ==
              Gc.Written(ValueText(DocumentOf(FoldRecords(rs, discarded, nodes).value)))
    ensures Gc.Referenced(base, backend, container, hex)
  {
    hide FoldRecords, DocumentOf, Parse, ParseText, ValueText, Records, Gc.StringLeaf, Gc.Visible, RecordOf,
        PreExecution;
    var doc := DocumentOf(FoldRecords(rs, discarded, nodes).value);
    RecordedIsInDocument(rs, discarded, nodes, i, w, text);
    CanonicalProofs.ParseUndoesPrint(doc);
    assert Gc.DocumentIn(Gc.Visible(base, at).value) == Some(doc);
  }
}
