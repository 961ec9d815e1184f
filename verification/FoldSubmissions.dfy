/** Write-ahead submissions: merged per (node, attempt), with the outcome resolved from the
    records rather than from the assembled attempts. */
module FoldSubmissions {
  import opened Text
  import opened Json
  import opened FoldAttempts

  type Key = (string, nat)

  datatype SubmittedAttempt = SubmittedAttempt(
    node: string,
    attempt: nat,
    inputs: Option<seq<Json>>,
    executor: Option<string>,
    targetName: Option<string>,
    observedName: Option<string>,
    observedUid: Option<string>,
    observedHost: Option<string>,
    structuralFingerprint: Option<string>,
    policyHash: Option<string>,
    toolVersion: Option<string>,
    imageDigest: Option<string>,
    submittedAtOffsetNs: nat,
    outcomeState: Option<string>)
  {
    predicate Completed() { outcomeState.Some? }
  }

  /** The identity pair of a record of this kind, when it carries both halves. */
  function KeyOf(rec: Json, kind: Kind): Option<Key> {
    if KindOf(rec) != kind then None
    else
      match (NodeOf(rec), GetU32(rec, "attempt"))
      case (Some(n), Some(a)) => Some((n, a))
      case _ => None
  }

  // ---- The pass as functions -----------------------------------------------

  function OutcomesStep(m: map<Key, string>, rec: Json): map<Key, string> {
    match (KeyOf(rec, KOutcome), GetStr(rec, "status"))
    case (Some(key), Some(status)) => m[key := status]
    case _ => m
  }

  function Outcomes(rs: seq<Json>): map<Key, string> {
    if rs == [] then map[] else OutcomesStep(Outcomes(rs[..|rs| - 1]), rs[|rs| - 1])
  }

  function LookupOutcome(outcomes: map<Key, string>, key: Key): Option<string> {
    if key in outcomes then Some(outcomes[key]) else None
  }

  function FirstSubmission(rec: Json, key: Key, outcome: Option<string>): SubmittedAttempt {
    SubmittedAttempt(
      key.0, key.1, GetArr(rec, "inputs"),
      GetStr(rec, "executor"), GetStr(rec, "target_name"), GetStr(rec, "observed_name"),
      GetStr(rec, "observed_uid"), GetStr(rec, "observed_host"), GetStr(rec, "structural_fingerprint"),
      GetStr(rec, "policy_hash"), GetStr(rec, "tool_version"), GetStr(rec, "image_digest"),
      OffsetOf(rec), outcome)
  }

  /** A present value wins; an absent one changes nothing. */
  function Later<T>(slot: Option<T>, value: Option<T>): Option<T> {
    if value.Some? then value else slot
  }

  function MergeSubmission(into: SubmittedAttempt, rec: Json): SubmittedAttempt {
    into.(
      inputs := Later(into.inputs, GetArr(rec, "inputs")),
      executor := Later(into.executor, GetStr(rec, "executor")),
      targetName := Later(into.targetName, GetStr(rec, "target_name")),
      observedName := Later(into.observedName, GetStr(rec, "observed_name")),
      observedUid := Later(into.observedUid, GetStr(rec, "observed_uid")),
      observedHost := Later(into.observedHost, GetStr(rec, "observed_host")),
      structuralFingerprint := Later(into.structuralFingerprint, GetStr(rec, "structural_fingerprint")),
      policyHash := Later(into.policyHash, GetStr(rec, "policy_hash")),
      toolVersion := Later(into.toolVersion, GetStr(rec, "tool_version")),
      imageDigest := Later(into.imageDigest, GetStr(rec, "image_digest")))
  }

  datatype Merging = Merging(order: seq<Key>, merged: map<Key, SubmittedAttempt>)

  function MergeStep(m: Merging, rec: Json, outcomes: map<Key, string>): Merging {
    match KeyOf(rec, KSubmitted)
    case None => m
    case Some(key) =>
      if key in m.merged then m.(merged := m.merged[key := MergeSubmission(m.merged[key], rec)])
      else Merging(m.order + [key],
                   m.merged[key := FirstSubmission(rec, key, LookupOutcome(outcomes, key))])
  }

  function Merge(rs: seq<Json>, outcomes: map<Key, string>): Merging {
    if rs == [] then Merging([], map[]) else MergeStep(Merge(rs[..|rs| - 1], outcomes), rs[|rs| - 1], outcomes)
  }

  /** Take each key's entry out of the map, in order; a key already taken yields nothing. */
  function Drain(order: seq<Key>, merged: map<Key, SubmittedAttempt>): seq<SubmittedAttempt> {
    if order == [] then []
    else (if order[0] in merged then [merged[order[0]]] else []) + Drain(order[1..], merged - {order[0]})
  }

  function SubmissionsOf(rs: seq<Json>): seq<SubmittedAttempt> {
    var m := Merge(rs, Outcomes(rs));
    Drain(m.order, m.merged)
  }

  // ---- The assembler itself ------------------------------------------------

  method AssembleSubmissions(records: seq<Json>) returns (submissions: seq<SubmittedAttempt>)
    ensures submissions == SubmissionsOf(records)
  {
    hide Merge, Outcomes, Drain;
    var outcomes := CollectOutcomes(records);
    var order, merged := MergeRecords(records, outcomes);
    submissions := DrainOrder(order, merged);
  }

  method CollectOutcomes(records: seq<Json>) returns (outcomes: map<Key, string>)
    ensures outcomes == Outcomes(records)
  {
    hide KeyOf;
    outcomes := map[];
    for i := 0 to |records|
      invariant outcomes == Outcomes(records[..i])
    {
      assert records[..i + 1][..i] == records[..i];
      match (KeyOf(records[i], KOutcome), GetStr(records[i], "status"))
      case (Some(key), Some(status)) => outcomes := outcomes[key := status];
      case _ =>
    }
    assert records[..|records|] == records;
  }

  method MergeRecords(records: seq<Json>, outcomes: map<Key, string>)
    returns (order: seq<Key>, merged: map<Key, SubmittedAttempt>)
    ensures Merge(records, outcomes) == Merging(order, merged)
  {
    hide FirstSubmission, MergeSubmission, KeyOf;
    order, merged := [], map[];
    for i := 0 to |records|
      invariant Merge(records[..i], outcomes) == Merging(order, merged)
    {
      assert records[..i + 1][..i] == records[..i];
      match KeyOf(records[i], KSubmitted)
      case None =>
      case Some(key) =>
        if key in merged {
          merged := merged[key := MergeSubmission(merged[key], records[i])];
        } else {
          order := order + [key];
          merged := merged[key := FirstSubmission(records[i], key, LookupOutcome(outcomes, key))];
        }
    }
    assert records[..|records|] == records;
  }

  method DrainOrder(order: seq<Key>, all: map<Key, SubmittedAttempt>) returns (submissions: seq<SubmittedAttempt>)
    ensures submissions == Drain(order, all)
  {
    hide Drain;
    var merged := all;
    submissions := [];
    assert order[0..] == order;
    for i := 0 to |order|
      invariant submissions + Drain(order[i..], merged) == Drain(order, all)
    {
      DrainFirst(order[i..], merged);
      assert order[i..][1..] == order[i + 1..];
      if order[i] in merged {
        submissions := submissions + [merged[order[i]]];
      }
      merged := merged - {order[i]};
    }
    DrainNone(merged);
  }

  lemma DrainFirst(order: seq<Key>, merged: map<Key, SubmittedAttempt>)
    requires order != []
    ensures var rest := Drain(order[1..], merged - {order[0]});
            Drain(order, merged) == if order[0] in merged then [merged[order[0]]] + rest else rest
  {}

  lemma DrainNone(merged: map<Key, SubmittedAttempt>)
    ensures Drain([], merged) == []
  {}

  // ---- The declarative meaning ---------------------------------------------

  /** The submission records for `key`, in stream order. */
  function RecordsFor(rs: seq<Json>, key: Key): seq<Json> {
    if rs == [] then []
    else RecordsFor(rs[..|rs| - 1], key) + if KeyOf(rs[|rs| - 1], KSubmitted) == Some(key) then [rs[|rs| - 1]] else []
  }

  /** The distinct submission keys, in order of first appearance. */
  function FirstAppearances(rs: seq<Json>): (keys: seq<Key>)
    ensures forall i, j :: 0 <= i < j < |keys| ==> keys[i] != keys[j]
  {
    if rs == [] then []
    else
      var keys := FirstAppearances(rs[..|rs| - 1]);
      match KeyOf(rs[|rs| - 1], KSubmitted)
      case None => keys
      case Some(key) => if key in keys then keys else keys + [key]
  }

  function LastPresent<T>(values: seq<Option<T>>): Option<T> {
    if values == [] then None else Later(LastPresent(values[..|values| - 1]), values[|values| - 1])
  }

  /** The last string any of `ms` carries under `field`. */
  function LastStr(ms: seq<Json>, field: string): Option<string> {
    LastPresent(seq(|ms|, i requires 0 <= i < |ms| => GetStr(ms[i], field)))
  }

  function LastArr(ms: seq<Json>, field: string): Option<seq<Json>> {
    LastPresent(seq(|ms|, i requires 0 <= i < |ms| => GetArr(ms[i], field)))
  }

  /** What one submission means, given the records `ms` for its key and its outcome. */
  function Meaning(ms: seq<Json>, key: Key, outcome: Option<string>): SubmittedAttempt
    requires ms != []
  {
    SubmittedAttempt(
      key.0, key.1, LastArr(ms, "inputs"),
      LastStr(ms, "executor"), LastStr(ms, "target_name"), LastStr(ms, "observed_name"),
      LastStr(ms, "observed_uid"), LastStr(ms, "observed_host"), LastStr(ms, "structural_fingerprint"),
      LastStr(ms, "policy_hash"), LastStr(ms, "tool_version"), LastStr(ms, "image_digest"),
      OffsetOf(ms[0]), outcome)
  }

  /** The last status any outcome record reports for `key`, if one does. */
  function ReportedOutcome(rs: seq<Json>, key: Key): Option<string> {
    LastPresent(seq(|rs|, i requires 0 <= i < |rs| => StatusFor(rs[i], key)))
  }

  /** The status `rec` reports for the pair, if it is an outcome of it. */
  function StatusFor(rec: Json, key: Key): Option<string> {
    if KeyOf(rec, KOutcome) == Some(key) then GetStr(rec, "status") else None
  }

  // ---- The pass computes the meaning ---------------------------------------

  lemma LastPresentAppend<T>(values: seq<Option<T>>, value: Option<T>)
    ensures LastPresent(values + [value]) == Later(LastPresent(values), value)
  {
    assert (values + [value])[..|values|] == values;
  }

  lemma LastPresentExists<T>(values: seq<Option<T>>)
    ensures LastPresent(values).Some? <==> exists v <- values :: v.Some?
  {
    if values != [] {
      LastPresentExists(values[..|values| - 1]);
      assert values == values[..|values| - 1] + [values[|values| - 1]];
    }
  }

  lemma LastStrAppend(ms: seq<Json>, rec: Json, field: string)
    ensures LastStr(ms + [rec], field) == Later(LastStr(ms, field), GetStr(rec, field))
  {
    hide GetStr;
    var values := seq(|ms|, i requires 0 <= i < |ms| => GetStr(ms[i], field));
    var ns := ms + [rec];
    assert seq(|ns|, i requires 0 <= i < |ns| => GetStr(ns[i], field)) == values + [GetStr(rec, field)];
    LastPresentAppend(values, GetStr(rec, field));
  }

  lemma LastArrAppend(ms: seq<Json>, rec: Json, field: string)
    ensures LastArr(ms + [rec], field) == Later(LastArr(ms, field), GetArr(rec, field))
  {
    hide GetArr;
    var values := seq(|ms|, i requires 0 <= i < |ms| => GetArr(ms[i], field));
    var ns := ms + [rec];
    assert seq(|ns|, i requires 0 <= i < |ns| => GetArr(ns[i], field)) == values + [GetArr(rec, field)];
    LastPresentAppend(values, GetArr(rec, field));
  }

  lemma MeaningAppend(ms: seq<Json>, rec: Json, key: Key, outcome: Option<string>)
    requires ms != []
    ensures Meaning(ms + [rec], key, outcome) == MergeSubmission(Meaning(ms, key, outcome), rec)
  {
    hide LastStr, LastArr, GetStr, GetArr, OffsetOf;
    LastArrAppend(ms, rec, "inputs");
    LastStrAppend(ms, rec, "executor");
    LastStrAppend(ms, rec, "target_name");
    LastStrAppend(ms, rec, "observed_name");
    LastStrAppend(ms, rec, "observed_uid");
    LastStrAppend(ms, rec, "observed_host");
    LastStrAppend(ms, rec, "structural_fingerprint");
    LastStrAppend(ms, rec, "policy_hash");
    LastStrAppend(ms, rec, "tool_version");
    LastStrAppend(ms, rec, "image_digest");
    assert (ms + [rec])[0] == ms[0];
  }

  lemma SoleField(rec: Json, field: string)
    ensures LastStr([rec], field) == GetStr(rec, field) && LastArr([rec], field) == GetArr(rec, field)
  {
    assert [] + [rec] == [rec];
    LastStrAppend([], rec, field);
    LastArrAppend([], rec, field);
  }

  lemma MeaningOfFirst(rec: Json, key: Key, outcome: Option<string>)
    ensures Meaning([rec], key, outcome) == FirstSubmission(rec, key, outcome)
  {
    hide LastStr, LastArr, GetStr, GetArr, OffsetOf;
    SoleField(rec, "inputs");
    SoleField(rec, "executor");
    SoleField(rec, "target_name");
    SoleField(rec, "observed_name");
    SoleField(rec, "observed_uid");
    SoleField(rec, "observed_host");
    SoleField(rec, "structural_fingerprint");
    SoleField(rec, "policy_hash");
    SoleField(rec, "tool_version");
    SoleField(rec, "image_digest");
  }

  lemma KeysAppear(rs: seq<Json>, key: Key)
    ensures key in FirstAppearances(rs) <==> RecordsFor(rs, key) != []
  {
    hide KeyOf, RecordsFor;
    if rs == [] {
      NoRecords(key);
    } else {
      KeysAppear(rs[..|rs| - 1], key);
      RecordsForStep(rs, key);
    }
  }

  lemma NoRecords(key: Key)
    ensures RecordsFor([], key) == []
  {}

  lemma AppearancesAreKeys(rs: seq<Json>, key: Key)
    ensures key in FirstAppearances(rs) <==> exists i :: 0 <= i < |rs| && KeyOf(rs[i], KSubmitted) == Some(key)
  {
    hide KeyOf;
    if rs != [] {
      AppearancesAreKeys(rs[..|rs| - 1], key);
      if key in FirstAppearances(rs[..|rs| - 1]) {
        var i :| 0 <= i < |rs| - 1 && KeyOf(rs[..|rs| - 1][i], KSubmitted) == Some(key);
        assert KeyOf(rs[i], KSubmitted) == Some(key);
      }
      if i :| 0 <= i < |rs| - 1 && KeyOf(rs[i], KSubmitted) == Some(key) {
        assert KeyOf(rs[..|rs| - 1][i], KSubmitted) == Some(key);
      }
    }
  }

  /** Appearance order is stable: what appeared by record `k` comes first, in its order. */
  lemma AppearancesGrow(rs: seq<Json>, k: nat)
    requires k <= |rs|
    ensures FirstAppearances(rs[..k]) <= FirstAppearances(rs)
  {
    hide KeyOf;
    if k < |rs| {
      AppearancesGrow(rs[..|rs| - 1], k);
      assert rs[..|rs| - 1][..k] == rs[..k];
    } else {
      assert rs[..k] == rs;
    }
  }

  lemma RecordsForStep(rs: seq<Json>, key: Key)
    requires rs != []
    ensures var before, rec := rs[..|rs| - 1], rs[|rs| - 1];
            RecordsFor(rs, key) ==
            if KeyOf(rec, KSubmitted) == Some(key) then RecordsFor(before, key) + [rec] else RecordsFor(before, key)
  {
    hide KeyOf;
  }

  /** The entry for `key` is the meaning of its records, which exist. */
  predicate Means(rs: seq<Json>, outcomes: map<Key, string>, m: Merging, key: Key)
    requires key in m.merged
  {
    RecordsFor(rs, key) != [] && m.merged[key] == Meaning(RecordsFor(rs, key), key, LookupOutcome(outcomes, key))
  }

  lemma {:induction false} MergeMeans(rs: seq<Json>, outcomes: map<Key, string>)
    ensures var m := Merge(rs, outcomes);
            && m.order == FirstAppearances(rs)
            && (forall key :: key in m.merged <==> key in m.order)
            && (forall key <- m.order :: Means(rs, outcomes, m, key))
  {
    hide KeyOf, Meaning, MergeSubmission, FirstSubmission, RecordsFor;
    if rs != [] {
      var before, rec := rs[..|rs| - 1], rs[|rs| - 1];
      var m, n := Merge(before, outcomes), Merge(rs, outcomes);
      MergeMeans(before, outcomes);
      forall key | key in n.order ensures Means(rs, outcomes, n, key) {
        RecordsForStep(rs, key);
        KeysAppear(before, key);
        if KeyOf(rec, KSubmitted) == Some(key) {
          if key in m.merged {
            MeaningAppend(RecordsFor(before, key), rec, key, LookupOutcome(outcomes, key));
          } else {
            MeaningOfFirst(rec, key, LookupOutcome(outcomes, key));
            assert [] + [rec] == [rec];
          }
        } else {
          assert Means(before, outcomes, m, key);
        }
      }
    }
  }

  lemma {:induction false} DrainAll(order: seq<Key>, merged: map<Key, SubmittedAttempt>)
    requires forall i, j :: 0 <= i < j < |order| ==> order[i] != order[j]
    requires forall key <- order :: key in merged
    ensures |Drain(order, merged)| == |order|
    ensures forall i :: 0 <= i < |order| ==> Drain(order, merged)[i] == merged[order[i]]
  {
    if order != [] {
      DrainAll(order[1..], merged - {order[0]});
    }
  }

  lemma {:induction false} OutcomesAreReported(rs: seq<Json>, key: Key)
    ensures LookupOutcome(Outcomes(rs), key) == ReportedOutcome(rs, key)
  {
    hide LookupOutcome, OutcomesStep, ReportedOutcome;
    if rs == [] {
      NothingReported(key);
    } else {
      OutcomesAreReported(rs[..|rs| - 1], key);
      OutcomesStepLooksUp(Outcomes(rs[..|rs| - 1]), rs[|rs| - 1], key);
      ReportedStep(rs, key);
    }
  }

  lemma NothingReported(key: Key)
    ensures LookupOutcome(map[], key) == None && ReportedOutcome([], key) == None
  {}

  lemma OutcomesStepLooksUp(m: map<Key, string>, rec: Json, key: Key)
    ensures LookupOutcome(OutcomesStep(m, rec), key) == Later(LookupOutcome(m, key), StatusFor(rec, key))
  {
    hide KeyOf, GetStr;
  }

  lemma ReportedStep(rs: seq<Json>, key: Key)
    requires rs != []
    ensures ReportedOutcome(rs, key) ==
            Later(ReportedOutcome(rs[..|rs| - 1], key), StatusFor(rs[|rs| - 1], key))
  {
    hide StatusFor, LastPresent, Later;
    var before, rec := rs[..|rs| - 1], rs[|rs| - 1];
    var values := seq(|before|, i requires 0 <= i < |before| => StatusFor(before[i], key));
    LastPresentAppend(values, StatusFor(rec, key));
    assert seq(|rs|, i requires 0 <= i < |rs| => StatusFor(rs[i], key)) == values + [StatusFor(rec, key)];
  }

  /** **Merging means what it says.** There is one entry per distinct (node, attempt) in
      order of first appearance; each field is the last value any record for the pair
      carries; the offset is the first record's; and the outcome is the last status reported
      for the pair anywhere in the stream, before or after. */
  lemma SubmissionsMeanTheirRecords(rs: seq<Json>)
    ensures var keys := FirstAppearances(rs);
            && |SubmissionsOf(rs)| == |keys|
            && forall i :: 0 <= i < |keys| ==>
                 RecordsFor(rs, keys[i]) != [] &&
                 SubmissionsOf(rs)[i] == Meaning(RecordsFor(rs, keys[i]), keys[i], ReportedOutcome(rs, keys[i]))
  {
    hide Merge, Outcomes, Meaning, ReportedOutcome, Drain, FirstAppearances, LookupOutcome, RecordsFor;
    var outcomes := Outcomes(rs);
    var m := Merge(rs, outcomes);
    MergeMeans(rs, outcomes);
    DrainAll(m.order, m.merged);
    forall i | 0 <= i < |m.order|
      ensures Means(rs, outcomes, m, m.order[i])
      ensures LookupOutcome(outcomes, m.order[i]) == ReportedOutcome(rs, m.order[i])
    {
      assert m.order[i] in m.order;
      OutcomesAreReported(rs, m.order[i]);
    }
  }

  /** A submission is complete exactly when some outcome record with a status exists for its
      pair: no terminal state is invented for an attempt that never reported. */
  lemma CompletedExactlyWhenReported(rs: seq<Json>, i: nat)
    requires i < |SubmissionsOf(rs)|
    ensures var s := SubmissionsOf(rs)[i];
            s.Completed() <==>
            exists r <- rs :: KeyOf(r, KOutcome) == Some((s.node, s.attempt)) && GetStr(r, "status").Some?
  {
    hide SubmissionsOf, KeyOf, GetStr, RecordsFor, FirstAppearances, LastStr, LastArr, LastPresent;
    SubmissionsMeanTheirRecords(rs);
    var key := FirstAppearances(rs)[i];
    var values := seq(|rs|, j requires 0 <= j < |rs| => StatusFor(rs[j], key));
    assert LastPresent(values) == ReportedOutcome(rs, key);
    LastPresentExists(values);
    if r :| r in rs && KeyOf(r, KOutcome) == Some(key) && GetStr(r, "status").Some? {
      var j :| 0 <= j < |rs| && rs[j] == r;
      assert values[j].Some?;
    }
    if v :| v in values && v.Some? {
      var j :| 0 <= j < |values| && values[j] == v;
      assert rs[j] in rs;
    }
  }
}
