# Verification of dagr's artifact, blob-store and resume cores

A Dafny 4.11 model of the parts of dagr whose correctness is hardest to see from one
function: the crash-tolerant event stream and the fold that rebuilds a run artifact from
it, the content-addressed blob store with its garbage collector, and resume planning over
prior artifacts. Check everything with `dafny verify dfyconfig.toml`.

Where the program changes state step by step, the model does too. The stream writer, the
SHA-256 hasher, the canonical-JSON buffer, the reachability collector and the blob
container are classes whose methods update fields, and the loops of the readers, folds,
planners and listings are loops. Each such method is proved equal to, or against, a
specification over values; the theorems are then proved about that specification.

## How the program is modelled

- **Text.** A string is a byte string, one `char` per octet. Every byte the program
  escapes, splits on or searches for is ASCII.
- **JSON.** Numbers are integers. The reading side is a parser for RFC 8259 restricted to
  integer numbers, with white space, all escapes and surrogate pairs, and with last-wins
  duplicate keys. An object is a map, since the repository's `serde_json` keeps no
  insertion order.
- **Sinks, probes, servers and stores that can fail** fail at any call: the outcome of a
  call is an argument, or is chosen freely. A failed append is assumed to leave nothing
  behind, which the sink trait (`crates/artifact/src/event_stream.rs:69-86`) asks for only in
  calling appends line-atomic; `TornAppends.dfy` is about a sink that leaves part of a line.
- **The disk** has two views of its file entries, the one processes see and the one a crash
  would leave, and two contents for each file. Until a file is synced, what a crash would
  leave of it is arbitrary. The directories are those of
  `<root>/<algorithm>/<aa>/<bb>`: a put makes the ones that are missing, the entries of a leaf
  become durable together and apart from the others', and a directory's own entry becomes
  durable on its own; a crash keeps a durable entry only where a durable path leads to it.
  Writers, deleters, background write-back and crashes interleave freely, one step at a time.
  What is assumed: a temp name is unique among live writers (process id and process-wide
  counter), a rename is one update of one directory, and bytes change only through the
  modelled steps.
- **The run store** shows each directory through three probes that can fail silently: whether
  an artifact is there, whether a stream is there, and what each entry is.
- **The digest** is the standard's own definition (sections 4 to 6 of FIPS 180-4), its
  constants proved to be the roots of primes they are meant to be. Nothing assumes it is
  injective, except the one theorem that says so in its precondition.
- **Names on the wire and in the document** are pinned down apart from the writers: what a line,
  a row or a header says is stated with the field names spelled out and proved of the text a
  parser reads back.

## What the code does that its documentation does not say

Each of these is a theorem here, with the condition under which the documented claim holds.

- `crates/artifact/src/event_stream.rs:872-874` says a faulted writer refuses to append. `emit` records a fault
  and never consults it, so the next append is made and can succeed
  (`EventStream.FaultedWriterStillAppends`). If the failed append left some of its line behind,
  however much short of its newline, that next line makes the fold refuse the whole stream
  (`TornAppends.EmittingAfterATornAppend`); had nothing followed, the part would only have been
  discarded (`TornAppends.TornAppendAlone`).
- `crates/artifact/src/fold.rs:86-91` says a stream with submissions folds to the same published bytes as one
  without. A trailing submission moves `total_elapsed_ns`; the claim holds exactly when the
  run failed before execution or no submission is later than every other record
  (`FoldHistory.DocumentUnchangedExactlyWhen`, `FoldHistory.TrailingSubmissionChangesDocument`).
- `crates/artifact/src/fold.rs:1636-1639` says the critical path never under-attributes. For
  given readiness and terminal offsets the pass is optimal whatever the executing times, over
  paths that visit no node twice, if and only if any two nodes of one path are connected in
  the order the pass visits them (`CriticalPath.OptimalExactlyWhenInOrder`); where no node
  ends before it is ready, if and only if two nodes visited against their precedence precede
  each other (`CriticalPath.OptimalExactlyWhenMutual`). Every well-formed stream gives the
  optimum (`StreamTiming.CriticalPathIsOptimal`), and there no dependency path outweighs the
  result (`StreamBounds.NoDependencyPathOutweighs`). A stream whose offsets never step back but
  whose first attempt precedes its own `node-ready` yields 1 where a path weighs 2
  (`StreamBounds.LateReadyIsUndercounted`, `StreamBounds.LateReadyExists`).
- `crates/blob/src/local.rs:35-37` says the directory fsync makes the rename survive a crash.
  `crates/blob/src/local.rs:144-149` swallows its failure, and nothing syncs the directories
  `crates/blob/src/local.rs:110` makes. Over every run, an object just put is there after a
  crash if and only if that fsync succeeded or its name was durable already, and the path to
  its directory is durable at the crash, unless the directory's entries become durable some
  other way first (`LocalStore.SurvivesExactlyWhen`). So the first put into a new directory can
  be lost though its fsync succeeded (`LocalStore.FirstPutIsLost`), and with the directories
  durable a swallowed failure loses it still (`LocalStore.SwallowedSyncFailure`).
- `crates/cli/src/blob_gc.rs:320-366` takes three failed probes for absence: `is_file` on the
  artifact (328), `is_file` on the stream (346) and reading an entry (362-363), although
  unknown reachability is documented as a refusal. A successful plan has read every run
  exactly when each run directory shows as one and none lies behind a dropped entry
  (`BlobGc.ReadsEveryRunUnlessHidden`); both ways of missing one have a concrete store
  (`BlobGc.DroppedRunIsMissed`, `BlobGc.MaskedRunIsMissed`).
- `crates/blob/src/s3.rs:460-463` answers a 404 on *any* page with an empty listing. Where no
  request fails otherwise, the listing names every blob some served page holds if and only if
  no request after the first is answered by a 404 or the pages before it hold no blob
  (`S3Listing.ListingIsWholeExactlyWhen`); a two-page server loses one
  (`S3Listing.VanishingPageEmptiesListing`).
- `crates/core/src/resume.rs:368-372` says a rehydrated node is never in the must-run set. A node
  can be probed and rehydrated in one round and reached by the downward sweep of a later one.
  Trails through the graph say how long each node waits; the claim holds if and only if no
  producer whose value can be rehydrated waits longer than one of its consumers
  (`ResumeTrails.DisjointExactlyWhenNoneReachedLater`). A diamond breaks it
  (`ResumePlan.DiamondIsOvertaken`), and there a dangling reference refuses a plan that did
  not need it. Names enter through the order of the sweep. A condition that ignores them
  suffices (`ResumePlan.DisjointWhenNoneContested`), and none is exact
  (`ResumePlan.TheNameDecides`).
- `crates/core/src/resume.rs:103-107` says a node the prior run carried forward keeps its origin
  across generations. The artifact would keep it (`Resume.ChainKeepsReferences`), but the
  seed treats a `satisfied-from-prior` node as not succeeded, so the next plan runs it again
  (`ResumePlan.CarriedForwardRunsAgain`, `Resume.NothingIsCarriedTwice`). Over chains in which
  every resume follows its plan a node is therefore carried once, and from the second resume
  on the origin is always the run just before (`Resume.RealChainCarriesOnce`). That asks of the
  artifact between two resumes only that carried nodes are recorded as carried and the others
  as the run's own. No library function composes it: carried records followed by attempts
  are one such artifact and keep reference, hash and origin (`Resume.CompletedContinues`),
  while the demo at `crates/cli/src/bin/dagr-t63-demo-run.rs:476-545` folds the stream and
  copies the reference and the origin over it, but not the content hash.

## Files

| file | subject |
|---|---|
| `Text.dfy`, `Json.dfy` | octet strings, byte order, sorting; JSON values and typed accessors |
| `Canonical.dfy`, `JsonParser.dfy`, `CanonicalProofs.dfy` | the canonical printer, the RFC 8259 reader, and their round trip |
| `CanonicalIsShortest.dfy` | why canonical text is minimal, and the order of its members |
| `TerminalStates.dfy` | the states a node can end in |
| `EventStream.dfy`, `ReadRecords.dfy` | the stream writer over a failing sink; the crash-tolerant reader |
| `WireFormat.dfy` | what each line of a stream says, by name |
| `TornAppends.dfy` | what follows a failed append that left part of its line |
| `FoldAttempts.dfy`, `FoldSubmissions.dfy`, `Fold.dfy` | the assemblers of the fold, its summary and its document |
| `FoldSummary.dfy`, `FoldHistory.dfy`, `FoldPayloads.dfy` | what the folded figures mean; crashes and submissions; writer against fold |
| `FoldOfARun.dfy` | emitting, folding and recovering, for whole runs |
| `FoldPhases.dfy` | an attempt's phases and a node's executed time, read off positions in the stream |
| `PublishedRun.dfy` | from what a run emits to the published document and what a resume reads of it |
| `CriticalPath.dfy`, `StreamTiming.dfy` | the forward pass and when it is optimal; which streams are well timed |
| `StreamBounds.dfy` | readiness and terminal offsets as positions in the stream; dependency paths |
| `CivilDate.dfy` | the wall-clock stamp's date arithmetic |
| `Sha256Vectors.dfy` | the standard's constants as roots of primes, and its one-block message |
| `KnownTexts.dfy` | example texts of the formats, and records no writer here produces |
| `Sha256.dfy`, `Hmac.dfy`, `BlobRef.dfy` | the streaming hasher against FIPS 180-4; RFC 2104; keys and references |
| `LocalStore.dfy`, `S3Listing.dfy` | the write-rename-sync protocol under crashes; paged listing |
| `BlobGc.dfy`, `ReclaimAfterFold.dfy` | reclaim by reachability; from an emitted event to a kept blob |
| `ResumePlan.dfy`, `ResumeTrails.dfy` | the demand-driven plan; how long each node waits, read off the graph |
| `Resume.dfy` | prior facts, resumed artifacts and chains of them |

## Model

| member | source | states |
|---|---|---|
| `Canonical.WriteJsonString` | crates/artifact/src/canonical.rs:84-103 | the escape loop appends exactly the quoted string, whose escapes `CanonicalIsShortest` proves minimal, to the buffer it is given, whatever the buffer held |
| `Canonical.WriteCanonical` | crates/artifact/src/canonical.rs:44-79 | the recursive writer appends exactly the canonical text that the parser below is proved to invert |
| `Canonical.WriteObject` | crates/artifact/src/canonical.rs:46-57 | an object's members are appended in ascending byte order of their keys, separated once each |
| `Canonical.WriteArray` | crates/artifact/src/canonical.rs:58-67 | an array's elements are appended in order, separated once each |
| `CanonicalProofs.ParseUndoesPrint` | crates/artifact/src/canonical.rs:44-103 | an RFC 8259 parser gives back every integer-number value of any nesting from its canonical text |
| `CanonicalProofs.CanonicalTextIsInjective` | crates/artifact/src/canonical.rs:33-41 | two values with one canonical text are one value, so map insertion order cannot show |
| `CanonicalProofs.NoProperPrefixParses` | crates/artifact/src/event_stream.rs:1494-1510 | no proper prefix of an object's canonical text is a JSON text, which is why a cut record is never mistaken for a whole one |
| `CanonicalProofs.ValueTextIsPrintable` | crates/artifact/src/canonical.rs:81-103 | canonical text holds no byte below 0x20, so a line never contains a raw newline |
| `CanonicalIsShortest.CanonicalIsShortest` | crates/artifact/src/canonical.rs:81-103 | no JSON text of a value is shorter than its canonical text, so every escape is the shortest and there is no white space |
| `CanonicalIsShortest.KeysAscend` | crates/artifact/src/canonical.rs:46-57 | a parser meets the members of a printed object in strictly ascending octet order of their keys |
| `CanonicalIsShortest.EscapesAreLowercase` | crates/artifact/src/canonical.rs:84-103 | a six-octet escape is that of a control octet, in lowercase hexadecimal digits |
| `EventStream.EventSink.AppendLine` | crates/artifact/src/event_stream.rs:69-86 | an append adds the whole line or, by the assumption stated above, nothing |
| `EventStream.EventStreamWriter.CanonicalLine` | crates/artifact/src/event_stream.rs:1164-1194 | the emitted line is the canonical text of the record `WireFormat` reads back by name, and a newline |
| `EventStream.EventStreamWriter.Emit` | crates/artifact/src/event_stream.rs:1138-1153 | one emission moves the writer and sink exactly as the run model's step does: a number is used only when the append is accepted, and a fault is only recorded |
| `EventStream.EventStreamWriter.Finish` | crates/artifact/src/event_stream.rs:1105-1113 | a failed flush raises the fault flag and changes nothing else |
| `EventStream.RunIsGapless` | crates/artifact/src/event_stream.rs:1105-1153 | over every run and every pattern of sink failures, the accepted lines are those of the accepted emissions numbered 0, 1, …, n−1 in order, the next number is n, and the fault flag is up exactly when some append or flush has failed |
| `WireFormat.LineSaysItsEvent` | crates/artifact/src/event_stream.rs:1138-1194 | after any writer run line i is one JSON text and a newline, and the text says under the published names the schema, the run, the number i, the two clocks and every field of the i-th accepted event |
| `WireFormat.EventSaid` | crates/artifact/src/event_stream.rs:1206-1262 | the record of every kind of event says its kind and its payload, the nine state and five outcome names literally |
| `EventStream.AcceptedOffsetsAreMonotonic` | crates/artifact/src/event_stream.rs:1138-1153 | with a monotonic clock the accepted offsets never step back, whatever fails between them |
| `EventStream.FaultedWriterStillAppends` | crates/artifact/src/event_stream.rs:872-874 | whether an emission is accepted depends on that append alone, fault or no fault, and some faulted run appends another line |
| `ReadRecords.ReadRecords` | crates/artifact/src/event_stream.rs:1470-1510 | the reading loop computes the reader function the cut theorems are about, error index included |
| `KnownTexts.ShortEscapesRead` | crates/artifact/src/event_stream.rs:1487-1500 | the reader takes the eight short escapes of section 7 of RFC 8259 and no other letter |
| `KnownTexts.UnicodeEscapesRead` | crates/artifact/src/event_stream.rs:1487-1500 | and four hexadecimal digits of either case, two of them joined into one character, half a pair refused |
| `KnownTexts.BlanksDoNotMatter` | crates/artifact/src/event_stream.rs:1487-1500 | white space around any value is skipped |
| `KnownTexts.RepeatedKey` | crates/artifact/src/event_stream.rs:1487-1500 | of a key given twice the last value counts |
| `ReadRecords.CutStreamReads` | crates/artifact/src/event_stream.rs:1470-1510 | however a stream of records is cut, reading succeeds with exactly the records wholly present, and flags a discarded tail exactly when the cut is strictly inside a record |
| `ReadRecords.WriterThenCutThenRead` | crates/artifact/src/event_stream.rs:1138-1194 | end to end: after any writer run and for every byte prefix of the accepted bytes, the reader returns the first k accepted emissions, k counting those wholly present |
| `TornAppends.TornTextIsRefused` | crates/artifact/src/event_stream.rs:1494-1510 | no non-empty leading part of an object's canonical text, nor the whole, followed by another object's text is a JSON text |
| `TornAppends.EmittingAfterATornAppend` | crates/artifact/src/event_stream.rs:1138-1153 | after any writer run, a failed append leaving any leading part of its line but the newline, and one more emission: the fold refuses the stream at that line, whatever follows |
| `TornAppends.TornAppendAlone` | crates/artifact/src/event_stream.rs:1470-1510 | with nothing after it a torn append is discarded and exactly the accepted records are read |
| `FoldAttempts.AssembleAttempts` | crates/artifact/src/fold.rs:1223-1327 | the three passes yield the attempt list the coverage, phase, history and read-back theorems are about |
| `FoldAttempts.ScanRecords` | crates/artifact/src/fold.rs:1242-1287 | the stateful pass over the records, one map per kind, computes the scan built record by record |
| `FoldAttempts.CoverTerminalOnly` | crates/artifact/src/fold.rs:1289-1298 | rows are added, in name order, for exactly the nodes with a terminal record and no attempt |
| `FoldAttempts.CoverRoster` | crates/artifact/src/fold.rs:1300-1324 | a conservative row is added for exactly the roster nodes not yet covered |
| `FoldAttempts.PhasesPartitionTheWindow` | crates/artifact/src/fold.rs:1372-1406 | for any recorded offsets the four phases sum exactly to the attempt's own window, with no underflow |
| `FoldAttempts.OrdinaryAttemptOnlyExecutes` | crates/artifact/src/fold.rs:1372-1406 | when every earlier instant lies at or before the start, the whole window is execution |
| `FoldAttempts.AttemptsGrow` | crates/artifact/src/fold.rs:1242-1287 | the outcome-derived attempts of a record prefix are a prefix of those of the whole stream |
| `FoldAttempts.AttemptsStartWithOutcomes` | crates/artifact/src/fold.rs:1223-1327 | the published list is the outcome-derived attempts, then rows of zero elapsed time, and it covers the roster |
| `FoldPhases.AttemptHasPhases` | crates/artifact/src/fold.rs:1332-1406 | where offsets never step back, an attempt's phases are its waits after its own last start, for readiness, then admission, then for a retry the outcome before, each at most what is left, and the rest executing; without a start all are zero |
| `FoldPhases.UndisturbedExecutes` | crates/artifact/src/fold.rs:1360-1399 | an attempt with no record of its node between start and outcome has executed from the one to the other, retries included |
| `FoldPhases.ExecutedIsItsOutcomes` | crates/artifact/src/fold.rs:1643-1651 | a node's summed executing time is that of its outcomes, each from its own start |
| `FoldSummary.CoverageIsExact` | crates/artifact/src/fold.rs:1223-1327 | the artifact has a row for a node exactly when an outcome or a terminal record names it or the roster lists it |
| `FoldSummary.ElapsedIsLatest` | crates/artifact/src/fold.rs:1529-1531 | total elapsed time is the largest offset any record carries |
| `FoldSummary.PeakIsLargest` | crates/artifact/src/fold.rs:1533-1540 | the peak is the largest residency any outcome reports, 0 when none does |
| `FoldSummary.RetainedValuesMeanLastFlag` | crates/artifact/src/fold.rs:1542-1558 | a node is listed as retained exactly when the last outcome that sets its flag sets it to true |
| `FoldSummary.PinnedIsCappedSum` | crates/artifact/src/fold.rs:1560-1593 | for any outcome offsets the two abandoned figures are the sums over all zombies, stopping at the largest u64 |
| `FoldSummary.PinnedFigures` | crates/artifact/src/fold.rs:1560-1593 | the published figures sum capacity over all zombies and, over those whose attempt has an outcome, the time since the last one |
| `FoldSubmissions.AssembleSubmissions` | crates/artifact/src/fold.rs:1055-1114 | the merge and drain yield the list the meaning theorem describes |
| `FoldSubmissions.CollectOutcomes` | crates/artifact/src/fold.rs:1056-1069 | the outcome pass maps each pair to its last reported status |
| `FoldSubmissions.MergeRecords` | crates/artifact/src/fold.rs:1071-1108 | the merging pass keeps keys in first-appearance order and one merged entry per key |
| `FoldSubmissions.DrainOrder` | crates/artifact/src/fold.rs:1110-1113 | draining takes each key's entry once, in order |
| `FoldSubmissions.SubmissionsMeanTheirRecords` | crates/artifact/src/fold.rs:1055-1138 | one entry per distinct pair in first-appearance order; each field is the last value any of its records carries, the offset is the first record's, the outcome the last status reported anywhere in the stream |
| `FoldSubmissions.CompletedExactlyWhenReported` | crates/artifact/src/fold.rs:676-686 | a submission is completed exactly when some outcome record with a status exists for its pair |
| `FoldSubmissions.AppearancesAreKeys` | crates/artifact/src/fold.rs:1071-1108 | a pair has an entry exactly when some submission record carries it |
| `FoldSubmissions.AppearancesGrow` | crates/artifact/src/fold.rs:1071-1108 | the order of first appearance of a prefix is a prefix of the whole stream's |
| `Fold.RunFold` | crates/artifact/src/fold.rs:961-1038 | reading, classifying and assembling as methods yields the fold function the history and read-back theorems are about, refusals included |
| `Fold.CriticalPathNs` | crates/artifact/src/fold.rs:1640-1736 | the whole computation, maps, sort and nested loops, returns the forward pass proved optimal below |
| `Fold.SumContributions` | crates/artifact/src/fold.rs:1643-1651 | executing time is summed per node over all its attempts |
| `Fold.CollectBounds` | crates/artifact/src/fold.rs:1653-1686 | the passes collect the two offset maps whose entries `StreamBounds` proves to be the first readiness and the last outcome or terminal of each node |
| `Fold.ForwardPass` | crates/artifact/src/fold.rs:1711-1735 | the outer loop returns the best value of the pass over any visiting order |
| `Fold.AssembleSummary` | crates/artifact/src/fold.rs:1529-1608 | the summary's six figures are those whose meaning is proved separately |
| `CriticalPath.ForwardPassIsOptimal` | crates/artifact/src/fold.rs:1640-1736 | on well-timed input the result is the maximum summed executing time over all chains in which each node is terminal no later than the next is ready, attained by one that visits no node twice, whatever the name tie-break |
| `CriticalPath.NoChainOutweighs` | crates/artifact/src/fold.rs:1711-1735 | no chain weighs more than the value recorded for its last node; a tied predecessor visited later contributes nothing |
| `CriticalPath.ValuesAreAttained` | crates/artifact/src/fold.rs:1711-1735 | every recorded value is the weight of some chain of distinct visited nodes ending there |
| `CriticalPath.CriticalPathFitsTheRun` | crates/artifact/src/fold.rs:1730-1735 | the result never exceeds the elapsed time, so no addition overflows |
| `CriticalPath.OptimalExactlyWhenInOrder` | crates/artifact/src/fold.rs:1632-1639 | for fixed readiness and terminal offsets the pass gives the heaviest path of distinct nodes for every assignment of executing times if and only if any two nodes of one path are connected, through one node at most, in visiting order |
| `CriticalPath.OptimalExactlyWhenMutual` | crates/artifact/src/fold.rs:1632-1639 | where no node ends before it is ready, that is so if and only if any two nodes visited against their precedence precede each other |
| `CriticalPath.TiedIsUndercounted` | crates/artifact/src/fold.rs:1632-1639 | on two tied nodes visited the wrong way round the result is 1 where the path of both weighs 2 |
| `StreamTiming.WellFormedIsWellTimed` | crates/artifact/src/fold.rs:1640-1695 | on every well-formed stream each node's summed execution fits between its readiness and its terminal offset |
| `StreamTiming.CriticalPathIsOptimal` | crates/artifact/src/fold.rs:1610-1639 | on every well-formed stream the folded critical path is that maximum and at most the total elapsed time, below 2^64 |
| `StreamTiming.ContributionsFitTheRun` | crates/artifact/src/fold.rs:1643-1651 | each node's summed execution is at most the elapsed time, so summing cannot overflow |
| `StreamBounds.ReadinessIsFirst` | crates/artifact/src/fold.rs:1653-1674 | where offsets never step back the recorded readiness is the offset of the first node-ready |
| `StreamBounds.TerminalIsLast` | crates/artifact/src/fold.rs:1656-1686 | and the recorded end is the offset of the last outcome or terminal |
| `StreamBounds.BoundedWhenSeen` | crates/artifact/src/fold.rs:1653-1686 | a node has a readiness exactly when a node-ready names it, and an end exactly when an outcome or terminal does |
| `StreamBounds.NoDependencyPathOutweighs` | crates/artifact/src/fold.rs:1632-1639 | on a well-formed stream where every dependency ends before its dependent is ready, or ends if it never is, no dependency path executes longer than the folded critical path |
| `StreamBounds.LateReadyIsUndercounted` | crates/artifact/src/fold.rs:1632-1639 | every stream of a seven-record shape whose offsets never step back folds to a critical path of 1, although a dependency path executes for 2 |
| `StreamBounds.LateReadyExists` | crates/artifact/src/fold.rs:1632-1639 | such a stream exists |
| `FoldHistory.CrashKeepsHistory` | crates/artifact/src/fold.rs:961-1038 | the fold of any record prefix with a run-started agrees with the full fold on header, outcome-derived attempts and outputs, field for field, unless the run failed before execution |
| `FoldHistory.FoldOfACutKeepsHistory` | crates/artifact/src/fold.rs:961-1038 | the same for every byte cut of what a writer run got accepted |
| `FoldHistory.SubmissionsAreAdditive` | crates/artifact/src/fold.rs:74-91 | deleting every submission record changes no attempt, output or critical path; only the elapsed time can move |
| `FoldHistory.DocumentUnchangedExactlyWhen` | crates/artifact/src/fold.rs:86-91 | the published document is unchanged if and only if the run failed before execution or no submission is later than every other record |
| `FoldHistory.TrailingSubmissionChangesDocument` | crates/artifact/src/fold.rs:86-91 | a concrete two-record stream whose document a trailing submission changes |
| `FoldPayloads.EnvelopeSurvives` | crates/artifact/src/event_stream.rs:1164-1194 | no payload field of any event overwrites an envelope key |
| `FoldPayloads.FieldSurvives` | crates/artifact/src/event_stream.rs:1206-1262 | every payload field reads back from the record as written, absent ones as absent |
| `FoldPayloads.UnusedNameIsAbsent` | crates/artifact/src/event_stream.rs:1206-1262 | a record has no field its event's kind does not define |
| `FoldPayloads.HeaderRecovered` | crates/artifact/src/fold.rs:1213-1221 | the fold reads back the kind and offset the writer stamped |
| `FoldPayloads.AttemptOutcomeRecovered` | crates/artifact/src/fold.rs:1332-1441 | every attempt outcome written is recovered, whatever came before it; an absent worker reads as unknown, non-object metrics as empty, a recorded null as absent |
| `KnownTexts.Workers` | crates/artifact/src/fold.rs:1503-1525 | a worker is named by its own field, else by pool and thread, else as unknown |
| `KnownTexts.BareOutcome` | crates/artifact/src/fold.rs:1332-1441 | an outcome that says only its node folds to attempt 1, failed, by an unknown worker |
| `KnownTexts.BareTerminal` | crates/artifact/src/fold.rs:1453-1497 | a terminal record that says only its node, of one that never ran, becomes a zero row marked upstream-failed |
| `KnownTexts.FullTerminal` | crates/artifact/src/fold.rs:1453-1497 | and one that says more gives its state, message, error, reference, origin and originating node to that row |
| `KnownTexts.GraphOnly` | crates/artifact/src/fold.rs:1300-1326 | the row of a node only the graph lists is a zero row marked upstream-failed |
| `KnownTexts.BareRecord` | crates/artifact/src/fold.rs:1212-1220 | a record without an offset counts as made at 0, one without a kind is passed over |
| `KnownTexts.BareOutput` | crates/artifact/src/fold.rs:1168-1210 | an output record that says nothing is taken at its own offset, as of attempt 1 |
| `KnownTexts.Widths` | crates/artifact/src/fold.rs:1168-1220 | a number outside 64 or 32 bits reads as none, not as a wrapped one |
| `KnownTexts.Types` | crates/artifact/src/fold.rs:1542-1555 | a flag is read from a boolean alone |
| `KnownTexts.Endings` | crates/artifact/src/fold.rs:970-1001 | a run-finished without an outcome means success, and its errors are the texts it lists |
| `KnownTexts.ErrorsPublished` | crates/artifact/src/fold.rs:880-892 | a header that is no object publishes as one, with the outcome and the errors in order |
| `KnownTexts.ReaderPublished` | crates/artifact/src/fold.rs:923-930 | the document names the reader's version, the streams it accepts and whether the run was interrupted |
| `FoldPayloads.OutputRecovered` | crates/artifact/src/fold.rs:1168-1210 | every produced output written is recovered exactly |
| `FoldPayloads.SubmissionRecovered` | crates/artifact/src/fold.rs:1076-1104 | the first submission written for a pair is recovered exactly, with its offset |
| `FoldOfARun.AcceptedIsFolded` | crates/artifact/src/fold.rs:961-1038 | for every writer run, with any pattern of failures, the accepted bytes fold exactly when a run-started was accepted, and the fold recovers in order exactly the accepted attempt outcomes and exactly the accepted outputs, unless the run failed before execution |
| `PublishedRun.PublishedRunReadsBack` | crates/artifact/src/fold.rs:880-1038 | for every writer run whose accepted lines include a run-started: the accepted bytes fold, and the canonical text of the document parses to one whose header is that run-started's, says how the run ended (cancelled and interrupted without a run-finished), lists every attempt, output and summary figure under its name, and is read by a resume as what the run last said of each node |
| `PublishedRun.NodesRead` | crates/cli/src/contract.rs:1316-1389 | of every node a resume reads the state, reference, hash and origin of its last accepted outcome, without one its last terminal state, without either a roster node as upstream-failed, and of no other node anything |
| `PublishedRun.RowSaid` | crates/artifact/src/fold.rs:306-350 | an attempt's published row carries each field, the four phases among them, under its own name |
| `CivilDate.CivilStep` | crates/artifact/src/event_stream.rs:1396-1407 | consecutive day numbers, negative ones included, map to consecutive calendar dates under a recursively defined calendar |
| `CivilDate.CivilIsCalendar` | crates/artifact/src/event_stream.rs:1396-1407 | day n is the date n calendar successors after 1970-01-01 |
| `CivilDate.StampRecovers` | crates/artifact/src/event_stream.rs:1387-1407 | the fields count back to the instant exactly when its seconds fit an i64, beyond which they saturate |
| `CivilDate.TextSortsInTimeOrder` | crates/artifact/src/event_stream.rs:1387-1410 | up to year 9999 a later instant has a byte-wise later text |
| `CivilDate.ThreeStamps` | crates/artifact/src/event_stream.rs:1387-1410 | the epoch, a date in the middle of a year and a leap day with a time of day are spelled as the stamp's format says |
| `Sha256.FillSchedule` | crates/blob/src/digest.rs:213-225 | the in-place schedule loop fills the array with the standard's message schedule |
| `Sha256.RunRounds` | crates/blob/src/digest.rs:227-253 | the 64-step loop over the working array computes the standard's 64 rounds |
| `Sha256.Compress` | crates/blob/src/digest.rs:213-258 | one compression updates the state array to the standard's next hash value |
| `Sha256.Sha256.Update` | crates/blob/src/digest.rs:158-177 | absorbing appends the data to what was absorbed and counts its bits modulo 2^64, at any fill level |
| `Sha256.Sha256.UpdateRaw` | crates/blob/src/digest.rs:198-209 | padding bytes are absorbed without being counted |
| `Sha256.Sha256.Pad` | crates/blob/src/digest.rs:181-190 | the padding loop terminates and leaves exactly the standard's padded message, a whole number of blocks |
| `Sha256.Sha256.Finish` | crates/blob/src/digest.rs:181-196 | the result is the rendering of the hash of the padded message |
| `Sha256.HashPieces` | crates/blob/src/digest.rs:158-258 | for every way of cutting a message below 2^64 bits into updates, the result is the digest of sections 5.1.1 and 6.2.2 of FIPS 180-4 |
| `Sha256.ComputedIsDigest` | crates/blob/src/digest.rs:158-196 | what the hasher computes is the standard's digest on the standard's whole domain |
| `Sha256.HexIsInjective` | crates/blob/src/digest.rs:271-280 | distinct digests render as distinct hex |
| `Sha256Vectors.RoundConstantsAreCubeRoots` | crates/blob/src/digest.rs:41-108 | the 64 round constants are the first 32 bits of the fractional parts of the cube roots of the first 64 primes, in order |
| `Sha256Vectors.FirstPrimes` | crates/blob/src/digest.rs:41-42 | the list used is every prime below 312, ascending, and has 64 entries |
| `Sha256Vectors.InitialValueIsSquareRoots` | crates/blob/src/digest.rs:28-39 | the initial hash value is that of the square roots of the first eight |
| `Sha256Vectors.AbcDigest` | crates/blob/src/digest.rs:285-312 | the digest of the three octets of "abc" is the one the standard publishes, traced through the schedule and all 64 rounds |
| `Sha256Vectors.AbcKey` | crates/blob/src/store.rs:34-82 | the content address of that message, as text |
| `Hmac.ComputeHmac` | crates/blob/src/hmac.rs:34-62 | padding in place and driving two hashers computes section 2 of RFC 2104 for every key length, above 64 bytes included |
| `Hmac.SignsWithItsPads` | crates/blob/src/hmac.rs:34-62 | for a key of at most a block the message is hashed behind the zero-filled key with 0x36 flipped in and that digest behind it with 0x5c flipped in |
| `Hmac.LongKeySignsAsDigest` | crates/blob/src/hmac.rs:36-45 | a key longer than a block signs as its digest does |
| `BlobRef.ComputedKeysAreValid` | crates/blob/src/store.rs:34-82 | every computed key is accepted back from its parts, and matches exactly the bytes with its digest |
| `BlobRef.ParsePrints` | crates/blob/src/store.rs:132-198 | a printed reference with a non-empty `://`-free backend, a non-empty container (slashes allowed) and a valid key parses back to itself |
| `BlobRef.PrintParses` | crates/blob/src/store.rs:132-198 | every accepted text is printed back unchanged |
| `BlobRef.RoundTripsExactly` | crates/blob/src/store.rs:132-198 | a reference survives printing and parsing if and only if it is of that form |
| `BlobRef.OneTextPerReference` | crates/blob/src/store.rs:132-198 | two accepted texts naming one reference are one text |
| `KnownTexts.FileReference` | crates/blob/src/store.rs:92-101 | a reference to a file store is spelled and parsed as its documentation shows |
| `LocalStore.StepKeepsInv` | crates/blob/src/local.rs:98-151 | every step of every writer, deleter, per-directory write-back and crash keeps all objects whole in both views of the directories |
| `LocalStore.EveryRunKeepsInv` | crates/blob/src/local.rs:98-151 | hence every reachable state, over any interleaving with a crash possible at every step |
| `LocalStore.ObjectLiesUnder` | crates/blob/src/local.rs:80-88 | an object lies under the root, the algorithm, its first two and its first four digits |
| `LocalStore.TempNameSpelled` | crates/blob/src/local.rs:112-124 | a temp name is the hidden one its format says |
| `LocalStore.FailedPutLeavesNothing` | crates/blob/src/local.rs:126-142 | a put that fails before its rename removes its temp file and touches nothing else |
| `LocalStore.GetIsAbsentOrWhole` | crates/blob/src/local.rs:186-197 | in every reachable state a read of a valid key finds nothing or the whole bytes of some put hashing to the key, never a partial or foreign object |
| `LocalStore.GetReturnsThePut` | crates/blob/src/local.rs:174-197 | where the digest tells the values put apart, a key yields nothing or exactly its own bytes |
| `LocalStore.GetChecksTheBytes` | crates/blob/src/local.rs:186-197 | on any disk bytes that hash to another key are refused as corrupt, and only a missing object is absent |
| `LocalStore.DeletedReadsAbsent` | crates/blob/src/local.rs:264-275 | after a delete the key reads absent and every other key as before |
| `LocalStore.SyncedPutSurvives` | crates/blob/src/local.rs:126-151 | once the directory fsync behind a put succeeds in a leaf whose path is durable, no later step but a delete of that key, and no crash, loses the object |
| `LocalStore.SurvivesExactlyWhen` | crates/blob/src/local.rs:98-151 | over every run before and after, short of its directory's entries becoming durable otherwise, an object just put is read after a crash if and only if its directory fsync succeeded or its name was durable before, and the path to the directory was durable when the machine crashed |
| `LocalStore.FirstPutIsLost` | crates/blob/src/local.rs:98-151 | one put alone, whether or not its directory fsync succeeded, is read back before a crash and absent after it |
| `LocalStore.SwallowedSyncFailure` | crates/blob/src/local.rs:144-150 | one put, its directories made durable, then a crash: kept when the directory fsync succeeded, absent when its failure was swallowed, although the put returned success |
| `LocalStore.Head` | crates/blob/src/local.rs:199-223 | whatever the read sizes, the chunked hash equals the key of the whole bytes and the size is their number; absence is reported exactly for a missing object |
| `LocalStore.CollectObjects` | crates/blob/src/local.rs:281-298 | the recursive walk pushes exactly the content-addressed files beneath, and fails exactly when an entry cannot be read |
| `LocalStore.List` | crates/blob/src/local.rs:239-262 | a container never written to holds nothing; otherwise the listing is a sorted permutation of the objects |
| `LocalStore.ObjectsAreTheHashNamedFiles` | crates/blob/src/local.rs:278-298 | a name is collected exactly when it is a content address and some file beneath has it |
| `LocalStore.ListingIsExact` | crates/blob/src/local.rs:226-262 | in every reachable state the listing names exactly the objects that can be read whole, and never temp debris |
| `BlobGc.Reachability.CollectReferences` | crates/cli/src/blob_gc.rs:382-409 | walking a document extends the reachable set by its references and nothing else |
| `BlobGc.ReferencesAreTheLeaves` | crates/cli/src/blob_gc.rs:374-409 | an address counts exactly when some string at any depth parses as a reference to this backend and container |
| `BlobGc.Reachability.WalkRunStore` | crates/cli/src/blob_gc.rs:320-372 | the recursive walk extends the two collections by what it reads, or stops with the first refusal in name order |
| `BlobGc.WalkReads` | crates/cli/src/blob_gc.rs:315-372 | after a successful walk the artifacts read are exactly those of the topmost directories the probes show to be runs, each folded and parsed, and every reference in them counts |
| `BlobGc.WalkOnlyReads` | crates/cli/src/blob_gc.rs:315-372 | nothing counts as reachable that no such artifact names |
| `BlobGc.WalkRefuses` | crates/cli/src/blob_gc.rs:320-360 | a refusal names a visible directory with an unfolded run, an unreadable artifact or no listing |
| `BlobGc.WalkNeverPassesTrouble` | crates/cli/src/blob_gc.rs:320-360 | and no walk succeeds past a directory whose trouble the probes show |
| `BlobGc.ReadsEveryRunUnlessHidden` | crates/cli/src/blob_gc.rs:320-366 | a successful walk has read every topmost run directory if and only if each shows as a run to the presence probes and none lies behind an entry the listing drops |
| `BlobGc.DroppedRunIsMissed` | crates/cli/src/blob_gc.rs:361-366 | a concrete store whose only run the walk misses while succeeding |
| `BlobGc.MaskedRunIsMissed` | crates/cli/src/blob_gc.rs:328-346 | a concrete run whose presence probes fail and whose entries are dropped is missed while the walk succeeds |
| `BlobGc.ReachableIsReferenced` | crates/cli/src/blob_gc.rs:248-268 | the reachable set is exactly the blobs of this container named in any string of any artifact the probes show |
| `BlobGc.NamedIsReferenced` | crates/cli/src/blob_gc.rs:248-268 | where no run is hidden that is every blob any run artifact names, shown or not |
| `BlobGc.PlanReclaim` | crates/cli/src/blob_gc.rs:248-289 | a plan lists, sorted, exactly what is held and unreferenced; it refuses exactly on a missing base, a refusing walk or a failed listing |
| `BlobGc.ApplyReclaim` | crates/cli/src/blob_gc.rs:298-313 | deletion removes the plan's blobs in order up to the first failure, which it names, and touches nothing else |
| `BlobGc.Reclaim` | crates/cli/src/blob_gc.rs:486-549 | however a reclaim ends every blob referenced by an artifact the probes show is stored unchanged, where no run is hidden every blob any run artifact names is, and nothing appears; dry runs and refusals change nothing; a completed delete leaves exactly what was held and is referenced |
| `BlobGc.ReclaimAgain` | crates/cli/src/blob_gc.rs:291-297 | replanning after a completed reclaim succeeds or only fails to list, and finds nothing |
| `ReclaimAfterFold.RecordedIsInDocument` | crates/artifact/src/fold.rs:880-935 | the reference an emitted outcome or output names is a string of the folded document |
| `ReclaimAfterFold.RecordedBlobIsReferenced` | crates/cli/src/blob_gc.rs:10-40 | emitting, folding, writing canonically and walking: a blob a run recorded counts as referenced, so no reclaim removes it |
| `S3Listing.DecodingInvertsEscaping` | crates/blob/src/s3.rs:586-592 | the five replacements in order give back every string from any escaping that section 4.6 of XML 1.0 allows |
| `KnownTexts.FiveEntities` | crates/blob/src/s3.rs:586-592 | each of the five entities, by name, decodes to its own character |
| `S3Listing.CollectValues` | crates/blob/src/s3.rs:571-583 | the scan loop computes the scan function the exactness theorem is about |
| `S3Listing.ScanIsExact` | crates/blob/src/s3.rs:562-583 | on a page where the named elements are flat the scan finds the decoded text of every one, in order, and nothing else |
| `KnownTexts.PageText` | crates/blob/src/s3.rs:562-583 | a page listing one object and a next page is spelled with the element names the scan looks for |
| `S3Listing.ObjectKeysInvert` | crates/blob/src/s3.rs:197-217 | an object key is taken for a blob if and only if it is where that blob is stored under this configuration |
| `KnownTexts.BucketLayout` | crates/blob/src/s3.rs:188-217 | object keys and containers with and without a prefix are spelled as the configuration's documentation shows |
| `S3Listing.ContainerRoundTrips` | crates/blob/src/s3.rs:147-194 | reading a container back gives the same bucket and prefix exactly when the bucket is non-empty and has no slash |
| `S3Listing.KeepBlobs` | crates/blob/src/s3.rs:465-469 | one page's keys are filtered to exactly the blobs among them |
| `S3Listing.List` | crates/blob/src/s3.rs:439-481 | following every page yields, strictly ascending, exactly the valid keys whose object key some page holds; a missing page yields nothing, any other failure an error |
| `S3Listing.FollowingRecoversEveryPage` | crates/blob/src/s3.rs:439-476 | for a container served in any number of flat pages, the object keys read are those of all pages, unescaped, in order |
| `S3Listing.ListingRecoversContainer` | crates/blob/src/s3.rs:439-481 | for a container served in any number of flat pages the listing names exactly the valid keys whose object key some page holds |
| `S3Listing.ListingIsWholeExactlyWhen` | crates/blob/src/s3.rs:460-463 | where no request fails otherwise the listing names every blob some served page holds if and only if no request after the first gets a 404 or the served pages hold no blob |
| `S3Listing.VanishingPageEmptiesListing` | crates/blob/src/s3.rs:460-463 | a concrete two-page server whose second page is gone: the blob on the first is served and the listing is empty |
| `S3Listing.Dedup` | crates/blob/src/s3.rs:477-479 | removing adjacent duplicates of a sorted list keeps its elements and leaves them strictly ascending |
| `ResumePlan.ComputeSeed` | crates/core/src/resume.rs:515-530 | the seed is every node without a prior success and every node a teardown covers |
| `ResumePlan.UpstreamMeans` | crates/core/src/resume.rs:489-502 | a node's upstreams are its data inputs and the nodes ordered before it |
| `ResumePlan.ReferenceMeans` | crates/core/src/resume.rs:568-631 | a value can be rehydrated exactly from the reference a durable node recorded when it succeeded |
| `ResumePlan.TroubleMeans` | crates/core/src/resume.rs:568-631 | probing refuses exactly a value that is gone or whose contents changed since their hash was recorded |
| `ResumePlan.CloseDownward` | crates/core/src/resume.rs:561-566 | the single downward sweep, in name order, computes the sweep the rounds are built from |
| `ResumePlan.DemandUpward` | crates/core/src/resume.rs:568-631 | one pass adds exactly the wanted producers that cannot be rehydrated, rehydrates exactly the others, and refuses only on a probe of a wanted producer |
| `ResumePlan.ResolveDemand` | crates/core/src/resume.rs:542-638 | the rounds terminate; the must-run set is the least set holding the seed, closed downstream and under inputs that cannot be rehydrated; what is rehydrated is what some round wanted; a refusal is a troubled probe of such a producer |
| `ResumePlan.MustRunIsUnique` | crates/core/src/resume.rs:542-638 | there is only one such set, so the node order cannot matter to it |
| `ResumeTrails.MustRunIsTheTrails` | crates/core/src/resume.rs:542-638 | a node is in the must-run set exactly when a trail of downstream steps and unmet demands leads to it from the seed |
| `ResumePlan.RehydratedIsNeededOrRunsAgain` | crates/core/src/resume.rs:366-375 | every value a re-running node needs from a node that does not re-run is rehydrated; whatever else is rehydrated runs again |
| `ResumeTrails.DisjointExactlyWhenNoneReachedLater` | crates/core/src/resume.rs:366-375 | nothing rehydrated runs again if and only if no producer whose value can be rehydrated is reached by trails through the graph that all wait longer than one to a consumer of it |
| `ResumePlan.DisjointWhenNoneContested` | crates/core/src/resume.rs:366-375 | a condition that ignores names suffices: nothing rehydrated runs again where no node is rehydratable, in every closed set, and wanted by a consumer that is in every set closed but for that node |
| `ResumePlan.DiamondIsOvertaken` | crates/core/src/resume.rs:366-375 | a concrete graph where a rehydrated node is in every closed set |
| `ResumePlan.TheNameDecides` | crates/core/src/resume.rs:366-375 | two graphs differing in one node's name, both contested at it: under one name it is rehydrated and runs again, under the other nothing is ever rehydrated |
| `ResumePlan.MarkSatisfied` | crates/core/src/resume.rs:642-658 | the successes left outside the must-run set are mapped to their recorded origin |
| `ResumePlan.PlanResume` | crates/core/src/resume.rs:412-465 | the gate refuses in its order; otherwise the plan is the seed, the least must-run set, the remaining successes under their origins, and the rehydrated references |
| `ResumePlan.EveryNodeGoesOneWay` | crates/core/src/resume.rs:640-658 | every node is either in the must-run set or satisfied from the prior run, never both or neither |
| `ResumePlan.NothingToDo` | crates/core/src/resume.rs:54-58 | the plan is empty exactly when every node succeeded and no teardown covers one |
| `ResumePlan.CarriedForwardRunsAgain` | crates/core/src/resume.rs:103-107 | a node recorded as satisfied from a prior run is in every plan's must-run set |
| `Resume.DeriveParameters` | crates/cli/src/contract.rs:1251-1279 | the result is the prior parameters overlaid by the overrides; it is refused exactly on an unforced conflict, naming the first; force is recorded exactly when there was a conflict |
| `Resume.NoConflictMeansKept` | crates/cli/src/contract.rs:1251-1279 | there is no conflict exactly when the overrides change nothing the prior run had set |
| `Resume.DeriveInterval` | crates/cli/src/contract.rs:1283-1302 | the same discipline for the interval, a null prior conflicting with nothing |
| `Resume.IntervalSays` | crates/cli/src/contract.rs:1288-1291 | a supplied interval is recorded with its start and its end under those names |
| `Resume.BuildPriorRun` | crates/cli/src/contract.rs:1316-1389 | the loop reads the prior facts the read-back theorems are about, the last attempt of a node speaking for it |
| `Resume.PriorFactsRead` | crates/cli/src/contract.rs:1316-1389 | the fingerprints, their algorithm and the tool are read each from its own field, a fingerprint as the hexadecimal number after the last colon |
| `Resume.StateReadsBack` | crates/cli/src/contract.rs:1403-1415 | the reader of a recorded state gives back every state written |
| `Resume.BuildResumedArtifact` | crates/cli/src/contract.rs:1429-1557 | the loop builds the artifact the chain theorems are about |
| `Resume.HeaderReadsBack` | crates/cli/src/contract.rs:1439-1496 | written and read back, a resumed artifact has the settled run id and parameters, its immediate predecessor as parent and that one's root as root |
| `Resume.SettledReadsBack` | crates/cli/src/contract.rs:1439-1496 | a resumed header says the interval, the tool and whether force was used, and takes over pipeline, fingerprints and environment |
| `Resume.NodesReadBack` | crates/cli/src/contract.rs:1498-1548 | what the next resume reads is exactly the satisfied nodes, each with the reference, hash and origin it had |
| `Resume.OutputsReadBack` | crates/cli/src/contract.rs:1498-1548 | a resumed artifact lists as outputs exactly the satisfied nodes' references, in order, each with its hash and under the run it originates in |
| `Resume.CarriedRowSays` | crates/cli/src/contract.rs:1508-1521 | a carried node's row says satisfied-from-prior, by the resume, from its origin and in no time |
| `Resume.ChainKeepsReferences` | crates/cli/src/contract.rs:1347-1389 | of the artifacts alone, conditional on plans that satisfy the node every time: it keeps its durable reference, content hash and first producing run over a chain of any length |
| `Resume.ChainKeepsLineage` | crates/cli/src/contract.rs:1439-1446 | over a chain of any length the root stays the first run's and the parent is the immediate predecessor |
| `Resume.ChainKeepsParameters` | crates/cli/src/contract.rs:1230-1279 | over a chain of any length the parameters are the first run's overlaid by every accepted override in turn |
| `Resume.NothingIsCarriedTwice` | crates/cli/src/contract.rs:1403-1415 | over what a resumed artifact reads back as, every plan re-runs every node and satisfies none |
| `Resume.RealChainCarriesOnce` | crates/core/src/resume.rs:103-107 | over chains of any length in which every resume follows its plan, a satisfied node had succeeded in the artifact read and keeps its origin, is in the next plan's must-run set, and from the second resume on had run itself just before, whose run is its origin |
| `Resume.CompletedContinues` | crates/cli/src/contract.rs:1498-1548 | carried records followed by the attempts made continue such a chain, and every satisfied node keeps its reference, hash and origin |
| `Resume.StreamedHeaderHasNoRoot` | crates/artifact/src/event_stream.rs:1305-1314 | the header the writer streams for a resumed run carries no lineage root, so the root survives only through the artifact built by resume |

## Left out

- `CanonicalProofs.ParseUndoesPrint`: integer numbers only; the parser refuses fractions, exponents and `-0` (`KnownTexts.NumbersRead`), because float formatting is a library's.
- `ReadRecords.ReadRecords`: reads octets, so a line that is JSON but for invalid UTF-8 is accepted here and refused by `serde_json`; nor is `serde_json`'s recursion limit of 128 modelled.
- `EventStream.RunIsGapless`: the sequence number is unbounded; a wrap at 2^64 records is not modelled.
- `StreamTiming.ContributionsFitTheRun`: sums in the fold are unbounded; that they fit 64 bits is proved for well-formed streams, and what an overflow does on others is not modelled.
- `LocalStore.Head`: the file does not change while it is read.
- `BlobGc.PlanReclaim`: the final sort of the artifact paths and the rendered listing are not modelled, nor are symbolic links.
- `S3Listing.List`: the server answers a continuation token the same way each time, so a bucket changing during a listing is not modelled. HTTP, request signing, the retry loop of `send` and its delays are outside: a reply is a page, a 404, or a failure once retries are spent.
- `S3Listing.ScanIsExact`: character references and attributes on the two elements read make a page not flat, and such pages are not covered.
- `Resume.ChainKeepsReferences`: its premise that every plan satisfies the node is met by the planner for one resume at most; what real plans leave is `Resume.RealChainCarriesOnce`.
- `ResumePlan.DisjointWhenNoneContested`: one direction, since no condition that ignores names is exact; the exact one is `ResumeTrails.DisjointExactlyWhenNoneReachedLater`.
- `ResumePlan.PlanResume`: how a pipeline is turned into the graph of data inputs and upstreams, and how fingerprints are computed, are inputs.
- `sort_by`, `sort` and `dedup` of the standard library are an insertion sort and a recursive function with the same results.
- Collision resistance of SHA-256; of its published vectors only the one-block message is traced.
- Renderers, configuration, readiness and admission, the driver, Kubernetes adoption and the metastore: not part of this model.
