/** Blob reclaim by reachability: everything a container holds, minus everything the
    retained run artifacts point at. */
module BlobGc {
  import opened Text
  import opened Json
  import opened JsonParser
  import opened Sha256
  import opened BlobRef

  // ---- The run store -------------------------------------------------------

  type Path = seq<string>

  /** A directory's `run.json`: none, one that cannot be read, or its text. */
  datatype Artifact = NoArtifact | Unreadable | Written(text: string)

  /** A directory: its artifact, whether it has an event stream, whether it can be listed,
      and its entries. Asking whether a file is there answers no when the question fails:
      `artifactStat` and `eventsStat` say whether each probe can be answered at all. */
  datatype Node =
    | NotDir
    | Dir(artifact: Artifact, artifactStat: bool, events: bool, eventsStat: bool, readable: bool,
          entries: map<string, Entry>)

  /** A `Dropped` entry cannot be read or probed; a listing silently leaves it out. */
  datatype Entry = Listed(node: Node) | Dropped(node: Node)

  /** A run directory: one holding a run artifact or an event stream. */
  predicate IsRun(d: Node) { d.Dir? && (d.artifact != NoArtifact || d.events) }

  /** The artifact the probe shows. */
  function SeenArtifact(d: Node): Artifact
    requires d.Dir?
  {
    if d.artifactStat then d.artifact else NoArtifact
  }

  predicate SeenEvents(d: Node)
    requires d.Dir?
  {
    d.events && d.eventsStat
  }

  /** What the probes take for a run directory. */
  predicate ShowsRun(d: Node) { d.Dir? && (SeenArtifact(d) != NoArtifact || SeenEvents(d)) }

  function DocumentIn(d: Node): Option<Json> {
    if d.Dir? && d.artifact.Written? then ParseText(d.artifact.text) else None
  }

  function NodeAt(d: Node, path: Path): Option<Node> {
    if path == [] then Some(d)
    else if d.Dir? && path[0] in d.entries then NodeAt(d.entries[path[0]].node, path[1..])
    else None
  }

  /** What lies at a path, going through no shown run directory and no dropped entry. */
  function Visible(d: Node, path: Path): Option<Node> {
    if path == [] then Some(d)
    else if d.Dir? && !ShowsRun(d) && path[0] in d.entries && d.entries[path[0]].Listed? then
      Visible(d.entries[path[0]].node, path[1..])
    else None
  }

  predicate VisibleRun(d: Node, path: Path) { Visible(d, path).Some? && ShowsRun(Visible(d, path).value) }

  /** A topmost run directory, whatever the probes and the listing show of it. */
  predicate RunAt(d: Node, path: Path) {
    if path == [] then IsRun(d)
    else d.Dir? && !IsRun(d) && path[0] in d.entries && RunAt(d.entries[path[0]].node, path[1..])
  }

  /** Some topmost run directory does not show as one, or lies behind a dropped entry. */
  ghost predicate HidesARun(d: Node) {
    if IsRun(d) then !ShowsRun(d)
    else
      && d.Dir?
      && exists n <- d.entries.Keys ::
           match d.entries[n]
           case Dropped(node) => exists p :: RunAt(node, p)
           case Listed(node) => HidesARun(node)
  }

  // ---- References ----------------------------------------------------------

  /** The text is a string somewhere in the value: at a leaf, never a field name. */
  predicate StringLeaf(v: Json, text: string) {
    match v
    case JStr(s) => s == text
    case JArr(items) => exists item <- items :: StringLeaf(item, text)
    case JObj(fields) => exists k <- fields.Keys :: StringLeaf(fields[k], text)
    case _ => false
  }

  /** The address a text names in this container, if any. */
  function AddressIn(text: string, backend: string, container: string): set<string> {
    match Parse(text)
    case Ok(r) => if r.backend == backend && r.container == container then {r.key.hex} else {}
    case Err(_) => {}
  }

  function References(v: Json, backend: string, container: string): set<string> {
    match v
    case JStr(text) => AddressIn(text, backend, container)
    case JArr(items) => ReferencesOfAll(items, backend, container)
    case JObj(fields) => set k, hex | k in fields && hex in References(fields[k], backend, container) :: hex
    case _ => {}
  }

  function ReferencesOfAll(items: seq<Json>, backend: string, container: string): set<string> {
    if items == [] then {}
    else
      ReferencesOfAll(items[..|items| - 1], backend, container)
      + References(items[|items| - 1], backend, container)
  }

  /** Every string leaf that parses as a reference to this container counts, and nothing else. */
  lemma {:induction false} ReferencesAreTheLeaves(v: Json, backend: string, container: string, hex: string)
    ensures hex in References(v, backend, container) <==>
            exists text :: StringLeaf(v, text) && hex in AddressIn(text, backend, container)
  {
    hide AddressIn;
    match v
    case JStr(text) => assert StringLeaf(v, text);
    case JArr(items) => ReferencesOfAllAreTheLeaves(items, backend, container, hex);
    case JObj(fields) =>
      forall k | k in fields
        ensures hex in References(fields[k], backend, container) <==>
                exists text :: StringLeaf(fields[k], text) && hex in AddressIn(text, backend, container)
      {
        ReferencesAreTheLeaves(fields[k], backend, container, hex);
      }
    case _ =>
  }

  lemma {:induction false} ReferencesOfAllAreTheLeaves(items: seq<Json>, backend: string, container: string,
          hex: string)
    ensures hex in ReferencesOfAll(items, backend, container) <==>
            exists text :: (exists item <- items :: StringLeaf(item, text))
                && hex in AddressIn(text, backend, container)
  {
    hide AddressIn, StringLeaf, References;
    if items != [] {
      var n := |items| - 1;
      ReferencesOfAllAreTheLeaves(items[..n], backend, container, hex);
      ReferencesAreTheLeaves(items[n], backend, container, hex);
      assert items == items[..n] + [items[n]];
    }
  }

  // ---- Walking -------------------------------------------------------------

  datatype Refusal =
    | MissingStoreBase
    | UnreadableArtifact(path: Path)
    | UnfoldedRun(path: Path)
    | StoreUnreadable
    | DeleteFailed(hex: string)

  datatype Found = Found(artifacts: seq<Path>, reachable: set<string>)

  predicate IsSubdir(d: Node, n: string)
    requires d.Dir?
  {
    n in d.entries && d.entries[n].Listed? && d.entries[n].node.Dir?
  }

  function DirNames(d: Node): (names: seq<string>)
    requires d.Dir?
    ensures forall n :: n in names <==> IsSubdir(d, n)
  {
    Sorted(set n | n in d.entries && IsSubdir(d, n))
  }

  /** What a walk from `d` reads, or the first reason it stops. */
  function Walk(d: Node, path: Path, backend: string, container: string): Result<Found, Refusal>
    requires d.Dir?
    decreases d, 1
  {
    match SeenArtifact(d)
    case Unreadable => Err(UnreadableArtifact(path))
    case Written(text) =>
      (match ParseText(text)
       case None => Err(UnreadableArtifact(path))
       case Some(v) => Ok(Found([path], References(v, backend, container))))
    case NoArtifact =>
      if SeenEvents(d) then Err(UnfoldedRun(path))
      else if !d.readable then Err(UnreadableArtifact(path))
      else WalkNames(d, DirNames(d), path, backend, container)
  }

  function WalkNames(d: Node, names: seq<string>, path: Path, backend: string, container: string): Result<Found,
          Refusal>
    requires d.Dir? && forall n <- names :: IsSubdir(d, n)
    decreases d, 0, |names|
  {
    if names == [] then Ok(Found([], {}))
    else
      var last := names[|names| - 1];
      assert last in names && IsSubdir(d, last);
      match WalkNames(d, names[..|names| - 1], path, backend, container)
      case Err(e) => Err(e)
      case Ok(before) =>
        match Walk(d.entries[last].node, path + [last], backend, container)
        case Err(e) => Err(e)
        case Ok(found) => Ok(Found(before.artifacts + found.artifacts, before.reachable + found.reachable))
  }

  /** The references of some of an object's fields, taken in order. */
  function ReferencesUnder(fields: map<string, Json>, keys: seq<string>, backend: string,
          container: string): set<string>
    requires forall k <- keys :: k in fields
  {
    if keys == [] then {}
    else
      ReferencesUnder(fields, keys[..|keys| - 1], backend, container)
      + References(fields[keys[|keys| - 1]], backend, container)
  }

  lemma {:induction false} UnderIsUnion(fields: map<string, Json>, keys: seq<string>, backend: string,
          container: string, hex: string)
    requires forall k <- keys :: k in fields
    ensures hex in ReferencesUnder(fields, keys, backend, container) <==>
            exists k <- keys :: hex in References(fields[k], backend, container)
  {
    hide References;
    if keys != [] {
      var n := |keys| - 1;
      UnderIsUnion(fields, keys[..n], backend, container, hex);
      assert keys == keys[..n] + [keys[n]];
    }
  }

  lemma FieldsCovered(fields: map<string, Json>, keys: seq<string>, backend: string, container: string)
    requires forall k :: k in keys <==> k in fields
    ensures References(JObj(fields), backend, container) == ReferencesUnder(fields, keys, backend, container)
  {
    hide AddressIn, ReferencesUnder;
    forall hex
      ensures hex in References(JObj(fields), backend, container) <==>
                hex in ReferencesUnder(fields, keys, backend, container)
    {
      UnderIsUnion(fields, keys, backend, container, hex);
    }
  }

  /** The two collections a walk extends. */
  class Reachability {
    var artifacts: seq<Path>
    var reachable: set<string>

    constructor ()
      ensures artifacts == [] && reachable == {}
    {
      artifacts, reachable := [], {};
    }

    /** `collect_references`: the whole document, so that no new field can hide a reference. */
    method CollectReferences(value: Json, backend: string, container: string)
      modifies this`reachable
      ensures reachable == old(reachable) + References(value, backend, container)
      decreases value, 1
    {
      hide Parse, ReferencesOfAll;
      match value
      case JStr(text) =>
        var parsed := Parse(text);
        if parsed.Ok? && parsed.value.backend == backend && parsed.value.container == container {
          reachable := reachable + {parsed.value.key.hex};
        }
      case JArr(items) => CollectItems(value, backend, container);
      case JObj(fields) => CollectFields(value, backend, container);
      case _ =>
    }

    method CollectItems(value: Json, backend: string, container: string)
      requires value.JArr?
      modifies this`reachable
      ensures reachable == old(reachable) + ReferencesOfAll(value.items, backend, container)
      decreases value, 0
    {
      hide References;
      var items := value.items;
      for i := 0 to |items|
        invariant reachable == old(reachable) + ReferencesOfAll(items[..i], backend, container)
      {
        assert items[..i + 1][..i] == items[..i];
        CollectReferences(items[i], backend, container);
      }
      assert items[..|items|] == items;
    }

    method CollectFields(value: Json, backend: string, container: string)
      requires value.JObj?
      modifies this`reachable
      ensures reachable == old(reachable) + References(value, backend, container)
      decreases value, 0
    {
      hide References, Sorted;
      var fields, keys := value.fields, Sorted(value.fields.Keys);
      for i := 0 to |keys|
        invariant reachable == old(reachable) + ReferencesUnder(fields, keys[..i], backend, container)
      {
        assert keys[..i + 1][..i] == keys[..i];
        CollectReferences(fields[keys[i]], backend, container);
      }
      assert keys[..|keys|] == keys;
      FieldsCovered(fields, keys, backend, container);
    }

    /** `walk_run_store`: read the artifact of every run directory beneath `d`. */
    method WalkRunStore(d: Node, path: Path, backend: string, container: string) returns (refusal: Option<Refusal>)
      requires d.Dir?
      modifies this
      ensures match Walk(d, path, backend, container)
              case Err(e) => refusal == Some(e)
              case Ok(found) =>
                && refusal == None
                && artifacts == old(artifacts) + found.artifacts
                && reachable == old(reachable) + found.reachable
      decreases d
    {
      hide ParseText, References, DirNames;
      match SeenArtifact(d)
      case Unreadable => return Some(UnreadableArtifact(path));
      case Written(text) =>
        var value := ParseText(text);
        if value.None? { return Some(UnreadableArtifact(path)); }
        CollectReferences(value.value, backend, container);
        artifacts := artifacts + [path];
        return None;
      case NoArtifact =>
        if SeenEvents(d) { return Some(UnfoldedRun(path)); }
        if !d.readable { return Some(UnreadableArtifact(path)); }
        var names := DirNames(d);
        for i := 0 to |names|
          invariant WalkNames(d, names[..i], path, backend, container).Ok?
          invariant artifacts == old(artifacts) + WalkNames(d, names[..i], path, backend, container).value.artifacts
          invariant reachable == old(reachable) + WalkNames(d, names[..i], path, backend, container).value.reachable
        {
          assert names[..i + 1][..i] == names[..i] && names[i] in names;
          refusal := WalkRunStore(d.entries[names[i]].node, path + [names[i]], backend, container);
          if refusal.Some? {
            WalkStops(d, names, i, path, backend, container);
            return;
          }
        }
        assert names[..|names|] == names;
        return None;
    }
  }

  lemma {:induction false} WalkStops(d: Node, names: seq<string>, i: nat, path: Path, backend: string,
          container: string)
    requires d.Dir? && forall n <- names :: IsSubdir(d, n)
    requires i < |names| && WalkNames(d, names[..i + 1], path, backend, container).Err?
    ensures WalkNames(d, names, path, backend, container) == WalkNames(d, names[..i + 1], path, backend, container)
    decreases |names|
  {
    hide Walk;
    if |names| == i + 1 {
      assert names[..i + 1] == names;
    } else {
      assert names[..|names| - 1][..i + 1] == names[..i + 1];
      WalkStops(d, names[..|names| - 1], i, path, backend, container);
    }
  }

  // ---- What a walk establishes ---------------------------------------------

  lemma {:induction false} NamesFound(d: Node, names: seq<string>, path: Path, backend: string, container: string)
    requires d.Dir? && forall n <- names :: IsSubdir(d, n)
    requires WalkNames(d, names, path, backend, container).Ok?
    ensures forall n <- names :: Walk(d.entries[n].node, path + [n], backend, container).Ok?
    ensures forall a :: a in WalkNames(d, names, path, backend, container).value.artifacts <==>
                        exists n <- names :: a in Walk(d.entries[n].node, path + [n], backend,
                            container).value.artifacts
    ensures forall h :: h in WalkNames(d, names, path, backend, container).value.reachable <==>
                        exists n <- names :: h in Walk(d.entries[n].node, path + [n], backend,
                            container).value.reachable
    decreases |names|
  {
    hide Walk;
    if names != [] {
      var k := |names| - 1;
      NamesFound(d, names[..k], path, backend, container);
      assert names == names[..k] + [names[k]];
    }
  }

  lemma {:induction false} ArtifactsLieBelow(d: Node, path: Path, backend: string, container: string, a: Path)
    requires d.Dir? && Walk(d, path, backend, container).Ok?
    requires a in Walk(d, path, backend, container).value.artifacts
    ensures |path| <= |a| && a[..|path|] == path
    decreases d
  {
    hide ParseText, References, WalkNames, Sorted;
    if SeenArtifact(d) == NoArtifact {
      NamesFound(d, DirNames(d), path, backend, container);
      var n :| n in DirNames(d) && a in Walk(d.entries[n].node, path + [n], backend, container).value.artifacts;
      ArtifactsLieBelow(d.entries[n].node, path + [n], backend, container, a);
      assert a[..|path|] == (path + [n])[..|path|];
    }
  }

  /** **Every visible run was read**: when a walk succeeds, the artifacts it read are exactly
      the topmost run directories it can see, each of them folded and parsed, and every
      reference in them counts. */
  lemma {:induction false} WalkReads(d: Node, path: Path, backend: string, container: string, p: Path)
    requires d.Dir? && Walk(d, path, backend, container).Ok?
    ensures path + p in Walk(d, path, backend, container).value.artifacts <==> VisibleRun(d, p)
    ensures VisibleRun(d, p) ==>
              && DocumentIn(Visible(d, p).value).Some?
              && References(DocumentIn(Visible(d, p).value).value, backend, container)
                 <= Walk(d, path, backend, container).value.reachable
    decreases d
  {
    hide ParseText, References, WalkNames, Sorted;
    if ShowsRun(d) {
      assert p == [] <==> path + p == path by { assert |path + p| == |path| + |p|; }
    } else {
      NamesFound(d, DirNames(d), path, backend, container);
      forall n | n in DirNames(d) && path + p in Walk(d.entries[n].node, path + [n], backend, container).value.artifacts
        ensures p != [] && p[0] == n
      {
        ArtifactsLieBelow(d.entries[n].node, path + [n], backend, container, path + p);
        assert (path + p)[..|path| + 1][|path|] == n;
      }
      if p != [] && p[0] !in DirNames(d) {
        NoRunThere(d, p);
      } else if p != [] {
        WalkReads(d.entries[p[0]].node, path + [p[0]], backend, container, p[1..]);
        assert path + [p[0]] + p[1..] == path + p;
      }
    }
  }

  lemma NoRunThere(d: Node, p: Path)
    requires d.Dir? && !ShowsRun(d) && p != [] && !IsSubdir(d, p[0])
    ensures !VisibleRun(d, p)
  {
    if p[0] in d.entries { NothingBelowAFile(p[1..], p); }
  }

  /** And nothing else counts. */
  lemma {:induction false} WalkOnlyReads(d: Node, path: Path, backend: string, container: string, hex: string)
      returns (p: Path)
    requires d.Dir? && Walk(d, path, backend, container).Ok?
    requires hex in Walk(d, path, backend, container).value.reachable
    ensures VisibleRun(d, p) && DocumentIn(Visible(d, p).value).Some?
    ensures hex in References(DocumentIn(Visible(d, p).value).value, backend, container)
    decreases d
  {
    hide ParseText, References, WalkNames, Sorted;
    if ShowsRun(d) {
      p := [];
    } else {
      NamesFound(d, DirNames(d), path, backend, container);
      var n :| n in DirNames(d) && hex in Walk(d.entries[n].node, path + [n], backend, container).value.reachable;
      var q := WalkOnlyReads(d.entries[n].node, path + [n], backend, container, hex);
      p := [n] + q;
      assert p[1..] == q;
    }
  }

  /** Why a walk stops at a directory it reaches, if it does. */
  function Trouble(d: Node, path: Path): Option<Refusal> {
    if !d.Dir? then None
    else if SeenArtifact(d) == Unreadable then Some(UnreadableArtifact(path))
    else if SeenArtifact(d).Written? then
      if ParseText(d.artifact.text).None? then Some(UnreadableArtifact(path)) else None
    else if SeenEvents(d) then Some(UnfoldedRun(path))
    else if !d.readable then Some(UnreadableArtifact(path))
    else None
  }

  /** **Unknown reachability refuses, and only that**: a walk stops exactly when some visible
      directory has an unfolded run, an artifact that cannot be read or parsed, or cannot be
      listed; and it names that directory. */
  lemma {:induction false} WalkRefuses(d: Node, path: Path, backend: string, container: string)
    requires d.Dir?
    ensures Walk(d, path, backend, container).Err? ==>
              exists p :: Visible(d, p).Some?
                          && Trouble(Visible(d, p).value, path + p) == Some(Walk(d, path, backend, container).error)
    decreases d, 1
  {
    hide ParseText, References, WalkNames, Sorted;
    var r := Walk(d, path, backend, container);
    if r.Err? {
      if Trouble(d, path).Some? {
        assert path + [] == path && Visible(d, []).Some?;
      } else {
        var p := NamesRefuse(d, DirNames(d), path, backend, container);
      }
    }
  }

  lemma {:induction false} NamesRefuse(d: Node, names: seq<string>, path: Path, backend: string, container: string)
      returns (p: Path)
    requires d.Dir? && !ShowsRun(d) && forall n <- names :: IsSubdir(d, n)
    requires WalkNames(d, names, path, backend, container).Err?
    ensures Visible(d, p).Some? && Trouble(Visible(d, p).value, path + p) ==
            Some(WalkNames(d, names, path, backend, container).error)
    decreases d, 0, |names|
  {
    hide Walk, Trouble;
    var k := |names| - 1;
    assert names[k] in names;
    if WalkNames(d, names[..k], path, backend, container).Err? {
      p := NamesRefuse(d, names[..k], path, backend, container);
    } else {
      var node := d.entries[names[k]].node;
      WalkRefuses(node, path + [names[k]], backend, container);
      var q :| Visible(node, q).Some?
            && Trouble(Visible(node, q).value, path + [names[k]] + q) ==
                Some(Walk(node, path + [names[k]], backend, container).error);
      p := [names[k]] + q;
      assert p[1..] == q && path + p == path + [names[k]] + q;
    }
  }

  /** Conversely no walk succeeds past such a directory. */
  lemma {:induction false} WalkNeverPassesTrouble(d: Node, path: Path, backend: string, container: string, p: Path)
    requires d.Dir? && Visible(d, p).Some? && Trouble(Visible(d, p).value, path + p).Some?
    ensures Walk(d, path, backend, container).Err?
    decreases d
  {
    hide ParseText, References, WalkNames, Sorted;
    if Walk(d, path, backend, container).Ok? {
      if p == [] {
        assert path + p == path;
      } else {
        NamesFound(d, DirNames(d), path, backend, container);
        assert path + [p[0]] + p[1..] == path + p;
        TroubleIsInDirs(d, p, path);
        WalkNeverPassesTrouble(d.entries[p[0]].node, path + [p[0]], backend, container, p[1..]);
      }
    }
  }

  lemma TroubleIsInDirs(d: Node, p: Path, path: Path)
    requires d.Dir? && p != [] && Visible(d, p).Some? && Trouble(Visible(d, p).value, path + p).Some?
    ensures IsSubdir(d, p[0])
  {
    hide Trouble;
    if d.entries[p[0]].node.NotDir? { NothingBelowAFile(p[1..], path + p); }
  }

  lemma NothingBelowAFile(p: Path, path: Path)
    ensures !VisibleRun(NotDir, p)
    ensures Visible(NotDir, p).None? || Trouble(Visible(NotDir, p).value, path).None?
  {}

  /** Silent failures are the one gap: a successful walk has read every topmost run directory
      exactly when each shows as one and none lies behind a dropped entry. */
  lemma {:induction false} ReadsEveryRunUnlessHidden(d: Node, backend: string, container: string)
    requires d.Dir? && Walk(d, [], backend, container).Ok?
    ensures (forall p :: RunAt(d, p) ==> p in Walk(d, [], backend, container).value.artifacts) <==> !HidesARun(d)
  {
    hide Walk, RunAt, HidesARun, VisibleRun;
    forall p ensures p in Walk(d, [], backend, container).value.artifacts <==> VisibleRun(d, p) {
      assert [] + p == p;
      WalkReads(d, [], backend, container, p);
    }
    if HidesARun(d) {
      var p := HiddenRun(d);
    } else {
      forall p | RunAt(d, p) ensures VisibleRun(d, p) { UnhiddenRunIsVisible(d, p); }
    }
  }

  lemma {:induction false} HiddenRun(d: Node) returns (p: Path)
    requires HidesARun(d)
    ensures RunAt(d, p) && !VisibleRun(d, p)
    decreases d
  {
    if IsRun(d) { return []; }
    var n :| n in d.entries && match d.entries[n]
             case Dropped(node) => exists p :: RunAt(node, p)
             case Listed(node) => HidesARun(node);
    var node := d.entries[n].node;
    if d.entries[n].Dropped? {
      var q :| RunAt(node, q);
      p := [n] + q;
      assert p[1..] == q;
    } else {
      var q := HiddenRun(node);
      p := [n] + q;
      assert p[1..] == q;
    }
  }

  lemma {:induction false} UnhiddenRunIsVisible(d: Node, p: Path)
    requires RunAt(d, p) && !HidesARun(d)
    ensures VisibleRun(d, p) && Visible(d, p) == NodeAt(d, p)
  {
    if p != [] && d.entries[p[0]].Listed? { UnhiddenRunIsVisible(d.entries[p[0]].node, p[1..]); }
  }

  /** For instance a store whose only run lies behind a dropped entry reads as empty. */
  lemma DroppedRunIsMissed(run: Node, backend: string, container: string)
    requires IsRun(run)
    ensures
      var base := Dir(NoArtifact, true, false, true, true, map["runs" := Dropped(run)]);
      Walk(base, [], backend, container) == Ok(Found([], {})) && HidesARun(base)
  {
    var base := Dir(NoArtifact, true, false, true, true, map["runs" := Dropped(run)]);
    assert (set n | n in base.entries && IsSubdir(base, n)) == {};
    assert RunAt(run, []) && base.entries["runs"] == Dropped(run);
  }

  /** And so does one that can be listed but not searched: both probes and every entry's
      fail, no entry is a run, and still the run is missed. */
  lemma MaskedRunIsMissed(text: string, events: bool, entries: map<string, Entry>, backend: string, container: string)
    requires forall n <- entries.Keys :: entries[n].Dropped?
    ensures
      var run := Dir(Written(text), false, events, false, true, entries);
      Walk(run, [], backend, container) == Ok(Found([], {})) && HidesARun(run) && RunAt(run, [])
  {
    var run := Dir(Written(text), false, events, false, true, entries);
    assert (set n | n in run.entries && IsSubdir(run, n)) == {};
  }

  /** A blob some run artifact names, in any string at any depth, whether or not it shows. */
  ghost predicate NamedByARun(base: Node, backend: string, container: string, hex: string) {
    exists p, text ::
      && RunAt(base, p) && NodeAt(base, p).Some? && DocumentIn(NodeAt(base, p).value).Some?
      && StringLeaf(DocumentIn(NodeAt(base, p).value).value, text)
      && Parse(text) == Ok(BlobRef(backend, container, BlobKey(ALGORITHM, hex)))
  }

  /** A blob some visible run's artifact names. */
  ghost predicate Referenced(base: Node, backend: string, container: string, hex: string) {
    exists p, text ::
      && VisibleRun(base, p) && DocumentIn(Visible(base, p).value).Some?
      && StringLeaf(DocumentIn(Visible(base, p).value).value, text)
      && Parse(text) == Ok(BlobRef(backend, container, BlobKey(ALGORITHM, hex)))
  }

  /** With no run hidden, what any run's artifact names counts. */
  lemma NamedIsReferenced(base: Node, backend: string, container: string, hex: string)
    requires !HidesARun(base) && NamedByARun(base, backend, container, hex)
    ensures Referenced(base, backend, container, hex)
  {
    hide RunAt, HidesARun, DocumentIn, StringLeaf, Parse, NodeAt, Visible;
    var p, text :| && RunAt(base, p) && NodeAt(base, p).Some? && DocumentIn(NodeAt(base, p).value).Some?
                   && StringLeaf(DocumentIn(NodeAt(base, p).value).value, text)
                   && Parse(text) == Ok(BlobRef(backend, container, BlobKey(ALGORITHM, hex)));
    UnhiddenRunIsVisible(base, p);
  }

  lemma AddressIsKey(text: string, backend: string, container: string, hex: string)
    ensures hex in AddressIn(text, backend, container) <==>
            Parse(text) == Ok(BlobRef(backend, container, BlobKey(ALGORITHM, hex)))
  {
    hide Parse, Print;
    if Parse(text).Ok? { PrintParses(text); }
  }

  /** What a successful walk counts as reachable is exactly what the retained artifacts name. */
  lemma ReachableIsReferenced(base: Node, backend: string, container: string, hex: string)
    requires base.Dir? && Walk(base, [], backend, container).Ok?
    ensures hex in Walk(base, [], backend, container).value.reachable <==> Referenced(base, backend, container, hex)
  {
    hide Walk, Visible, DocumentIn, StringLeaf, References, AddressIn, Parse;
    if hex in Walk(base, [], backend, container).value.reachable {
      var p := WalkOnlyReads(base, [], backend, container, hex);
      var doc := DocumentIn(Visible(base, p).value).value;
      ReferencesAreTheLeaves(doc, backend, container, hex);
      var text :| StringLeaf(doc, text) && hex in AddressIn(text, backend, container);
      AddressIsKey(text, backend, container, hex);
    }
    if Referenced(base, backend, container, hex) {
      var p, text :| VisibleRun(base, p) && DocumentIn(Visible(base, p).value).Some?
                  && StringLeaf(DocumentIn(Visible(base, p).value).value, text)
                  && Parse(text) == Ok(BlobRef(backend, container, BlobKey(ALGORITHM, hex)));
      AddressIsKey(text, backend, container, hex);
      ReferencesAreTheLeaves(DocumentIn(Visible(base, p).value).value, backend, container, hex);
      WalkReads(base, [], backend, container, p);
    }
  }

  // ---- The reclaim ---------------------------------------------------------

  /** A container as a reclaimer sees it. Its calls may fail, and a failed delete may still
      have removed the object. */
  class BlobContainer {
    const backend: string
    const container: string
    /** Every stored object, by the hex of its key. */
    var objects: map<string, seq<byte>>

    constructor (backend: string, container: string)
      ensures this.backend == backend && this.container == container && objects == map[]
    {
      this.backend, this.container, objects := backend, container, map[];
    }

    method List() returns (held: Option<seq<string>>)
      ensures held.Some? ==> forall h :: h in held.value <==> h in objects
    {
      var failed :| failed || !failed;
      if failed { return None; }
      held := Some(Sorted(objects.Keys));
    }

    method Delete(hex: string) returns (ok: bool)
      modifies this`objects
      ensures objects == old(objects) - {hex} || (!ok && objects == old(objects))
    {
      ok :| ok || !ok;
      var removed :| removed || (!ok && !removed);
      if removed { objects := objects - {hex}; }
    }
  }

  datatype ReclaimPlan = ReclaimPlan(artifacts: seq<Path>, reachable: set<string>, reclaimable: seq<string>)

  datatype ReclaimMode = DryRun | Delete

  /** `plan_reclaim`: refuse unless reachability is known, then take what the container holds
      and no retained artifact names. It deletes nothing. */
  method PlanReclaim(base: Node, store: BlobContainer) returns (r: Result<ReclaimPlan, Refusal>)
    ensures base.NotDir? <==> r == Err(MissingStoreBase)
    ensures base.Dir? && Walk(base, [], store.backend, store.container).Err? ==>
              r == Err(Walk(base, [], store.backend, store.container).error)
    ensures r.Err? ==> base.NotDir? || Walk(base, [], store.backend, store.container).Err? || r == Err(StoreUnreadable)
    ensures r.Ok? ==>
              && base.Dir?
              && Walk(base, [], store.backend, store.container) == Ok(Found(r.value.artifacts, r.value.reachable))
              && Ascending(r.value.reclaimable)
              && (forall h :: h in r.value.reclaimable <==>
                              h in store.objects && !Referenced(base, store.backend, store.container, h))
  {
    hide Walk, Referenced, Ascending, SortText;
    if base.NotDir? { return Err(MissingStoreBase); }
    var found := new Reachability();
    var refusal := found.WalkRunStore(base, [], store.backend, store.container);
    NeverMissing(base, store.backend, store.container);
    if refusal.Some? { return Err(refusal.value); }
    var held := store.List();
    if held.None? { return Err(StoreUnreadable); }
    var unreferenced: seq<string> := [];
    for i := 0 to |held.value|
      invariant forall h :: h in unreferenced <==> h in held.value[..i] && h !in found.reachable
    {
      if held.value[i] !in found.reachable { unreferenced := unreferenced + [held.value[i]]; }
    }
    assert held.value[..|held.value|] == held.value;
    forall h ensures h in found.reachable <==> Referenced(base, store.backend, store.container, h) {
      ReachableIsReferenced(base, store.backend, store.container, h);
    }
    ghost var walked := Walk(base, [], store.backend, store.container).value;
    assert found.artifacts == walked.artifacts && found.reachable == walked.reachable;
    var reclaimable := SortText(unreferenced);
    assert forall h :: h in reclaimable <==> h in multiset(reclaimable);
    assert forall h :: h in unreferenced <==> h in multiset(unreferenced);
    r := Ok(ReclaimPlan(found.artifacts, found.reachable, reclaimable));
  }

  lemma NeverMissing(base: Node, backend: string, container: string)
    requires base.Dir?
    ensures Walk(base, [], backend, container) != Err(MissingStoreBase)
  {
    hide Walk;
    WalkRefuses(base, [], backend, container);
  }

  function Without(objects: map<string, seq<byte>>, gone: seq<string>): map<string, seq<byte>> {
    map h | h in objects && h !in gone :: objects[h]
  }

  /** `apply_reclaim`: delete in order, stopping at the first failure. */
  method ApplyReclaim(store: BlobContainer, plan: ReclaimPlan) returns (r: Result<seq<string>, Refusal>)
    modifies store`objects
    ensures r.Ok? ==> r.value == plan.reclaimable && store.objects == Without(old(store.objects), plan.reclaimable)
    ensures r.Err? ==> exists k | 0 <= k < |plan.reclaimable| ::
              && r == Err(DeleteFailed(plan.reclaimable[k]))
              && (|| store.objects == Without(old(store.objects), plan.reclaimable[..k])
                  || store.objects == Without(old(store.objects), plan.reclaimable[..k + 1]))
  {
    var deleted: seq<string> := [];
    for i := 0 to |plan.reclaimable|
      invariant deleted == plan.reclaimable[..i] && store.objects == Without(old(store.objects), deleted)
    {
      assert plan.reclaimable[..i + 1] == plan.reclaimable[..i] + [plan.reclaimable[i]];
      var ok := store.Delete(plan.reclaimable[i]);
      if !ok { return Err(DeleteFailed(plan.reclaimable[i])); }
      deleted := deleted + [plan.reclaimable[i]];
    }
    r := Ok(deleted);
  }

  /** **Reclaim is safe and converges.** Whatever the mode and however it ends, every blob a
      visible artifact names is stored unchanged; where no run is hidden, so is every blob any
      run's artifact names; and nothing appears. A dry run and every refusal but a failed
      delete change nothing. A completed delete leaves exactly what was held and referenced. */
  method Reclaim(base: Node, store: BlobContainer, mode: ReclaimMode) returns (r: Result<ReclaimPlan, Refusal>)
    modifies store`objects
    ensures forall h :: h in old(store.objects) && Referenced(base, store.backend, store.container, h) ==>
                        h in store.objects && store.objects[h] == old(store.objects)[h]
    ensures !HidesARun(base) ==>
              forall h :: h in old(store.objects) && NamedByARun(base, store.backend, store.container, h) ==>
                          h in store.objects && store.objects[h] == old(store.objects)[h]
    ensures store.objects.Keys <= old(store.objects).Keys
    ensures mode.DryRun? || (r.Err? && !r.error.DeleteFailed?) ==> store.objects == old(store.objects)
    ensures r.Ok? ==> base.Dir? && Walk(base, [], store.backend, store.container).Ok?
    ensures mode.Delete? && r.Ok? ==>
              forall h :: h in store.objects <==>
                          h in old(store.objects) && Referenced(base, store.backend, store.container, h)
  {
    hide Walk, Referenced, NamedByARun, HidesARun, Ascending;
    r := PlanReclaim(base, store);
    if r.Ok? && mode.Delete? {
      var applied := ApplyReclaim(store, r.value);
      if applied.Err? { r := Err(applied.error); }
    }
    forall h | !HidesARun(base) && NamedByARun(base, store.backend, store.container, h)
      ensures Referenced(base, store.backend, store.container, h)
    {
      NamedIsReferenced(base, store.backend, store.container, h);
    }
  }

  lemma EmptyOrSome(s: seq<string>)
    ensures s == [] || exists h :: h in s
  {
    if s != [] { assert s[0] in s; }
  }

  /** Reclaiming again after a completed reclaim finds nothing left to remove. */
  method ReclaimAgain(base: Node, store: BlobContainer)
      returns (first: Result<ReclaimPlan, Refusal>, again: Result<ReclaimPlan, Refusal>)
    modifies store`objects
    ensures first.Ok? && again.Ok? ==> again.value.reclaimable == []
    ensures first.Ok? ==> again.Ok? || again == Err(StoreUnreadable)
  {
    hide Walk, Referenced, Ascending;
    first := Reclaim(base, store, ReclaimMode.Delete);
    again := PlanReclaim(base, store);
    if first.Ok? && again.Ok? { EmptyOrSome(again.value.reclaimable); }
  }
}
