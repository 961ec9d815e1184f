/** The filesystem blob store as a crash protocol: several writers, deletes, background
    write-back and crashes, interleaved in any order. */
module LocalStore {
  import opened Text
  import opened Canonical
  import opened Sha256
  import opened BlobRef

  // ---- The disk ------------------------------------------------------------

  /** A file's bytes as readers see them and as a crash would leave them. While it is not
      clean the latter may be anything. */
  datatype File = File(content: seq<byte>, durable: seq<byte>, clean: bool)

  /** The steps of `write_object` a put has behind it. */
  datatype Stage = Writing(written: nat) | Synced | Renamed

  datatype Writer = Writer(bytes: seq<byte>, temp: string, inode: nat, stage: Stage)

  /** A directory of the store: its root, the algorithm's beneath it, or a fan-out directory
      two or four digits deep. */
  datatype Dir = Root | Algorithm | Fan(digits: string)

  /** A directory and those above it. */
  function PathTo(dir: Dir): set<Dir> {
    match dir
    case Root => {Root}
    case Algorithm => {Root, Algorithm}
    case Fan(digits) => {Root, Algorithm, Fan(if |digits| < 2 then digits else digits[..2]), Fan(digits)}
  }

  /** Entries of files as seen and as committed, files, and the puts in progress. Of the
      directories, which were made and which of those have a durable entry of their own.
      `puts` records every value a put was ever begun with. */
  datatype Disk = Disk(
    seen: map<string, nat>,
    committed: map<string, nat>,
    files: map<nat, File>,
    writers: map<nat, Writer>,
    made: set<Dir>,
    lasting: set<Dir>,
    ghost puts: set<seq<byte>>)

  const EMPTY := Disk(map[], map[], map[], map[], {}, {}, {})

  /** A crash leaves the leaf directory where it is. */
  predicate Reached(d: Disk, leaf: string) { PathTo(Fan(leaf)) <= d.lasting }

  /** The name of the temp file beside an object: hidden, so it is never a content address. */
  function TempName(hex: string, pid: nat, counter: nat): (t: string)
    ensures t != [] && t[0] == '.'
  {
    "." + hex + ".tmp." + NumText(pid) + "." + NumText(counter)
  }

  /** Where an object lies: beneath the root and the algorithm's directory, in the one of its
      first four digits in the one of its first two. */
  lemma ObjectLiesUnder(hex: string)
    requires IsHash(hex)
    ensures PathTo(Fan(Leaf(hex))) == {Root, Algorithm, Fan(hex[..2]), Fan(hex[..4])}
  {
    assert hex[0] in hex && !IsHexDigit('.');
    assert hex[..4][..2] == hex[..2];
  }

  lemma TempNameSpelled(hex: string)
    ensures TempName(hex, 7, 12) == "." + hex + ".tmp.7.12"
  {
    assert Digits(7) == "7" && Digits(12) == "12";
    assert "." + hex + ".tmp." + "7" + "." + "12" == "." + hex + ".tmp.7.12";
  }

  /** The fan-out directory a name lies in, by its leading digits; a temp file lies beside
      its object. A directory's entries are made durable together, and apart from its own. */
  function Leaf(name: string): string {
    var stem := if name != [] && name[0] == '.' then name[1..] else name;
    if |stem| < 4 then stem else stem[..4]
  }

  lemma TempLiesBeside(hex: string, pid: nat, counter: nat)
    requires IsHash(hex)
    ensures Leaf(TempName(hex, pid, counter)) == Leaf(hex)
  {
    hide NumText;
    assert hex[0] in hex;
    assert TempName(hex, pid, counter)[1..][..4] == hex[..4];
  }

  function ObjectName(bytes: seq<byte>): string { KeyFor(bytes).hex }

  /** One step of some writer, of a deleter, of the operating system, or a crash. */
  datatype Event =
    | Begin(w: nat, bytes: seq<byte>, pid: nat, counter: nat, freshInode: nat)
    | WriteSome(w: nat, n: nat)
    | SyncFile(w: nat)
    | Rename(w: nat)
    | SyncDir(w: nat, ok: bool)
    | Fail(w: nat)
    | Kill(w: nat)
    | Delete(key: BlobKey)
    | Commit(leaf: string)
    | CommitDir(dir: Dir)
    | FlushData(inode: nat, bytes: seq<byte>)
    | Crash

  /** Temp names are unique among live writers: process id plus a process-wide counter. */
  predicate TempIsFree(d: Disk, temp: string) {
    forall w <- d.writers.Keys :: d.writers[w].temp != temp
  }

  /** `File::create`: truncate the file of that name, or make one. */
  function CreateFile(d: Disk, temp: string, freshInode: nat): Disk {
    var inode := if temp in d.seen then d.seen[temp] else freshInode;
    var durable := if inode in d.files then d.files[inode].durable else [];
    d.(seen := d.seen[temp := inode], files := d.files[inode := File([], durable, false)])
  }

  /** Make the directories down to the object's leaf, then the temp file in it. */
  ghost function BeginPut(d: Disk, w: nat, bytes: seq<byte>, temp: string, freshInode: nat): Disk {
    if w in d.writers || !TempIsFree(d, temp) || freshInode in d.files then d
    else
      var c := CreateFile(d, temp, freshInode);
      c.(writers := c.writers[w := Writer(bytes, temp, c.seen[temp], Writing(0))], puts := c.puts + {bytes},
         made := c.made + PathTo(Fan(Leaf(ObjectName(bytes)))))
  }

  function WriteSomeOf(d: Disk, w: nat, n: nat): Disk {
    if w !in d.writers || !d.writers[w].stage.Writing? || d.writers[w].inode !in d.files then d
    else
      var wr := d.writers[w];
      var written := wr.stage.written + n;
      if |wr.bytes| < written then d
      else d.(files := d.files[wr.inode := d.files[wr.inode].(content := wr.bytes[..written], clean := false)],
              writers := d.writers[w := wr.(stage := Writing(written))])
  }

  function SyncWritten(d: Disk, w: nat): Disk {
    if w !in d.writers || d.writers[w].stage != Writing(|d.writers[w].bytes|) || d.writers[w].inode !in d.files then d
    else
      var wr := d.writers[w];
      var f := d.files[wr.inode];
      d.(files := d.files[wr.inode := File(f.content, f.content, true)],
         writers := d.writers[w := wr.(stage := Synced)])
  }

  function RenameSynced(d: Disk, w: nat): Disk {
    if w !in d.writers || d.writers[w].stage != Synced then d
    else
      var wr := d.writers[w];
      d.(seen := (d.seen - {wr.temp})[ObjectName(wr.bytes) := wr.inode],
         writers := d.writers[w := wr.(stage := Renamed)])
  }

  /** One directory's entries become durable as they are seen; the others stay. */
  function CommitLeaf(d: Disk, leaf: string): Disk {
    d.(committed := map n | n in d.seen.Keys + d.committed.Keys && InLeaf(d, leaf, n) ::
         if Leaf(n) == leaf then d.seen[n] else d.committed[n])
  }

  predicate InLeaf(d: Disk, leaf: string, n: string) {
    if Leaf(n) == leaf then n in d.seen else n in d.committed
  }

  /** The last step of a put. A failed directory fsync is swallowed: the put still succeeds. */
  function SyncDirOf(d: Disk, w: nat, ok: bool): Disk {
    if w !in d.writers || d.writers[w].stage != Renamed then d
    else
      var done := d.(writers := d.writers - {w});
      if ok then CommitLeaf(done, Leaf(ObjectName(d.writers[w].bytes))) else done
  }

  /** A failed write removes its temp file. */
  function FailPut(d: Disk, w: nat): Disk {
    if w !in d.writers || d.writers[w].stage == Renamed then d
    else d.(seen := d.seen - {d.writers[w].temp}, writers := d.writers - {w})
  }

  /** The system may write back any bytes of a file not yet synced, at any time. */
  function WriteBack(d: Disk, inode: nat, bytes: seq<byte>): Disk {
    if inode !in d.files || d.files[inode].clean then d
    else d.(files := d.files[inode := d.files[inode].(durable := bytes)])
  }

  /** The system may make a directory's own entry durable at any time; a put never does. */
  function MakeLast(d: Disk, dir: Dir): Disk {
    if dir in d.made then d.(lasting := d.lasting + {dir}) else d
  }

  /** What a crash leaves: durable entries, where a durable path of directories leads. */
  ghost function Reboot(d: Disk): Disk {
    var left := map n | n in d.committed && Reached(d, Leaf(n)) :: d.committed[n];
    var dirs := set dir | dir in d.lasting && PathTo(dir) <= d.lasting;
    Disk(left, left, map i | i in d.files :: File(d.files[i].durable, d.files[i].durable, true), map[],
         dirs, dirs, d.puts)
  }

  /** One step. A step its party cannot take changes nothing. */
  ghost function Step(d: Disk, e: Event): Disk {
    match e
    case Begin(w, bytes, pid, counter, freshInode) =>
      BeginPut(d, w, bytes, TempName(ObjectName(bytes), pid, counter), freshInode)
    case WriteSome(w, n) => WriteSomeOf(d, w, n)
    case SyncFile(w) => SyncWritten(d, w)
    case Rename(w) => RenameSynced(d, w)
    case SyncDir(w, ok) => SyncDirOf(d, w, ok)
    case Fail(w) => FailPut(d, w)
    case Kill(w) => d.(writers := d.writers - {w})
    case Delete(key) => if ValidKey(key) then d.(seen := d.seen - {key.hex}) else d
    case Commit(leaf) => CommitLeaf(d, leaf)
    case CommitDir(dir) => MakeLast(d, dir)
    case FlushData(inode, bytes) => WriteBack(d, inode, bytes)
    case Crash => Reboot(d)
  }

  ghost function Run(events: seq<Event>): Disk {
    if events == [] then EMPTY else Step(Run(events[..|events| - 1]), events[|events| - 1])
  }

  // ---- What every step keeps -----------------------------------------------

  predicate Injective(m: map<string, nat>) {
    forall a, b :: a in m && b in m && m[a] == m[b] ==> a == b
  }

  /** A directory whose object names each hold the complete, clean bytes of a put that
      hash to the name. */
  ghost predicate ObjectsWhole(dir: map<string, nat>, files: map<nat, File>, puts: set<seq<byte>>) {
    forall name :: name in dir && IsHash(name) ==>
      && dir[name] in files
      && files[dir[name]].clean && files[dir[name]].durable == files[dir[name]].content
      && files[dir[name]].content in puts
      && ObjectName(files[dir[name]].content) == name
  }

  /** No file is a temp file now and an object in the committed directory. */
  predicate Apart(seen: map<string, nat>, committed: map<string, nat>) {
    forall a, b :: a in seen && b in committed && !IsHash(a) && IsHash(b) ==> seen[a] != committed[b]
  }

  /** A file's names all lie in one directory. */
  predicate OneLeaf(seen: map<string, nat>, committed: map<string, nat>) {
    forall a, b :: a in seen && b in committed && seen[a] == committed[b] ==> Leaf(a) == Leaf(b)
  }

  predicate AllKnown(dir: map<string, nat>, files: map<nat, File>) {
    forall name :: name in dir ==> dir[name] in files
  }

  /** A live put before its rename owns its temp file and has written what it says. */
  ghost predicate WriterOwns(d: Disk, wr: Writer) {
    && wr.bytes in d.puts && !IsHash(wr.temp) && Leaf(wr.temp) == Leaf(ObjectName(wr.bytes))
    && (wr.stage != Renamed ==>
          && wr.temp in d.seen && d.seen[wr.temp] == wr.inode && wr.inode in d.files
          && (wr.stage.Writing? ==>
                && wr.stage.written <= |wr.bytes|
                && d.files[wr.inode].content == wr.bytes[..wr.stage.written])
          && (wr.stage == Synced ==>
                var f := d.files[wr.inode]; f.clean && f.content == wr.bytes && f.durable == wr.bytes))
  }

  ghost predicate WritersOwn(d: Disk) {
    && (forall w <- d.writers.Keys :: WriterOwns(d, d.writers[w]))
    && (forall v, w :: v in d.writers && w in d.writers && v != w ==> d.writers[v].temp != d.writers[w].temp)
  }

  /** Both directories, as seen and as a crash would leave it, hold only whole objects. */
  ghost predicate DirectoriesSound(d: Disk) {
    && Injective(d.seen) && Injective(d.committed)
    && AllKnown(d.seen, d.files) && AllKnown(d.committed, d.files)
    && ObjectsWhole(d.seen, d.files, d.puts) && ObjectsWhole(d.committed, d.files, d.puts)
    && Apart(d.seen, d.committed) && OneLeaf(d.seen, d.committed)
  }

  ghost predicate Inv(d: Disk) { DirectoriesSound(d) && WritersOwn(d) }

  lemma TempIsNoHash(hex: string, pid: nat, counter: nat)
    ensures !IsHash(TempName(hex, pid, counter))
  {
    hide TempName;
    var t := TempName(hex, pid, counter);
    assert t[0] in t && !IsHexDigit('.');
  }

  lemma ObjectNameIsHash(bytes: seq<byte>)
    ensures IsHash(ObjectName(bytes))
  {
    hide Computed;
    ComputedKeysAreValid(bytes);
  }

  /** Every step of every party keeps the invariant. */
  lemma StepKeepsInv(d: Disk, e: Event)
    requires Inv(d)
    ensures Inv(Step(d, e))
  {
    hide Inv, Step;
    match e
    case Begin(w, bytes, pid, counter, freshInode) => BeginKeeps(d, e);
    case WriteSome(w, n) => WriteKeeps(d, e);
    case SyncFile(w) => SyncKeeps(d, e);
    case Rename(w) => RenameKeeps(d, e);
    case SyncDir(w, ok) => SyncDirKeeps(d, e);
    case Fail(w) => FailKeeps(d, e);
    case Kill(w) => KillKeeps(d, e);
    case Delete(key) => DeleteKeeps(d, e);
    case Commit(leaf) => CommitEventKeeps(d, e);
    case CommitDir(dir) => CommitDirKeeps(d, e);
    case FlushData(inode, bytes) => FlushKeeps(d, e);
    case Crash => CrashKeeps(d, e);
  }

  lemma BeginKeeps(d: Disk, e: Event)
    requires Inv(d) && e.Begin?
    ensures Inv(Step(d, e))
  {
    hide IsHash, ObjectName, TempName, DirectoriesSound, WritersOwn, BeginPut, Leaf;
    var temp := TempName(ObjectName(e.bytes), e.pid, e.counter);
    TempIsNoHash(ObjectName(e.bytes), e.pid, e.counter);
    ObjectNameIsHash(e.bytes);
    TempLiesBeside(ObjectName(e.bytes), e.pid, e.counter);
    BeginKeepsDirectories(d, e.w, e.bytes, temp, e.freshInode);
    BeginKeepsWriters(d, e.w, e.bytes, temp, e.freshInode);
  }

  lemma BeginKeepsDirectories(d: Disk, w: nat, bytes: seq<byte>, temp: string, freshInode: nat)
    requires DirectoriesSound(d) && !IsHash(temp)
    ensures DirectoriesSound(BeginPut(d, w, bytes, temp, freshInode))
  {
    hide IsHash, ObjectName, TempIsFree, Leaf, PathTo;
  }

  lemma BeginKeepsWriters(d: Disk, w: nat, bytes: seq<byte>, temp: string, freshInode: nat)
    requires DirectoriesSound(d) && WritersOwn(d) && !IsHash(temp) && Leaf(temp) == Leaf(ObjectName(bytes))
    ensures WritersOwn(BeginPut(d, w, bytes, temp, freshInode))
  {
    hide IsHash, ObjectName, ObjectsWhole, Apart, OneLeaf, Leaf, PathTo;
  }

  lemma WriteKeeps(d: Disk, e: Event)
    requires Inv(d) && e.WriteSome?
    ensures Inv(Step(d, e))
  {
    hide IsHash, ObjectName, Leaf;
  }

  lemma SyncKeeps(d: Disk, e: Event)
    requires Inv(d) && e.SyncFile?
    ensures Inv(Step(d, e))
  {
    hide IsHash, ObjectName, Leaf;
  }

  lemma RenameKeeps(d: Disk, e: Event)
    requires Inv(d) && e.Rename?
    ensures Inv(Step(d, e))
  {
    hide IsHash, ObjectName, Leaf;
    if e.w in d.writers { ObjectNameIsHash(d.writers[e.w].bytes); }
  }

  lemma SyncDirKeeps(d: Disk, e: Event)
    requires Inv(d) && e.SyncDir?
    ensures Inv(Step(d, e))
  {
    hide IsHash, ObjectName, Leaf, DirectoriesSound, CommitLeaf;
    if e.w in d.writers {
      var done := d.(writers := d.writers - {e.w});
      assert DirectoriesSound(done) by { WritersDoNotMatter(d, done); }
      CommitKeeps(done, Leaf(ObjectName(d.writers[e.w].bytes)));
    }
  }

  lemma WritersDoNotMatter(d: Disk, done: Disk)
    requires DirectoriesSound(d) && done == d.(writers := done.writers)
    ensures DirectoriesSound(done)
  {
    hide Injective, AllKnown, ObjectsWhole, Apart, OneLeaf;
  }

  lemma FailKeeps(d: Disk, e: Event)
    requires Inv(d) && e.Fail?
    ensures Inv(Step(d, e))
  {
    hide IsHash, ObjectName, Leaf;
  }

  lemma KillKeeps(d: Disk, e: Event)
    requires Inv(d) && e.Kill?
    ensures Inv(Step(d, e))
  {
    hide IsHash, ObjectName, Leaf;
  }

  lemma DeleteKeeps(d: Disk, e: Event)
    requires Inv(d) && e.Delete?
    ensures Inv(Step(d, e))
  {
    hide ObjectName, Leaf;
  }

  lemma CommitKeeps(d: Disk, leaf: string)
    requires Inv(d)
    ensures Inv(CommitLeaf(d, leaf))
  {
    hide ObjectName, IsHash, Leaf;
    assert DirectoriesSound(CommitLeaf(d, leaf)) by { hide WritersOwn; }
    assert WritersOwn(CommitLeaf(d, leaf)) by { hide DirectoriesSound; }
  }

  lemma CommitEventKeeps(d: Disk, e: Event)
    requires Inv(d) && e.Commit?
    ensures Inv(Step(d, e))
  {
    hide Inv, Step, CommitLeaf;
    CommitKeeps(d, e.leaf);
    CommitIs(d, e);
  }

  lemma CommitIs(d: Disk, e: Event)
    requires e.Commit?
    ensures Step(d, e) == CommitLeaf(d, e.leaf)
  {
    hide CommitLeaf, BeginPut, WriteSomeOf, SyncWritten, RenameSynced, SyncDirOf, FailPut, WriteBack, Reboot,
        MakeLast, TempName, ObjectName;
  }

  lemma CommitDirKeeps(d: Disk, e: Event)
    requires Inv(d) && e.CommitDir?
    ensures Inv(Step(d, e))
  {
    hide IsHash, ObjectName, Leaf, ObjectsWhole, Injective, AllKnown, Apart, OneLeaf;
  }

  lemma FlushKeeps(d: Disk, e: Event)
    requires Inv(d) && e.FlushData?
    ensures Inv(Step(d, e))
  {
    hide IsHash, ObjectName, Leaf;
  }

  lemma CrashKeeps(d: Disk, e: Event)
    requires Inv(d) && e.Crash?
    ensures Inv(Step(d, e))
  {
    hide IsHash, ObjectName, Leaf, Reached, PathTo;
  }

  lemma {:induction false} EveryRunKeepsInv(events: seq<Event>)
    ensures Inv(Run(events))
  {
    hide Step, Inv;
    if events == [] {
      EmptyHolds();
    } else {
      EveryRunKeepsInv(events[..|events| - 1]);
      StepKeepsInv(Run(events[..|events| - 1]), events[|events| - 1]);
    }
  }

  lemma EmptyHolds()
    ensures Inv(EMPTY)
  {}

  // ---- Reading -------------------------------------------------------------

  /** The failures a reader tells apart: nothing there, or bytes of some other key. */
  datatype BlobError = Absent | Corrupt | Transient

  function Get(d: Disk, key: BlobKey): Result<seq<byte>, BlobError> {
    if key.hex !in d.seen || d.seen[key.hex] !in d.files then Err(Absent)
    else
      var bytes := d.files[d.seen[key.hex]].content;
      if Matches(key, bytes) then Ok(bytes) else Err(Corrupt)
  }

  /** On any disk, reachable or not, a reader is given the bytes under the name only if they hash
      to it: bytes of some other key are refused, and only a missing object is absent. */
  lemma GetChecksTheBytes(d: Disk, key: BlobKey)
    requires key.algorithm == ALGORITHM && key.hex in d.seen && d.seen[key.hex] in d.files
    ensures var bytes := d.files[d.seen[key.hex]].content;
            Get(d, key) == if KeyFor(bytes) == key then Ok(bytes) else Err(Corrupt)
  {
    hide Computed, ToHex;
  }

  lemma PutsWereBegun(events: seq<Event>, bytes: seq<byte>)
    requires bytes in Run(events).puts
    ensures exists e <- events :: e.Begin? && e.bytes == bytes
  {
    hide TempName, ObjectName, TempIsFree, CreateFile;
    var n := |events| - 1;
    if bytes in Run(events[..n]).puts {
      PutsWereBegun(events[..n], bytes);
    } else {
      assert events[n] in events;
      StepPuts(Run(events[..n]), events[n]);
    }
  }

  lemma StepPuts(d: Disk, e: Event)
    ensures Step(d, e).puts <= d.puts + if e.Begin? then {e.bytes} else {}
  {
    hide TempName, ObjectName, TempIsFree;
  }

  /** **Absent or whole**: in every reachable state (a crash being one of the steps) reading
      a valid key finds nothing, or exactly the bytes of some put, hashing to that key. It
      never finds a partial or foreign object. */
  lemma GetIsAbsentOrWhole(events: seq<Event>, key: BlobKey)
    requires ValidKey(key)
    ensures Get(Run(events), key).Err? ==> Get(Run(events), key) == Err(Absent) && key.hex !in Run(events).seen
    ensures Get(Run(events), key).Ok? ==>
              && KeyFor(Get(Run(events), key).value) == key
              && exists e <- events :: e.Begin? && e.bytes == Get(Run(events), key).value
  {
    hide Run, WritersOwn, Computed, IsHash;
    EveryRunKeepsInv(events);
    if Get(Run(events), key).Ok? { PutsWereBegun(events, Get(Run(events), key).value); }
  }

  /** So where the digest tells the values put apart, a key finds nothing or its own bytes. */
  lemma GetReturnsThePut(events: seq<Event>, bytes: seq<byte>)
    requires bytes in Run(events).puts
    requires forall a, b :: a in Run(events).puts && b in Run(events).puts && Computed(a) == Computed(b) ==> a == b
    ensures Get(Run(events), KeyFor(bytes)) in {Err(Absent), Ok(bytes)}
  {
    hide Run, WritersOwn, Computed, IsHash;
    ComputedKeysAreValid(bytes);
    EveryRunKeepsInv(events);
    var found := Get(Run(events), KeyFor(bytes));
    GetIsAbsentOrWhole(events, KeyFor(bytes));
    if found.Ok? { HexIsInjective(Computed(found.value), Computed(bytes)); }
  }

  /** A put that fails before its rename takes its temp file with it and touches nothing else. */
  lemma FailedPutLeavesNothing(d: Disk, w: nat)
    requires w in d.writers && d.writers[w].stage != Renamed
    ensures var after := Step(d, Fail(w));
            && w !in after.writers && d.writers[w].temp !in after.seen
            && (forall n :: n != d.writers[w].temp ==> (n in after.seen <==> n in d.seen))
            && (forall n <- after.seen.Keys :: after.seen[n] == d.seen[n])
            && after.committed == d.committed && after.files == d.files
  {}

  /** Deleting takes a key's object away from readers and nothing else. */
  lemma DeletedReadsAbsent(events: seq<Event>, key: BlobKey, other: BlobKey)
    requires ValidKey(key) && ValidKey(other) && other != key
    ensures Get(Run(events + [Delete(key)]), key) == Err(Absent)
    ensures Get(Run(events + [Delete(key)]), other) == Get(Run(events), other)
  {
    hide Run, IsHash, Matches;
    RunOneMore(events, Delete(key));
  }

  // ---- What survives -------------------------------------------------------

  predicate Present(d: Disk, name: string) { name in d.seen && name in d.committed && Reached(d, Leaf(name)) }

  /** A path of durable directories stays one, through crashes too. */
  lemma StepKeepsReached(d: Disk, e: Event, leaf: string)
    requires Reached(d, leaf)
    ensures Reached(Step(d, e), leaf)
  {
    hide ObjectName, TempName, TempIsFree, Leaf, IsHash, InLeaf;
    PathsNest(leaf);
  }

  lemma PathsNest(leaf: string)
    ensures forall dir <- PathTo(Fan(leaf)) :: PathTo(dir) <= PathTo(Fan(leaf))
  {
    if |leaf| >= 2 { assert leaf[..2][..2] == leaf[..2]; }
  }

  lemma StepKeepsPresent(d: Disk, e: Event, name: string)
    requires Inv(d) && Present(d, name) && IsHash(name)
    requires e.Delete? ==> e.key.hex != name
    ensures Present(Step(d, e), name)
  {
    hide IsHash, ObjectName, TempName, ObjectsWhole, Injective, AllKnown, Apart, OneLeaf, TempIsFree, Leaf, Reached;
    StepKeepsReached(d, e, Leaf(name));
  }

  lemma {:induction false} PresentStays(before: seq<Event>, after: seq<Event>, name: string)
    requires Present(Run(before), name) && IsHash(name)
    requires forall e <- after :: e.Delete? ==> e.key.hex != name
    ensures Present(Run(before + after), name)
  {
    hide Step, Inv, IsHash, Present;
    if after == [] {
      assert before + after == before;
    } else {
      var n := |after| - 1;
      PresentStays(before, after[..n], name);
      EveryRunKeepsInv(before + after[..n]);
      StepKeepsPresent(Run(before + after[..n]), after[n], name);
      RunOneMore(before + after[..n], after[n]);
      assert before + after == before + after[..n] + [after[n]];
    }
  }

  lemma RunOneMore(events: seq<Event>, e: Event)
    ensures Run(events + [e]) == Step(Run(events), e)
  {
    hide Step;
    assert (events + [e])[..|events|] == events;
  }

  /** **A synced put survives** in a leaf directory a crash leaves where it is: once the fsync
      of that directory succeeds with the object in place, no later step but a delete of that
      key, and no crash, loses it; what is read hashes to the key. */
  lemma SyncedPutSurvives(before: seq<Event>, w: nat, after: seq<Event>, name: string)
    requires w in Run(before).writers && Run(before).writers[w].stage == Renamed
    requires name == ObjectName(Run(before).writers[w].bytes) && name in Run(before).seen
    requires Reached(Run(before), Leaf(name))
    requires forall e <- after :: e.Delete? ==> e.key.hex != name
    ensures Get(Run(before + [SyncDir(w, true)] + after), BlobKey(ALGORITHM, name)).Ok?
  {
    hide Run, IsHash, ObjectName, Get, Step, Reached, Leaf;
    var events := before + [SyncDir(w, true)];
    RunOneMore(before, SyncDir(w, true));
    SyncDirCommits(Run(before), w, name);
    ObjectNameIsHash(Run(before).writers[w].bytes);
    PresentStays(events, after, name);
    GetIsAbsentOrWhole(events + after, BlobKey(ALGORITHM, name));
  }

  lemma SyncDirCommits(d: Disk, w: nat, name: string)
    requires w in d.writers && d.writers[w].stage == Renamed && name in d.seen
    requires name == ObjectName(d.writers[w].bytes) && Reached(d, Leaf(name))
    ensures Present(Step(d, SyncDir(w, true)), name)
  {
    hide ObjectName, Leaf, Reached;
    StepKeepsReached(d, SyncDir(w, true), Leaf(name));
  }

  /** The event makes the directory's entries durable. */
  predicate MakesDurable(d: Disk, e: Event, leaf: string) {
    match e
    case Commit(l) => l == leaf
    case SyncDir(w, ok) =>
      ok && w in d.writers && d.writers[w].stage == Renamed && Leaf(ObjectName(d.writers[w].bytes)) == leaf
    case _ => false
  }

  ghost predicate NeverDurable(before: seq<Event>, after: seq<Event>, leaf: string) {
    forall i :: 0 <= i < |after| ==> !MakesDurable(Run(before + after[..i]), after[i], leaf)
  }

  lemma StepKeepsCommitted(d: Disk, e: Event, name: string)
    requires !MakesDurable(d, e, Leaf(name))
    ensures name in Step(d, e).committed <==> name in d.committed && (e.Crash? ==> Reached(d, Leaf(name)))
  {
    hide ObjectName, TempName, TempIsFree, Leaf, IsHash, Reached, PathTo;
  }

  /** Whenever the machine crashes, the path to the leaf directory is durable. */
  ghost predicate ReachedAtCrashes(before: seq<Event>, after: seq<Event>, leaf: string) {
    forall i :: 0 <= i < |after| && after[i].Crash? ==> Reached(Run(before + after[..i]), leaf)
  }

  lemma ReachedAtOneMore(before: seq<Event>, after: seq<Event>, e: Event, leaf: string)
    ensures ReachedAtCrashes(before, after + [e], leaf) <==>
            ReachedAtCrashes(before, after, leaf) && (e.Crash? ==> Reached(Run(before + after), leaf))
  {
    hide Run, Reached;
    var more := after + [e];
    assert more[..|after|] == after && forall i :: 0 <= i < |after| ==> more[..i] == after[..i] && more[i] == after[i];
    if ReachedAtCrashes(before, more, leaf) {
      assert more[|after|] == e;
      forall i | 0 <= i < |after| && after[i].Crash? ensures Reached(Run(before + after[..i]), leaf) {
        assert more[i].Crash?;
      }
    }
  }

  lemma {:induction false} CommittedStays(before: seq<Event>, after: seq<Event>, name: string)
    requires NeverDurable(before, after, Leaf(name))
    ensures name in Run(before + after).committed <==>
            name in Run(before).committed && ReachedAtCrashes(before, after, Leaf(name))
  {
    hide Step, Leaf, MakesDurable, Run, Reached;
    if after == [] {
      assert before + after == before;
    } else {
      var n := |after| - 1;
      forall i | 0 <= i < n ensures after[..n][..i] == after[..i] && after[..n][i] == after[i] {}
      CommittedStays(before, after[..n], name);
      ReachedAtOneMore(before, after[..n], after[n], Leaf(name));
      assert after == after[..n] + [after[n]];
      StepKeepsCommitted(Run(before + after[..n]), after[n], name);
      RunOneMore(before + after[..n], after[n]);
      assert before + after == before + after[..n] + [after[n]];
    }
  }

  lemma SyncDirCommitsIf(d: Disk, w: nat, ok: bool, name: string)
    requires w in d.writers && d.writers[w].stage == Renamed && name in d.seen
    requires name == ObjectName(d.writers[w].bytes)
    ensures name in Step(d, SyncDir(w, ok)).committed <==> ok || name in d.committed
  {
    hide ObjectName, Leaf;
  }

  /** **When a put survives a crash, exactly.** Whatever went before, and whatever follows
      short of its directory's entries becoming durable some other way, an object just put is
      found whole after a crash if and only if its directory fsync succeeded or its name was
      durable already, and the path to that directory was durable at the crash (at each, if
      there were several). */
  lemma SurvivesExactlyWhen(before: seq<Event>, w: nat, ok: bool, after: seq<Event>, name: string)
    requires w in Run(before).writers && Run(before).writers[w].stage == Renamed
    requires name == ObjectName(Run(before).writers[w].bytes) && name in Run(before).seen
    requires NeverDurable(before + [SyncDir(w, ok)], after, Leaf(name))
    ensures Get(Run(before + [SyncDir(w, ok)] + after + [Crash]), BlobKey(ALGORITHM, name)).Ok? <==>
            && (ok || name in Run(before).committed)
            && ReachedAtCrashes(before + [SyncDir(w, ok)], after + [Crash], Leaf(name))
  {
    hide Run, IsHash, ObjectName, Get, Step, Leaf, NeverDurable, ReachedAtCrashes, Reached;
    var events := before + [SyncDir(w, ok)];
    RunOneMore(before, SyncDir(w, ok));
    SyncDirCommitsIf(Run(before), w, ok, name);
    CommittedStays(events, after, name);
    RunOneMore(events + after, Crash);
    CrashShowsCommitted(Run(events + after));
    ReachedAtOneMore(events, after, Crash, Leaf(name));
    assert events + (after + [Crash]) == events + after + [Crash];
    ObjectNameIsHash(Run(before).writers[w].bytes);
    GetFindsNames(events + after + [Crash], name);
  }

  lemma CrashShowsCommitted(d: Disk)
    ensures forall n :: n in Step(d, Crash).seen <==> n in d.committed && Reached(d, Leaf(n))
  {
    hide Leaf, Reached;
  }

  /** The history of one put alone, up to the directory fsync, which the code lets fail. */
  function OnePut(bytes: seq<byte>, ok: bool): seq<Event> {
    [Begin(0, bytes, 0, 0, 0), WriteSome(0, |bytes|), SyncFile(0), Rename(0), SyncDir(0, ok)]
  }

  /** The directories a put makes. */
  function DirsFor(bytes: seq<byte>): set<Dir> { PathTo(Fan(Leaf(ObjectName(bytes)))) }

  /** One put alone, up to and including its rename. */
  lemma OnePutRenames(bytes: seq<byte>, ok: bool)
    ensures Run(OnePut(bytes, ok)[..4]) ==
            Disk(map[ObjectName(bytes) := 0], map[], map[0 := File(bytes, bytes, true)],
                 map[0 := Writer(bytes, TempName(ObjectName(bytes), 0, 0), 0, Renamed)], DirsFor(bytes), {}, {bytes})
  {
    hide Run, TempName, ObjectName, Step, PathTo, Leaf;
    var h, temp, made := OnePut(bytes, ok), TempName(ObjectName(bytes), 0, 0), DirsFor(bytes);
    var d1 := Disk(map[temp := 0], map[], map[0 := File([], [], false)], map[0 := Writer(bytes, temp, 0, Writing(0))],
        made, {}, {bytes});
    var d2 := d1.(files := map[0 := File(bytes, [], false)],
        writers := map[0 := Writer(bytes, temp, 0, Writing(|bytes|))]);
    var d3 := d2.(files := map[0 := File(bytes, bytes, true)], writers := map[0 := Writer(bytes, temp, 0, Synced)]);
    assert h[..0] == [] && h[..1] == h[..0] + [h[0]] && h[..2] == h[..1] + [h[1]];
    assert h[..3] == h[..2] + [h[2]] && h[..4] == h[..3] + [h[3]];
    RunNone();
    RunOneMore(h[..0], h[0]);
    RunOneMore(h[..1], h[1]);
    RunOneMore(h[..2], h[2]);
    RunOneMore(h[..3], h[3]);
    assert Step(EMPTY, h[0]) == d1 by { FirstSteps(bytes, temp); }
    assert Step(d1, h[1]) == d2 && Step(d2, h[2]) == d3 by { FirstSteps(bytes, temp); }
    TempIsNoHash(ObjectName(bytes), 0, 0);
    ObjectNameIsHash(bytes);
    assert Step(d3, h[3]) == RenameSynced(d3, 0) by { RenameIs(d3, 0); }
  }

  lemma RenameIs(d: Disk, w: nat)
    ensures Step(d, Rename(w)) == RenameSynced(d, w)
  {
    hide CommitLeaf, BeginPut, WriteSomeOf, SyncWritten, RenameSynced, SyncDirOf, FailPut, WriteBack, Reboot,
        MakeLast, TempName, ObjectName;
  }

  lemma FirstSteps(bytes: seq<byte>, temp: string)
    requires temp == TempName(ObjectName(bytes), 0, 0)
    ensures
      var d1 := Disk(map[temp := 0], map[], map[0 := File([], [], false)],
          map[0 := Writer(bytes, temp, 0, Writing(0))], DirsFor(bytes), {}, {bytes});
      var d2 := d1.(files := map[0 := File(bytes, [], false)],
          writers := map[0 := Writer(bytes, temp, 0, Writing(|bytes|))]);
      var d3 := d2.(files := map[0 := File(bytes, bytes, true)], writers := map[0 := Writer(bytes, temp, 0, Synced)]);
      Step(EMPTY, Begin(0, bytes, 0, 0, 0)) == d1 && Step(d1, WriteSome(0, |bytes|)) == d2
          && Step(d2, SyncFile(0)) == d3
  {
    hide TempName, ObjectName, PathTo, Leaf;
    assert bytes[..|bytes|] == bytes;
  }

  /** One put alone, its directory fsync behind it. */
  lemma OnePutDone(bytes: seq<byte>, ok: bool)
    ensures var d := Run(OnePut(bytes, ok));
            && d.seen == map[ObjectName(bytes) := 0] && d.files == map[0 := File(bytes, bytes, true)]
            && d.made == DirsFor(bytes) && d.lasting == {}
            && d.committed == if ok then d.seen else map[]
  {
    hide Run, TempName, ObjectName, PathTo, Leaf;
    var h := OnePut(bytes, ok);
    OnePutRenames(bytes, ok);
    assert h == h[..4] + [h[4]];
    RunOneMore(h[..4], h[4]);
  }

  lemma GetOne(d: Disk, bytes: seq<byte>)
    requires ObjectName(bytes) in d.seen && d.seen[ObjectName(bytes)] == 0
    requires 0 in d.files && d.files[0].content == bytes
    ensures Get(d, KeyFor(bytes)) == Ok(bytes)
  {
    hide Computed, ToHex;
  }

  /** **A first put can be lost although its directory fsync succeeded**: nothing makes the
      directories it made durable. */
  lemma FirstPutIsLost(bytes: seq<byte>, ok: bool)
    ensures Get(Run(OnePut(bytes, ok)), KeyFor(bytes)) == Ok(bytes)
    ensures Get(Run(OnePut(bytes, ok) + [Crash]), KeyFor(bytes)) == Err(Absent)
  {
    hide Run, ObjectName, Leaf, TempName, Computed, ToHex;
    OnePutDone(bytes, ok);
    GetOne(Run(OnePut(bytes, ok)), bytes);
    RunOneMore(OnePut(bytes, ok), Crash);
  }

  /** The system makes the directories of a put durable, from the root down. */
  function Settle(bytes: seq<byte>): seq<Event> {
    var leaf := Leaf(ObjectName(bytes));
    [CommitDir(Root), CommitDir(Algorithm), CommitDir(Fan(if |leaf| < 2 then leaf else leaf[..2])),
     CommitDir(Fan(leaf))]
  }

  lemma SettledAfter(before: seq<Event>, bytes: seq<byte>)
    requires DirsFor(bytes) <= Run(before).made
    ensures Run(before + Settle(bytes)) == Run(before).(lasting := Run(before).lasting + DirsFor(bytes))
  {
    hide Run, ObjectName, Leaf, BeginPut, CommitLeaf, Reboot, TempName;
    var s, d := Settle(bytes), Run(before);
    var a, b, c := before + [s[0]], before + [s[0]] + [s[1]], before + [s[0]] + [s[1]] + [s[2]];
    RunOneMore(before, s[0]);
    RunOneMore(a, s[1]);
    RunOneMore(b, s[2]);
    RunOneMore(c, s[3]);
    assert before + s == c + [s[3]];
    assert Run(c + [s[3]]).lasting == d.lasting + DirsFor(bytes);
  }

  /** The swallowed failure is a gap of its own: with the directories made durable, a put that
      returned success after a failed directory fsync is gone after a crash, and one whose
      fsync succeeded is not. */
  lemma SwallowedSyncFailure(bytes: seq<byte>, ok: bool)
    ensures Get(Run(OnePut(bytes, ok) + Settle(bytes)), KeyFor(bytes)) == Ok(bytes)
    ensures Get(Run(OnePut(bytes, ok) + Settle(bytes) + [Crash]), KeyFor(bytes)) ==
            if ok then Ok(bytes) else Err(Absent)
  {
    hide Run, ObjectName, Leaf, TempName, Computed, ToHex, PathTo, Settle;
    var events := OnePut(bytes, ok) + Settle(bytes);
    OnePutDone(bytes, ok);
    SettledAfter(OnePut(bytes, ok), bytes);
    GetOne(Run(events), bytes);
    RunOneMore(events, Crash);
    if ok { GetOne(Run(events + [Crash]), bytes); }
  }

  lemma RunNone()
    ensures Run([]) == EMPTY
  {}

  // ---- Probing and enumerating ---------------------------------------------

  const HASH_CHUNK := 64 * 1024

  datatype BlobStat = BlobStat(size: nat, hash: string)

  /** `head`: hash an object's bytes through a bounded buffer. Each read may return any
      non-zero number of bytes before the end, and may fail. */
  method Head(file: Option<seq<byte>>, key: BlobKey) returns (r: Result<BlobStat, BlobError>)
    ensures r == Err(Absent) <==> file.None?
    ensures r.Ok? ==>
              && r.value.size == (if |file.value| < U64_LIMIT then |file.value| else U64_LIMIT - 1)
              && r.value.hash == key.algorithm + ":" + KeyFor(file.value).hex
    ensures r != Err(Corrupt)
  {
    hide Computed, HashBlocks, PaddedWith, VarsBytes;
    if file.None? { return Err(Absent); }
    var bytes := file.value;
    var hasher := new Sha256();
    var size, at := 0, 0;
    while at < |bytes|
      invariant 0 <= at <= |bytes|
      invariant fresh(hasher) && fresh(hasher.state) && fresh(hasher.block)
      invariant hasher.Valid() && hasher.Absorbed() == bytes[..at]
      invariant hasher.totalBits == 8 * at % U64_LIMIT
      invariant size == if at < U64_LIMIT then at else U64_LIMIT - 1
    {
      var read :| 1 <= read <= HASH_CHUNK && at + read <= |bytes|;
      var failed :| failed || !failed;
      if failed { return Err(Transient); }
      hasher.Update(bytes[at..at + read]);
      CountedBits(at, read);
      assert bytes[..at + read] == bytes[..at] + bytes[at..at + read];
      size := if size + read < U64_LIMIT then size + read else U64_LIMIT - 1;
      at := at + read;
    }
    assert bytes[..at] == bytes;
    var digest := hasher.Finish();
    ComputedUnfolds(bytes);
    r := Ok(BlobStat(size, key.algorithm + ":" + ToHex(digest)));
  }

  /** What a directory walk meets: files, subdirectories, and entries that cannot be read. */
  datatype Entry = FileNamed(name: string) | Subdir(entries: seq<Entry>) | Unreadable

  /** The content addresses among the files beneath, in walk order. */
  function Objects(entries: seq<Entry>): seq<string> {
    if entries == [] then [] else Objects(entries[..|entries| - 1]) + ObjectsOf(entries[|entries| - 1])
  }

  function ObjectsOf(e: Entry): seq<string> {
    match e
    case FileNamed(name) => if IsHash(name) then [name] else []
    case Subdir(entries) => Objects(entries)
    case Unreadable => []
  }

  predicate Readable(entries: seq<Entry>) {
    forall e <- entries :: e != Unreadable && (e.Subdir? ==> Readable(e.entries))
  }

  /** A file of that name somewhere beneath. */
  predicate FileBeneath(entries: seq<Entry>, name: string) {
    exists e <- entries :: e == FileNamed(name) || (e.Subdir? && FileBeneath(e.entries, name))
  }

  /** The walk collects exactly the content-addressed files beneath, wherever they lie. */
  lemma {:induction false} ObjectsAreTheHashNamedFiles(entries: seq<Entry>, name: string)
    ensures name in Objects(entries) <==> IsHash(name) && FileBeneath(entries, name)
    decreases entries
  {
    hide IsHash;
    if entries != [] {
      var n := |entries| - 1;
      var last := entries[n];
      assert entries == entries[..n] + [last];
      ObjectsAreTheHashNamedFiles(entries[..n], name);
      if last.Subdir? { ObjectsAreTheHashNamedFiles(last.entries, name); }
    }
  }

  /** `collect_objects`: push every object beneath onto `out`; an unreadable entry fails the
      walk. Every key listed has this build's algorithm, so its hex stands for it. */
  method CollectObjects(entries: seq<Entry>, out: seq<string>) returns (r: Result<seq<string>, BlobError>)
    ensures r.Ok? <==> Readable(entries)
    ensures r.Ok? ==> r.value == out + Objects(entries)
    ensures r.Err? ==> r == Err(Transient)
    decreases entries
  {
    hide IsHash;
    var found := out;
    for i := 0 to |entries|
      invariant Readable(entries[..i]) && found == out + Objects(entries[..i])
    {
      assert entries[..i + 1] == entries[..i] + [entries[i]];
      assert entries[..i + 1][..i] == entries[..i];
      assert entries[i] in entries;
      match entries[i]
      case Subdir(inner) =>
        var deeper := CollectObjects(inner, found);
        if deeper.Err? { return Err(Transient); }
        found := deeper.value;
      case FileNamed(name) =>
        if IsHash(name) { found := found + [name]; }
      case Unreadable => return Err(Transient);
    }
    assert entries[..|entries|] == entries;
    r := Ok(found);
  }

  /** `list`: a container never written to holds nothing; otherwise the objects, sorted. */
  method List(container: Option<seq<Entry>>) returns (r: Result<seq<string>, BlobError>)
    ensures container.None? ==> r == Ok([])
    ensures container.Some? ==> (r.Ok? <==> Readable(container.value))
    ensures container.Some? && r.Ok? ==> Ascending(r.value) && multiset(r.value) == multiset(Objects(container.value))
  {
    hide SortText, Ascending, Objects, Readable;
    if container.None? { return Ok([]); }
    var walked := CollectObjects(container.value, []);
    if walked.Err? { return walked; }
    r := Ok(SortText(walked.value));
  }

  /** **Listing reports exactly the readable objects**, in every reachable state: what it
      names can be read whole, what can be read it names, and temp debris it never names. */
  lemma ListingIsExact(events: seq<Event>, entries: seq<Entry>, name: string)
    requires forall file :: FileBeneath(entries, file) <==> file in Run(events).seen
    ensures name in Objects(entries) <==> IsHash(name) && Get(Run(events), BlobKey(ALGORITHM, name)).Ok?
    ensures forall hex, pid, counter :: TempName(hex, pid, counter) !in Objects(entries)
  {
    hide Run, FileBeneath, Objects, IsHash, TempName, Get;
    ObjectsAreTheHashNamedFiles(entries, name);
    if IsHash(name) { GetFindsNames(events, name); }
    forall hex: string, pid: nat, counter: nat ensures TempName(hex, pid, counter) !in Objects(entries) {
      TempIsNoHash(hex, pid, counter);
      ObjectsAreTheHashNamedFiles(entries, TempName(hex, pid, counter));
    }
  }

  lemma GetFindsNames(events: seq<Event>, name: string)
    requires IsHash(name)
    ensures Get(Run(events), BlobKey(ALGORITHM, name)).Ok? <==> name in Run(events).seen
  {
    hide Run, IsHash, Matches;
    GetIsAbsentOrWhole(events, BlobKey(ALGORITHM, name));
  }
}
