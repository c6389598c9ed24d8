/**
 The artifact store: writers persist materialized packages step by step on a shared file system, any
 of them may fail or be killed between any two steps, and readers follow a pointer file.
 */
module ArtifactStore {
  import opened Wrappers
  import opened TarPaths

  type Id = string

  /** Hex digests; which of the two algorithms is said by the field. */
  datatype Digests = Digests(sha256: Bytes -> Id, sha512: Bytes -> Id)

  datatype Package = Package(name: Id, version: Id, fileName: Id, sha256: Id, integrity: Id)

  datatype Artifacts = Artifacts(version: Id, packages: seq<Package>)

  /** Keys are what they are digests of: the digests are taken to be injective. */
  datatype Acquisition = Acquisition(candidate: Id, environment: Id)

  datatype Key = Key(acquisition: Acquisition, artifacts: Artifacts)

  datatype Stored = Stored(acquisition: Acquisition, key: Key, candidate: Id, artifacts: Artifacts)

  function StoredOf(key: Key): Stored {
    Stored(key.acquisition, key, key.acquisition.candidate, key.artifacts)
  }

  /** A small text file: missing, unreadable as what it should be, or readable. */
  datatype File<T> = Absent | Garbled | Holds(value: T)

  datatype Directory = Directory(packages: map<Id, Bytes>, manifest: File<Stored>, complete: File<Key>)

  const EMPTY_DIRECTORY := Directory(map[], Absent, Absent)

  datatype Disk = Disk(
    staging: map<Id, Directory>, artifacts: map<Key, Directory>,
    temporary: map<Id, File<Key>>, pointers: map<Acquisition, File<Key>>)

  // ---------------------------------------------------------------- checks

  /** The files of the packages have the recorded sha256. */
  predicate Matches256(packages: seq<Package>, files: map<Id, Bytes>, d: Digests) {
    forall i :: 0 <= i < |packages| ==> packages[i].fileName in files && d.sha256(files[packages[i].fileName]) == packages[i].sha256
  }

  predicate Matches512(packages: seq<Package>, files: map<Id, Bytes>, d: Digests) {
    forall i :: 0 <= i < |packages| ==> packages[i].fileName in files && d.sha512(files[packages[i].fileName]) == packages[i].integrity
  }

  /** Every expected package once, all of one version. */
  predicate Identified(a: Artifacts, names: set<Id>) {
    && |a.packages| == |names|
    && (forall i :: 0 <= i < |a.packages| ==> a.packages[i].name in names && a.packages[i].version == a.version)
    && (forall i, j :: 0 <= i < j < |a.packages| ==> a.packages[i].name != a.packages[j].name)
  }

  /** `verifyCompletedMaterialization`. */
  predicate Verified(dir: Directory, expected: Stored, d: Digests) {
    && dir.complete == Holds(expected.key)
    && dir.manifest == Holds(expected)
    && Matches256(expected.artifacts.packages, dir.packages, d)
    && Matches512(expected.artifacts.packages, dir.packages, d)
  }

  datatype Reading = Nothing | Invalid | Reused(stored: Stored, files: map<Id, Bytes>)

  /** `readReusableMaterialization`, and the files it lets the caller copy. */
  function Read(disk: Disk, a: Acquisition, names: set<Id>, d: Digests): Reading {
    if a !in disk.pointers then Nothing
    else
      match disk.pointers[a]
      case Holds(key) =>
        if key !in disk.artifacts then Invalid
        else
          var dir := disk.artifacts[key];
          if dir.complete != Holds(key) || !dir.manifest.Holds? then Invalid
          else
            var s := dir.manifest.value;
            if s.acquisition != a || s.key != key || s.candidate != a.candidate
               || !Identified(s.artifacts, names) || Key(a, s.artifacts) != s.key
               || !Matches256(s.artifacts.packages, dir.packages, d) || !Matches512(s.artifacts.packages, dir.packages, d)
            then Invalid
            else Reused(s, dir.packages)
      case _ => Invalid
  }

  // ---------------------------------------------------------------- writers

  datatype Pc =
    | Copying(done: nat, torn: bool)
    | WritingManifest(torn: bool)
    | CheckingCopies
    | WritingCompletion(torn: bool)
    | Publishing
    | CheckingExisting
    | WritingPointer(torn: bool)
    | Switching
    | CleaningUp(failed: bool)
    | Ended(failed: bool)
    | Killed

  /** A writer of `StoredOf(key)`, whose packages are in `source`. */
  datatype Writer = Writer(key: Key, source: map<Id, Bytes>, staging: Id, temporary: Id, pc: Pc)

  /** The disk, the writers so far, and which of them published each artifact directory. */
  datatype World = World(disk: Disk, writers: map<Id, Writer>, authors: map<Key, Id>)

  const START := World(Disk(map[], map[], map[], map[]), map[], map[])

  function Packages(w: Writer): seq<Package> {
    w.key.artifacts.packages
  }

  /** What an interrupted write may leave in a file. */
  datatype Junk = Junk(bytes: Bytes, manifest: File<Stored>, key: File<Key>, directory: Directory)

  function WithDirectory(disk: Disk, name: Id, dir: Directory): Disk {
    disk.(staging := disk.staging[name := dir])
  }

  function DirectoryOf(disk: Disk, w: Writer): Directory {
    if w.staging in disk.staging then disk.staging[w.staging] else EMPTY_DIRECTORY
  }

  /** Is the writer still filling its staging directory? */
  predicate Filling(pc: Pc) {
    pc.Copying? || pc.WritingManifest? || pc.CheckingCopies? || pc.WritingCompletion?
  }

  /** The next statement of a writer that fills its staging directory. */
  function Fill(dir: Directory, w: Writer, junk: Junk, d: Digests): (Directory, Pc)
    requires Filling(w.pc)
  {
    match w.pc
    case Copying(done, torn) =>
      if done >= |Packages(w)| then (dir, WritingManifest(false))
      else
        var file := Packages(w)[done].fileName;
        if file !in w.source then (dir, CleaningUp(true))
        else if !torn then (dir.(packages := dir.packages[file := junk.bytes]), Copying(done, true))
        else (dir.(packages := dir.packages[file := w.source[file]]), Copying(done + 1, false))
    case WritingManifest(torn) =>
      if !torn then (dir.(manifest := junk.manifest), WritingManifest(true))
      else (dir.(manifest := Holds(StoredOf(w.key))), CheckingCopies)
    case CheckingCopies => (dir, if Matches256(Packages(w), dir.packages, d) then WritingCompletion(false) else CleaningUp(true))
    case WritingCompletion(torn) =>
      if !torn then (dir.(complete := junk.key), WritingCompletion(true))
      else (dir.(complete := Holds(w.key)), Publishing)
  }

  /** The next statement of the writer: the disk after it, and where the writer goes on. */
  function Statement(disk: Disk, w: Writer, junk: Junk, d: Digests): (Disk, Pc) {
    var dir := DirectoryOf(disk, w);
    if Filling(w.pc) then
      var (filled, pc) := Fill(dir, w, junk, d);
      (if filled == dir then disk else WithDirectory(disk, w.staging, filled), pc)
    else match w.pc
    case Publishing =>
      if w.key in disk.artifacts then (disk, CheckingExisting)
      else (disk.(staging := disk.staging - {w.staging}, artifacts := disk.artifacts[w.key := dir]), WritingPointer(false))
    case CheckingExisting =>
      (disk, if w.key in disk.artifacts && Verified(disk.artifacts[w.key], StoredOf(w.key), d) then WritingPointer(false)
             else CleaningUp(true))
    case WritingPointer(torn) =>
      if !torn then (disk.(temporary := disk.temporary[w.temporary := junk.key]), WritingPointer(true))
      else (disk.(temporary := disk.temporary[w.temporary := Holds(w.key)]), Switching)
    case Switching =>
      if w.temporary !in disk.temporary then (disk, CleaningUp(true))
      else (disk.(pointers := disk.pointers[w.key.acquisition := disk.temporary[w.temporary]],
                  temporary := disk.temporary - {w.temporary}), CleaningUp(false))
    case CleaningUp(failed) =>
      (disk.(staging := disk.staging - {w.staging}, temporary := disk.temporary - {w.temporary}), Ended(failed))
    case _ => (disk, w.pc)
  }

  datatype Move =
    | Begin(writer: Id, key: Key, source: map<Id, Bytes>, staging: Id, temporary: Id)
    | Run(writer: Id, junk: Junk)
    | Fail(writer: Id)
    | Kill(writer: Id)
    | Erode(writer: Id, junk: Junk)

  predicate Working(pc: Pc) {
    !pc.CleaningUp? && !pc.Ended? && !pc.Killed?
  }

  /** Staging directories and temporary pointers get names nobody had. */
  ghost predicate Possible(w: World, m: Move) {
    match m
    case Begin(id, _, _, staging, temporary) =>
      && id !in w.writers
      && forall v :: v in w.writers ==> w.writers[v].staging != staging && w.writers[v].temporary != temporary
    case Run(id, _) => id in w.writers
    case Fail(id) => id in w.writers && Working(w.writers[id].pc)
    case Kill(id) => id in w.writers
    case Erode(id, _) => id in w.writers && w.writers[id].pc.CleaningUp?
  }

  function WithPc(w: World, id: Id, disk: Disk, pc: Pc): World
    requires id in w.writers
  {
    World(disk, w.writers[id := w.writers[id].(pc := pc)], w.authors)
  }

  /**
   One move: a writer begins, runs its next statement, fails where it stands and goes on to clean up,
   is killed, or has removed part of its staging directory.
   */
  ghost function Moved(w: World, m: Move, d: Digests): World
    requires Possible(w, m)
  {
    match m
    case Begin(id, key, source, staging, temporary) =>
      World(WithDirectory(w.disk, staging, EMPTY_DIRECTORY),
            w.writers[id := Writer(key, source, staging, temporary, Copying(0, false))], w.authors)
    case Run(id, junk) =>
      var writer := w.writers[id];
      var (disk, pc) := Statement(w.disk, writer, junk, d);
      var v := WithPc(w, id, disk, pc);
      if writer.pc == Publishing && writer.key !in w.disk.artifacts then v.(authors := w.authors[writer.key := id]) else v
    case Fail(id) => WithPc(w, id, w.disk, CleaningUp(true))
    case Kill(id) => WithPc(w, id, w.disk, Killed)
    case Erode(id, junk) => w.(disk := WithDirectory(w.disk, w.writers[id].staging, junk.directory))
  }

  // ---------------------------------------------------------------- the invariant

  /** The first packages are copied. */
  ghost predicate Copied(w: Writer, dir: Directory, done: nat) {
    done <= |Packages(w)|
    && forall i :: 0 <= i < done ==>
         && Packages(w)[i].fileName in w.source && Packages(w)[i].fileName in dir.packages
         && dir.packages[Packages(w)[i].fileName] == w.source[Packages(w)[i].fileName]
  }

  /** A complete directory: all packages of the writer, their digests, its manifest and the completion mark. */
  ghost predicate Whole(w: Writer, dir: Directory, d: Digests) {
    && Copied(w, dir, |Packages(w)|)
    && Matches256(Packages(w), dir.packages, d)
    && dir.manifest == Holds(StoredOf(w.key))
    && dir.complete == Holds(w.key)
  }

  /** How far the staging directory of a writer is. */
  ghost predicate Staged(dir: Directory, w: Writer, d: Digests) {
    match w.pc
    case Copying(done, torn) =>
      if torn then done < |Packages(w)| && CopiedExcept(w, dir, done) else Copied(w, dir, done)
    case WritingManifest(_) => Copied(w, dir, |Packages(w)|)
    case CheckingCopies => Copied(w, dir, |Packages(w)|) && dir.manifest == Holds(StoredOf(w.key))
    case WritingCompletion(_) =>
      Copied(w, dir, |Packages(w)|) && Matches256(Packages(w), dir.packages, d) && dir.manifest == Holds(StoredOf(w.key))
    case Publishing => Whole(w, dir, d)
    case _ => true
  }

  ghost predicate StagedOk(disk: Disk, w: Writer, d: Digests) {
    Staged(DirectoryOf(disk, w), w, d)
  }

  /** The first packages are copied, except where a file is being overwritten. */
  ghost predicate CopiedExcept(w: Writer, dir: Directory, done: nat)
    requires done < |Packages(w)|
  {
    forall i :: 0 <= i < done && Packages(w)[i].fileName != Packages(w)[done].fileName ==>
      && Packages(w)[i].fileName in w.source && Packages(w)[i].fileName in dir.packages
      && dir.packages[Packages(w)[i].fileName] == w.source[Packages(w)[i].fileName]
  }

  /** Past publishing, the artifact is there; before switching, the temporary pointer names it. */
  ghost predicate PointerOk(disk: Disk, w: Writer) {
    && (w.pc.WritingPointer? || w.pc.Switching? ==> w.key in disk.artifacts)
    && (w.pc.Switching? ==> w.temporary in disk.temporary && disk.temporary[w.temporary] == Holds(w.key))
    && (w.pc == CleaningUp(false) || w.pc == Ended(false) ==> w.key.acquisition in disk.pointers)
  }

  ghost predicate NamesDiffer(w: World) {
    forall u, v :: u in w.writers && v in w.writers && u != v ==>
      w.writers[u].staging != w.writers[v].staging && w.writers[u].temporary != w.writers[v].temporary
  }

  ghost predicate WritersOk(w: World, d: Digests) {
    forall u :: u in w.writers ==> StagedOk(w.disk, w.writers[u], d) && PointerOk(w.disk, w.writers[u])
  }

  /** An artifact directory is a whole result of the writer that published it. */
  ghost predicate ArtifactOk(w: World, k: Key, d: Digests)
    requires k in w.disk.artifacts
  {
    && k in w.authors && w.authors[k] in w.writers && w.writers[w.authors[k]].key == k
    && Whole(w.writers[w.authors[k]], w.disk.artifacts[k], d)
  }

  ghost predicate ArtifactsOk(w: World, d: Digests) {
    forall k :: k in w.disk.artifacts ==> ArtifactOk(w, k, d)
  }

  /** A pointer names an artifact of its own acquisition. */
  ghost predicate PointersOk(disk: Disk) {
    forall a :: a in disk.pointers ==>
      disk.pointers[a].Holds? && disk.pointers[a].value in disk.artifacts && disk.pointers[a].value.acquisition == a
  }

  ghost predicate Inv(w: World, d: Digests) {
    NamesDiffer(w) && WritersOk(w, d) && ArtifactsOk(w, d) && PointersOk(w.disk)
  }

  // ---------------------------------------------------------------- every move keeps it

  /** What a move may change: published artifacts and existing pointers stay. */
  ghost predicate Evolves(t: Disk, u: Disk) {
    && (forall k :: k in t.artifacts ==> k in u.artifacts && u.artifacts[k] == t.artifacts[k])
    && (forall a :: a in t.pointers ==> a in u.pointers)
  }

  /** A statement touches no other writer's names. */
  ghost predicate Apart(t: Disk, u: Disk, w: Writer) {
    && (forall s :: s != w.staging ==> (s in u.staging <==> s in t.staging) && (s in t.staging ==> u.staging[s] == t.staging[s]))
    && (forall s :: s != w.temporary ==>
          (s in u.temporary <==> s in t.temporary) && (s in t.temporary ==> u.temporary[s] == t.temporary[s]))
  }

  lemma OthersKeep(t: Disk, u: Disk, w: Writer, other: Writer, d: Digests)
    requires Evolves(t, u) && Apart(t, u, w) && other.staging != w.staging && other.temporary != w.temporary
    requires StagedOk(t, other, d) && PointerOk(t, other)
    ensures StagedOk(u, other, d) && PointerOk(u, other)
  {
    assert DirectoryOf(u, other) == DirectoryOf(t, other);
    hide Staged;
  }

  /** The artifacts after a statement: as before, or with the directory the writer has just published. */
  ghost predicate Publishes(t: Disk, u: Disk, w: Writer, d: Digests) {
    if w.pc == Publishing && w.key !in t.artifacts
    then u.artifacts == t.artifacts[w.key := DirectoryOf(t, w)] && Whole(w, DirectoryOf(t, w), d)
    else u.artifacts == t.artifacts
  }

  /** What a statement does for its own writer, and to the shared tables. */
  ghost predicate StatementOk(t: Disk, u: Disk, w: Writer, pc: Pc, d: Digests) {
    && StagedOk(u, w.(pc := pc), d) && PointerOk(u, w.(pc := pc))
    && Evolves(t, u) && Apart(t, u, w) && PointersOk(u) && Publishes(t, u, w, d)
  }

  /** Writing into the staging directory, or nowhere. */
  lemma StagingWrite(t: Disk, w: Writer, dir: Directory)
    requires PointersOk(t)
    ensures var u := WithDirectory(t, w.staging, dir);
            DirectoryOf(u, w) == dir && Evolves(t, u) && Apart(t, u, w) && PointersOk(u) && u.artifacts == t.artifacts
    ensures Evolves(t, t) && Apart(t, t, w)
  {
  }

  lemma FillIsStaged(dir: Directory, w: Writer, junk: Junk, d: Digests)
    requires Filling(w.pc) && Staged(dir, w, d)
    ensures var (filled, pc) := Fill(dir, w, junk, d);
            Staged(filled, w.(pc := pc), d) && (Filling(pc) || pc == Publishing || pc == CleaningUp(true))
  {
  }

  /** Filling the staging directory. */
  lemma StagingStatement(t: Disk, w: Writer, junk: Junk, d: Digests)
    requires StagedOk(t, w, d) && PointersOk(t) && Filling(w.pc)
    ensures var (u, pc) := Statement(t, w, junk, d); StatementOk(t, u, w, pc, d)
  {
    hide Fill, Staged, PointersOk, Evolves, Apart;
    FillIsStaged(DirectoryOf(t, w), w, junk, d);
    StagingWrite(t, w, Fill(DirectoryOf(t, w), w, junk, d).0);
    hide WithDirectory;
  }

  lemma PublishStatement(t: Disk, w: Writer, junk: Junk, d: Digests)
    requires StagedOk(t, w, d) && PointersOk(t) && w.pc == Publishing
    ensures var (u, pc) := Statement(t, w, junk, d); StatementOk(t, u, w, pc, d)
  {
    hide Whole, Verified;
  }

  lemma CheckStatement(t: Disk, w: Writer, junk: Junk, d: Digests)
    requires PointerOk(t, w) && PointersOk(t) && (w.pc.CheckingExisting? || w.pc.Ended? || w.pc.Killed?)
    ensures var (u, pc) := Statement(t, w, junk, d); StatementOk(t, u, w, pc, d)
  {
    hide Whole, Verified;
  }

  lemma PointerStatement(t: Disk, w: Writer, junk: Junk, d: Digests)
    requires PointerOk(t, w) && PointersOk(t) && w.pc.WritingPointer?
    ensures var (u, pc) := Statement(t, w, junk, d); StatementOk(t, u, w, pc, d)
  {
  }

  lemma SwitchStatement(t: Disk, w: Writer, junk: Junk, d: Digests)
    requires PointerOk(t, w) && PointersOk(t) && w.pc.Switching?
    ensures var (u, pc) := Statement(t, w, junk, d); StatementOk(t, u, w, pc, d)
  {
  }

  lemma CleanStatement(t: Disk, w: Writer, junk: Junk, d: Digests)
    requires PointerOk(t, w) && PointersOk(t) && w.pc.CleaningUp?
    ensures var (u, pc) := Statement(t, w, junk, d); StatementOk(t, u, w, pc, d)
  {
  }

  lemma StatementIsOk(t: Disk, w: Writer, junk: Junk, d: Digests)
    requires StagedOk(t, w, d) && PointerOk(t, w) && PointersOk(t)
    ensures var (u, pc) := Statement(t, w, junk, d); StatementOk(t, u, w, pc, d)
  {
    hide StagedOk, PointerOk, PointersOk, StatementOk, Statement;
    if Filling(w.pc) {
      StagingStatement(t, w, junk, d);
    } else if w.pc == Publishing {
      PublishStatement(t, w, junk, d);
    } else if w.pc.WritingPointer? {
      PointerStatement(t, w, junk, d);
    } else if w.pc.Switching? {
      SwitchStatement(t, w, junk, d);
    } else if w.pc.CleaningUp? {
      CleanStatement(t, w, junk, d);
    } else {
      CheckStatement(t, w, junk, d);
    }
  }

  lemma OwnMoveKeepsWriters(w: World, v: World, id: Id, pc: Pc, d: Digests)
    requires NamesDiffer(w) && WritersOk(w, d) && id in w.writers && v.writers == w.writers[id := w.writers[id].(pc := pc)]
    requires StatementOk(w.disk, v.disk, w.writers[id], pc, d)
    ensures NamesDiffer(v) && WritersOk(v, d)
  {
    hide StagedOk, PointerOk, PointersOk, Evolves, Apart, Publishes;
    forall u | u in v.writers ensures StagedOk(v.disk, v.writers[u], d) && PointerOk(v.disk, v.writers[u]) {
      if u != id {
        OthersKeep(w.disk, v.disk, w.writers[id], w.writers[u], d);
      }
    }
  }

  lemma OwnMoveKeepsArtifacts(w: World, v: World, id: Id, pc: Pc, d: Digests)
    requires ArtifactsOk(w, d) && id in w.writers && v.writers == w.writers[id := w.writers[id].(pc := pc)]
    requires Publishes(w.disk, v.disk, w.writers[id], d)
    requires v.authors == if w.writers[id].pc == Publishing && w.writers[id].key !in w.disk.artifacts
                          then w.authors[w.writers[id].key := id] else w.authors
    ensures ArtifactsOk(v, d)
  {
    hide Whole, DirectoryOf;
    forall k | k in v.disk.artifacts ensures ArtifactOk(v, k, d) {
      if k in w.disk.artifacts {
        assert ArtifactOk(w, k, d);
        SameWhole(w.writers[w.authors[k]], v.writers[w.authors[k]], v.disk.artifacts[k], d);
      } else {
        SameWhole(w.writers[id], v.writers[id], v.disk.artifacts[k], d);
      }
    }
  }

  /** A move of one writer whose disk part is in order keeps the invariant. */
  lemma OwnMoveKeepsInv(w: World, v: World, id: Id, pc: Pc, d: Digests)
    requires Inv(w, d) && id in w.writers && v.writers == w.writers[id := w.writers[id].(pc := pc)]
    requires StatementOk(w.disk, v.disk, w.writers[id], pc, d)
    requires v.authors == if w.writers[id].pc == Publishing && w.writers[id].key !in w.disk.artifacts
                          then w.authors[w.writers[id].key := id] else w.authors
    ensures Inv(v, d) && Evolves(w.disk, v.disk)
  {
    hide NamesDiffer, WritersOk, ArtifactsOk, PointersOk, StagedOk, PointerOk, Evolves, Apart, Publishes;
    OwnMoveKeepsWriters(w, v, id, pc, d);
    OwnMoveKeepsArtifacts(w, v, id, pc, d);
  }

  /** Wholeness does not depend on where the writer is. */
  lemma SameWhole(a: Writer, b: Writer, dir: Directory, d: Digests)
    requires a.key == b.key && a.source == b.source && Whole(a, dir, d)
    ensures Whole(b, dir, d)
  {
  }

  lemma ErodeIsOk(t: Disk, w: Writer, dir: Directory, d: Digests)
    requires PointersOk(t) && PointerOk(t, w) && w.pc.CleaningUp?
    ensures StatementOk(t, WithDirectory(t, w.staging, dir), w, w.pc, d)
  {
  }

  lemma ErodeKeepsInv(w: World, id: Id, dir: Directory, d: Digests)
    requires Inv(w, d) && id in w.writers && w.writers[id].pc.CleaningUp?
    ensures var v := w.(disk := WithDirectory(w.disk, w.writers[id].staging, dir)); Inv(v, d) && Evolves(w.disk, v.disk)
  {
    assert PointersOk(w.disk) && PointerOk(w.disk, w.writers[id]);
    hide Inv, StatementOk, PointersOk, PointerOk, WithDirectory;
    var v := w.(disk := WithDirectory(w.disk, w.writers[id].staging, dir));
    assert w.writers[id := w.writers[id].(pc := w.writers[id].pc)] == w.writers;
    ErodeIsOk(w.disk, w.writers[id], dir, d);
    OwnMoveKeepsInv(w, v, id, w.writers[id].pc, d);
  }

  lemma NewWriterOk(disk: Disk, w: Writer, d: Digests)
    requires w.pc == Copying(0, false) && w.staging in disk.staging && disk.staging[w.staging] == EMPTY_DIRECTORY
    ensures StagedOk(disk, w, d) && PointerOk(disk, w)
  {
  }

  lemma BeginKeepsInv(w: World, m: Move, d: Digests)
    requires Inv(w, d) && Possible(w, m) && m.Begin?
    ensures Inv(Moved(w, m, d), d) && Evolves(w.disk, Moved(w, m, d).disk)
  {
    hide StagedOk, PointerOk, Whole;
    var v := Moved(w, m, d);
    var writer := v.writers[m.writer];
    NewWriterOk(v.disk, writer, d);
    forall u | u in v.writers ensures StagedOk(v.disk, v.writers[u], d) && PointerOk(v.disk, v.writers[u]) {
      if u != m.writer {
        OthersKeep(w.disk, v.disk, writer, w.writers[u], d);
      }
    }
    forall k | k in v.disk.artifacts ensures ArtifactOk(v, k, d) {
      assert ArtifactOk(w, k, d);
    }
  }

  lemma MoveKeepsInv(w: World, m: Move, d: Digests)
    requires Inv(w, d) && Possible(w, m)
    ensures Inv(Moved(w, m, d), d) && Evolves(w.disk, Moved(w, m, d).disk)
  {
    match m
    case Begin(_, _, _, _, _) => BeginKeepsInv(w, m, d);
    case Run(id, junk) =>
      assert StagedOk(w.disk, w.writers[id], d) && PointerOk(w.disk, w.writers[id]) && PointersOk(w.disk);
      hide Inv, StagedOk, PointerOk, PointersOk, StatementOk, Statement;
      StatementIsOk(w.disk, w.writers[id], junk, d);
      OwnMoveKeepsInv(w, Moved(w, m, d), id, Statement(w.disk, w.writers[id], junk, d).1, d);
    case Fail(id) => StopKeepsInv(w, id, CleaningUp(true), d);
    case Kill(id) => StopKeepsInv(w, id, Killed, d);
    case Erode(id, junk) => ErodeKeepsInv(w, id, junk.directory, d);
  }

  lemma StoppedIsOk(disk: Disk, w: Writer, pc: Pc, d: Digests)
    requires pc == CleaningUp(true) || pc == Killed
    ensures StagedOk(disk, w.(pc := pc), d) && PointerOk(disk, w.(pc := pc))
  {
  }

  /** A writer that stops where it stands leaves everything else as it is. */
  lemma StopKeepsInv(w: World, id: Id, pc: Pc, d: Digests)
    requires Inv(w, d) && id in w.writers && (pc == CleaningUp(true) || pc == Killed)
    ensures Inv(WithPc(w, id, w.disk, pc), d) && Evolves(w.disk, w.disk)
  {
    hide Whole, StagedOk, PointerOk;
    var v := WithPc(w, id, w.disk, pc);
    StoppedIsOk(w.disk, w.writers[id], pc, d);
    forall u | u in v.writers ensures StagedOk(v.disk, v.writers[u], d) && PointerOk(v.disk, v.writers[u]) {
      assert u != id ==> v.writers[u] == w.writers[u];
    }
    forall k | k in v.disk.artifacts ensures ArtifactOk(v, k, d) {
      assert ArtifactOk(w, k, d);
      SameWhole(w.writers[w.authors[k]], v.writers[w.authors[k]], v.disk.artifacts[k], d);
    }
  }

  // ---------------------------------------------------------------- runs

  ghost predicate IsRun(worlds: seq<World>, moves: seq<Move>, d: Digests) {
    && |worlds| == |moves| + 1
    && worlds[0] == START
    && forall i :: 0 <= i < |moves| ==> Possible(worlds[i], moves[i]) && worlds[i + 1] == Moved(worlds[i], moves[i], d)
  }

  lemma {:induction false} RunKeepsInv(worlds: seq<World>, moves: seq<Move>, d: Digests, i: nat, j: nat)
    requires IsRun(worlds, moves, d) && i <= j < |worlds|
    ensures Inv(worlds[i], d) && Evolves(worlds[i].disk, worlds[j].disk)
    decreases j
  {
    hide Moved, Possible;
    if j > 0 {
      hide Inv, Evolves;
      RunKeepsInv(worlds, moves, d, j - 1, j - 1);
      MoveKeepsInv(worlds[j - 1], moves[j - 1], d);
      hide IsRun;
      if i < j {
        RunKeepsInv(worlds, moves, d, i, j - 1);
        EvolvesOn(worlds[i].disk, worlds[j - 1].disk, worlds[j].disk);
      } else {
        EvolvesOn(worlds[j].disk, worlds[j].disk, worlds[j].disk);
      }
    }
  }

  lemma EvolvesOn(t: Disk, u: Disk, v: Disk)
    ensures Evolves(t, t) && (Evolves(t, u) && Evolves(u, v) ==> Evolves(t, v))
  {
  }

  /** In every state, each pointer names a whole artifact: manifest, completion mark, and packages with their digests. */
  lemma PointersNameWholeArtifacts(worlds: seq<World>, moves: seq<Move>, d: Digests, i: nat, a: Acquisition)
    requires IsRun(worlds, moves, d) && i < |worlds| && a in worlds[i].disk.pointers
    ensures var disk := worlds[i].disk;
            && disk.pointers[a].Holds? && disk.pointers[a].value in disk.artifacts
            && var (key, dir) := (disk.pointers[a].value, disk.artifacts[disk.pointers[a].value]);
               && key.acquisition == a && dir.complete == Holds(key)
               && dir.manifest == Holds(Stored(a, key, a.candidate, key.artifacts))
               && forall p :: p in key.artifacts.packages ==> p.fileName in dir.packages && d.sha256(dir.packages[p.fileName]) == p.sha256
  {
    hide IsRun, Copied;
    RunKeepsInv(worlds, moves, d, i, i);
    assert ArtifactOk(worlds[i], worlds[i].disk.pointers[a].value, d);
  }

  /** The packages are of one version, and are the named ones, each once. */
  ghost predicate NamesExactly(a: Artifacts, names: set<Id>) {
    && (forall p :: p in a.packages ==> p.version == a.version && p.name in names)
    && (forall n :: n in names ==> exists i :: 0 <= i < |a.packages| && a.packages[i].name == n)
    && (forall i, j :: 0 <= i < j < |a.packages| ==> a.packages[i].name != a.packages[j].name)
  }

  /** The names of the packages. */
  ghost function NamesOf(packages: seq<Package>): set<Id> {
    set p | p in packages :: p.name
  }

  lemma {:induction false} DistinctNames(packages: seq<Package>)
    requires forall i, j :: 0 <= i < j < |packages| ==> packages[i].name != packages[j].name
    ensures |NamesOf(packages)| == |packages|
  {
    if packages != [] {
      var (rest, last) := (packages[..|packages| - 1], packages[|packages| - 1]);
      DistinctNames(rest);
      assert NamesOf(packages) == NamesOf(rest) + {last.name};
      forall p | p in rest ensures p.name != last.name {
        var i :| 0 <= i < |rest| && rest[i] == p;
        assert packages[i].name != packages[|packages| - 1].name;
      }
    }
  }

  lemma SubsetOfSameSize(a: set<Id>, b: set<Id>)
    requires a <= b && |a| == |b|
    ensures a == b
  {
    assert |b - a| == |b| - |a|;
  }

  /** Counting the packages is enough to know that none is missing. */
  lemma IdentifiedIff(a: Artifacts, names: set<Id>)
    ensures Identified(a, names) <==> NamesExactly(a, names)
  {
    if Identified(a, names) {
      DistinctNames(a.packages);
      SubsetOfSameSize(NamesOf(a.packages), names);
      forall n | n in names ensures exists i :: 0 <= i < |a.packages| && a.packages[i].name == n {
        assert n in NamesOf(a.packages);
      }
    }
    if NamesExactly(a, names) {
      DistinctNames(a.packages);
      assert NamesOf(a.packages) == names;
    }
  }

  /** Every package has a file with the recorded sha512. */
  ghost predicate Intact512(packages: seq<Package>, files: map<Id, Bytes>, d: Digests) {
    forall p :: p in packages ==> p.fileName in files && d.sha512(files[p.fileName]) == p.integrity
  }

  /** What a reader asks of an artifact directory, whatever is on the disk. */
  ghost predicate Trustworthy(dir: Directory, key: Key, a: Acquisition, names: set<Id>, d: Digests) {
    && key.acquisition == a && dir.complete == Holds(key)
    && dir.manifest == Holds(Stored(a, key, a.candidate, key.artifacts))
    && NamesExactly(key.artifacts, names)
    && (forall p :: p in key.artifacts.packages ==> p.fileName in dir.packages && d.sha256(dir.packages[p.fileName]) == p.sha256)
    && Intact512(key.artifacts.packages, dir.packages, d)
  }

  /** On any disk, however it came about, a reader takes what a pointer names exactly when all of it is in order. */
  lemma ReusedIff(disk: Disk, a: Acquisition, names: set<Id>, d: Digests)
    ensures var r := Read(disk, a, names, d);
            && (r == Nothing <==> a !in disk.pointers)
            && (r.Reused? <==>
                  && a in disk.pointers && disk.pointers[a].Holds? && disk.pointers[a].value in disk.artifacts
                  && Trustworthy(disk.artifacts[disk.pointers[a].value], disk.pointers[a].value, a, names, d))
            && (r.Reused? ==>
                  && r.files == disk.artifacts[disk.pointers[a].value].packages
                  && disk.artifacts[disk.pointers[a].value].manifest == Holds(r.stored))
  {
    if a in disk.pointers && disk.pointers[a].Holds? {
      IdentifiedIff(disk.pointers[a].value.artifacts, names);
    }
    hide Identified, NamesExactly;
  }

  /**
   In every state a reader finds nothing exactly when there is no pointer, and otherwise the full
   result of one writer, with the very bytes that writer had, exactly when that writer's records name
   the expected packages and their sha512; it then finds an error exactly when they do not.
   */
  lemma ReaderGetsOneWritersResult(worlds: seq<World>, moves: seq<Move>, d: Digests, i: nat, a: Acquisition, names: set<Id>)
    requires IsRun(worlds, moves, d) && i < |worlds|
    ensures var (w, r) := (worlds[i], Read(worlds[i].disk, a, names, d));
            && (r == Nothing <==> a !in w.disk.pointers)
            && (r != Nothing ==>
                  exists id :: id in w.writers && w.writers[id].key.acquisition == a
                    && (r.Reused? <==> NamesExactly(w.writers[id].key.artifacts, names)
                                       && Intact512(Packages(w.writers[id]), w.writers[id].source, d))
                    && (r.Reused? ==>
                          && r.stored == Stored(a, w.writers[id].key, a.candidate, w.writers[id].key.artifacts)
                          && Copied(w.writers[id], Directory(r.files, Absent, Absent), |Packages(w.writers[id])|)))
  {
    hide IsRun;
    RunKeepsInv(worlds, moves, d, i, i);
    var w := worlds[i];
    if a in w.disk.pointers {
      var key := w.disk.pointers[a].value;
      assert ArtifactOk(w, key, d);
      hide Inv;
      var id := w.authors[key];
      var dir := w.disk.artifacts[key];
      SameDigests(w.writers[id], dir, d);
      IdentifiedIff(w.writers[id].key.artifacts, names);
      hide Identified, Matches512, Intact512, NamesExactly;
      assert id in w.writers && w.writers[id].key.acquisition == a;
    }
  }

  lemma SameDigests(w: Writer, dir: Directory, d: Digests)
    requires Copied(w, dir, |Packages(w)|)
    ensures Matches512(Packages(w), dir.packages, d) <==> Intact512(Packages(w), w.source, d)
  {
  }

  /** A reader that works over a longer time, while writers go on, finds in its artifact what it found at first. */
  lemma ArtifactsNeverChange(worlds: seq<World>, moves: seq<Move>, d: Digests, i: nat, j: nat, k: Key)
    requires IsRun(worlds, moves, d) && i <= j < |worlds| && k in worlds[i].disk.artifacts
    ensures k in worlds[j].disk.artifacts && worlds[j].disk.artifacts[k] == worlds[i].disk.artifacts[k]
  {
    hide IsRun, Inv;
    RunKeepsInv(worlds, moves, d, i, j);
  }

  /** After a writer succeeded, every later reader of its acquisition finds something. */
  lemma SuccessIsVisible(worlds: seq<World>, moves: seq<Move>, d: Digests, i: nat, j: nat, id: Id, names: set<Id>)
    requires IsRun(worlds, moves, d) && i <= j < |worlds|
    requires id in worlds[i].writers && worlds[i].writers[id].pc == Ended(false)
    ensures Read(worlds[j].disk, worlds[i].writers[id].key.acquisition, names, d) != Nothing
  {
    hide IsRun;
    RunKeepsInv(worlds, moves, d, i, j);
    assert PointerOk(worlds[i].disk, worlds[i].writers[id]);
  }
}
