/**
 The persisting program itself, file by file, on a disk it has to itself. Each of its statements is a
 move of the machine in ArtifactStore, so whatever holds in every state of a run there holds of the
 disk after every statement here, also when the program is killed at that point.
 */
module ArtifactWriter {
  import opened Wrappers
  import opened TarPaths
  import opened ArtifactStore

  class Process {
    var disk: Disk
    const digests: Digests
    ghost var worlds: seq<World>
    ghost var moves: seq<Move>

    /** The disk is what the recorded run leads to. */
    ghost predicate Valid()
      reads this
    {
      IsRun(worlds, moves, digests) && World().disk == disk
    }

    ghost function World(): World
      reads this
      requires worlds != []
    {
      worlds[|worlds| - 1]
    }

    constructor (digests: Digests)
      ensures Valid() && disk == START.disk && this.digests == digests
    {
      disk := START.disk;
      this.digests := digests;
      worlds, moves := [START], [];
    }

    /** Writer `id` of the recorded run is `w`, standing where `w` says. */
    ghost predicate Stands(id: Id, w: Writer)
      reads this
    {
      worlds != [] && id in World().writers && World().writers[id] == w
    }

    /** Records that the last statement was a move. */
    ghost method Note(m: Move)
      requires IsRun(worlds, moves, digests) && Possible(World(), m) && Moved(World(), m, digests).disk == disk
      modifies this`worlds, this`moves
      ensures Valid() && worlds == old(worlds) + [Moved(old(World()), m, digests)] && old(moves) <= moves
    {
      var next := Moved(World(), m, digests);
      var before := worlds;
      hide Moved, Possible;
      worlds := worlds + [next];
      moves := moves + [m];
      assert forall i :: 0 <= i < |before| ==> worlds[i] == before[i];
    }

    /** A statement of writer `id`, of which the disk shows the effect. */
    ghost method NoteStatement(id: Id, w: Writer, junk: Junk, before: Disk)
      requires IsRun(worlds, moves, digests) && World().disk == before && Stands(id, w)
      requires disk == Statement(before, w, junk, digests).0
      modifies this`worlds, this`moves
      ensures Valid() && Stands(id, w.(pc := Statement(before, w, junk, digests).1))
      ensures old(worlds) <= worlds
    {
      hide IsRun, Statement;
      Note(Run(id, junk));
    }

    /** The directory the writer fills. */
    function Staging(w: Writer): Directory
      reads this
    {
      DirectoryOf(disk, w)
    }

    /** Writes part of the staging directory: what is written over may be anything meanwhile. */
    method UpdateStaging(w: Writer, dir: Directory)
      modifies this`disk
      ensures disk == if dir == DirectoryOf(old(disk), w) then old(disk) else WithDirectory(old(disk), w.staging, dir)
    {
      if dir != Staging(w) {
        disk := disk.(staging := disk.staging[w.staging := dir]);
      }
    }

    /** Copies one package, unless its source is missing. */
    method CopyPackage(id: Id, w: Writer, i: nat, junk: Junk) returns (failed: bool)
      requires Valid() && Stands(id, w) && w.pc == Copying(i, false) && i < |Packages(w)|
      modifies this
      ensures Valid() && Stands(id, w.(pc := if failed then CleaningUp(true) else Copying(i + 1, false)))
      ensures old(worlds) <= worlds && disk.artifacts == old(disk).artifacts
      ensures failed <==> Packages(w)[i].fileName !in w.source
    {
      hide IsRun;
      var file := Packages(w)[i].fileName;
      if file !in w.source {
        NoteStatement(id, w, junk, disk);
        return true;
      }
      ghost var before := disk;
      UpdateStaging(w, Staging(w).(packages := Staging(w).packages[file := junk.bytes]));
      NoteStatement(id, w, junk, before);
      ghost var torn := w.(pc := Copying(i, true));
      before := disk;
      UpdateStaging(w, Staging(w).(packages := Staging(w).packages[file := w.source[file]]));
      NoteStatement(id, torn, junk, before);
      return false;
    }

    /** Every package of the writer has its bytes. */
    predicate HasSources(w: Writer) {
      forall i :: 0 <= i < |Packages(w)| ==> Packages(w)[i].fileName in w.source
    }

    method CopyPackages(id: Id, w: Writer, junk: Junk) returns (failed: bool)
      requires Valid() && Stands(id, w) && w.pc == Copying(0, false)
      modifies this
      ensures Valid() && Stands(id, w.(pc := if failed then CleaningUp(true) else WritingManifest(false)))
      ensures old(worlds) <= worlds && disk.artifacts == old(disk).artifacts
      ensures failed <==> !HasSources(w)
    {
      hide IsRun, Statement;
      for i := 0 to |Packages(w)|
        invariant Valid() && Stands(id, w.(pc := Copying(i, false)))
        invariant old(worlds) <= worlds && disk.artifacts == old(disk).artifacts
        invariant forall j :: 0 <= j < i ==> Packages(w)[j].fileName in w.source
      {
        failed := CopyPackage(id, w.(pc := Copying(i, false)), i, junk);
        if failed {
          return;
        }
      }
      CopiedAll(disk, w.(pc := Copying(|Packages(w)|, false)), junk, digests);
      NoteStatement(id, w.(pc := Copying(|Packages(w)|, false)), junk, disk);
      return false;
    }

    lemma CopiedAll(disk: Disk, w: Writer, junk: Junk, d: Digests)
      requires w.pc == Copying(|Packages(w)|, false)
      ensures Statement(disk, w, junk, d) == (disk, WritingManifest(false))
    {
    }

    method WriteManifest(id: Id, w: Writer, junk: Junk)
      requires Valid() && Stands(id, w) && w.pc == WritingManifest(false)
      modifies this
      ensures Valid() && Stands(id, w.(pc := CheckingCopies)) && old(worlds) <= worlds
      ensures disk.artifacts == old(disk).artifacts && Staging(w).packages == old(Staging(w)).packages
    {
      hide IsRun;
      ghost var before := disk;
      UpdateStaging(w, Staging(w).(manifest := junk.manifest));
      NoteStatement(id, w, junk, before);
      before := disk;
      UpdateStaging(w, Staging(w).(manifest := Holds(StoredOf(w.key))));
      NoteStatement(id, w.(pc := WritingManifest(true)), junk, before);
    }

    /** Checks the copies, and only then marks the staging directory complete. */
    method CheckAndComplete(id: Id, w: Writer, junk: Junk) returns (failed: bool)
      requires Valid() && Stands(id, w) && w.pc == CheckingCopies
      modifies this
      ensures Valid() && Stands(id, w.(pc := if failed then CleaningUp(true) else Publishing)) && old(worlds) <= worlds
      ensures disk.artifacts == old(disk).artifacts
      ensures failed <==> !Matches256(Packages(w), old(Staging(w)).packages, digests)
    {
      hide IsRun, Matches256;
      NoteStatement(id, w, junk, disk);
      if !Matches256(Packages(w), Staging(w).packages, digests) {
        return true;
      }
      ghost var before := disk;
      UpdateStaging(w, Staging(w).(complete := junk.key));
      NoteStatement(id, w.(pc := WritingCompletion(false)), junk, before);
      before := disk;
      UpdateStaging(w, Staging(w).(complete := Holds(w.key)));
      NoteStatement(id, w.(pc := WritingCompletion(true)), junk, before);
      return false;
    }

    method CompleteStaging(id: Id, w: Writer, junk: Junk) returns (failed: bool)
      requires Valid() && Stands(id, w) && w.pc == WritingManifest(false)
      modifies this
      ensures Valid() && Stands(id, w.(pc := if failed then CleaningUp(true) else Publishing)) && old(worlds) <= worlds
      ensures disk.artifacts == old(disk).artifacts
      ensures failed <==> !Matches256(Packages(w), w.source, digests)
    {
      CopiesMatchIff(id, w);
      hide IsRun, Statement, Matches256;
      WriteManifest(id, w, junk);
      failed := CheckAndComplete(id, w.(pc := CheckingCopies), junk);
    }

    /** Once all packages are copied, the copies have the recorded sha256 exactly when the sources have. */
    lemma CopiesMatchIff(id: Id, w: Writer)
      requires Valid() && Stands(id, w) && w.pc == WritingManifest(false)
      ensures Matches256(Packages(w), Staging(w).packages, digests) <==> Matches256(Packages(w), w.source, digests)
    {
      RunKeepsInv(worlds, moves, digests, |worlds| - 1, |worlds| - 1);
      hide IsRun;
      assert StagedOk(World().disk, World().writers[id], digests);
    }

    /** Renames the staging directory into place, or checks the one that is there. */
    method Publish(id: Id, w: Writer, junk: Junk) returns (failed: bool)
      requires Valid() && Stands(id, w) && w.pc == Publishing
      modifies this
      ensures Valid() && Stands(id, w.(pc := if failed then CleaningUp(true) else WritingPointer(false)))
      ensures old(worlds) <= worlds
      ensures failed <==> w.key in old(disk).artifacts && !Verified(old(disk).artifacts[w.key], StoredOf(w.key), digests)
    {
      hide IsRun, Verified;
      if w.key in disk.artifacts {
        NoteStatement(id, w, junk, disk);
        NoteStatement(id, w.(pc := CheckingExisting), junk, disk);
        return !Verified(disk.artifacts[w.key], StoredOf(w.key), digests);
      }
      ghost var before := disk;
      disk := disk.(staging := disk.staging - {w.staging}, artifacts := disk.artifacts[w.key := Staging(w)]);
      NoteStatement(id, w, junk, before);
      return false;
    }

    /** Writes the pointer aside and renames it into place. */
    method SwitchPointer(id: Id, w: Writer, junk: Junk)
      requires Valid() && Stands(id, w) && w.pc == WritingPointer(false)
      modifies this
      ensures Valid() && Stands(id, w.(pc := CleaningUp(false)))
      ensures disk.pointers == old(disk).pointers[w.key.acquisition := Holds(w.key)] && disk.artifacts == old(disk).artifacts
      ensures old(worlds) <= worlds
    {
      hide IsRun;
      ghost var before := disk;
      disk := disk.(temporary := disk.temporary[w.temporary := junk.key]);
      NoteStatement(id, w, junk, before);
      before := disk;
      disk := disk.(temporary := disk.temporary[w.temporary := Holds(w.key)]);
      NoteStatement(id, w.(pc := WritingPointer(true)), junk, before);
      before := disk;
      disk := disk.(pointers := disk.pointers[w.key.acquisition := disk.temporary[w.temporary]],
                    temporary := disk.temporary - {w.temporary});
      NoteStatement(id, w.(pc := Switching), junk, before);
    }

    method MakeStaging(id: Id, key: Key, source: map<Id, Bytes>, staging: Id, temporary: Id) returns (w: Writer)
      requires Valid() && Possible(World(), Begin(id, key, source, staging, temporary))
      modifies this
      ensures w == Writer(key, source, staging, temporary, Copying(0, false)) && disk.artifacts == old(disk).artifacts
      ensures Valid() && Stands(id, w) && old(worlds) <= worlds
    {
      hide IsRun, Possible;
      disk := disk.(staging := disk.staging[staging := EMPTY_DIRECTORY]);
      Note(Begin(id, key, source, staging, temporary));
      w := Writer(key, source, staging, temporary, Copying(0, false));
    }

    /** Removes what is left of the staging directory and of the temporary pointer. */
    method CleanUp(id: Id, w: Writer, junk: Junk)
      requires Valid() && Stands(id, w) && w.pc.CleaningUp?
      modifies this
      ensures Valid() && Stands(id, w.(pc := Ended(w.pc.failed))) && old(worlds) <= worlds
      ensures disk == old(disk).(staging := old(disk).staging - {w.staging}, temporary := old(disk).temporary - {w.temporary})
    {
      hide IsRun;
      ghost var before := disk;
      disk := disk.(staging := disk.staging - {w.staging}, temporary := disk.temporary - {w.temporary});
      NoteStatement(id, w, junk, before);
    }

    /**
     `persistMaterialization` for packages whose bytes are in `source`, undisturbed: a run of one
     writer from beginning to end. Nothing temporary remains. It fails exactly when a package has no bytes
     or not the recorded sha256, or an artifact of that key is there and does not verify; otherwise the
     pointer of the acquisition names the writer's artifact.
     */
    method Persist(id: Id, key: Key, source: map<Id, Bytes>, staging: Id, temporary: Id, junk: Junk) returns (failed: bool)
      requires Valid() && Possible(World(), Begin(id, key, source, staging, temporary))
      modifies this
      ensures Valid() && Stands(id, Writer(key, source, staging, temporary, Ended(failed))) && old(worlds) <= worlds
      ensures staging !in disk.staging && temporary !in disk.temporary
      ensures failed <==>
                || (exists i :: 0 <= i < |key.artifacts.packages| && key.artifacts.packages[i].fileName !in source)
                || !Matches256(key.artifacts.packages, source, digests)
                || (key in old(disk).artifacts && !Verified(old(disk).artifacts[key], StoredOf(key), digests))
      ensures !failed ==> key.acquisition in disk.pointers && disk.pointers[key.acquisition] == Holds(key)
    {
      hide IsRun, Statement, Possible, Matches256, Verified;
      var w := MakeStaging(id, key, source, staging, temporary);
      failed := CopyPackages(id, w, junk);
      assert failed <==> exists i :: 0 <= i < |key.artifacts.packages| && key.artifacts.packages[i].fileName !in source by {
        assert Packages(w) == key.artifacts.packages;
      }
      hide HasSources;
      if !failed {
        failed := CompleteStaging(id, w.(pc := WritingManifest(false)), junk);
      }
      if !failed {
        failed := Publish(id, w.(pc := Publishing), junk);
      }
      if !failed {
        SwitchPointer(id, w.(pc := WritingPointer(false)), junk);
      }
      CleanUp(id, w.(pc := CleaningUp(failed)), junk);
    }
  }
}
