/**
 The reversible archiver, step by step. Every `if *` is a kill or an I/O error; `Interfere` is what
 producers that are still running do to their files in between. Each method keeps `Valid`, so nothing
 is lost at any step, and a raw file goes away only under a seal that names exactly its bytes.
 */
module Archive {
  import opened Wrappers
  import opened RunDirectory

  datatype Reason =
    | Missing | RawDiverged | VerificationFailed | ModifiedDuringArchive | ArchiveMissing | InsufficientDisk | WriteFailed
    | PublishFailed | ManifestPublishFailed | SharedInode | SealMismatch | RemoveFailed | SealUnreadable

  datatype Outcome = Archived(retained: bool) | Skipped(why: Reason) | Failed(why: Reason)

  datatype Restoration = Restored | RawExists | NotRestored(why: Reason)

  // What `stat` tells of a file; two equal answers mean the file was not written in between.
  datatype Stat = Stat(ino: nat, stamp: nat)

  function StatOf(d: Dir, n: string): Option<Stat> {
    var now := At(d, Raw(n)).now;
    if now.Some? && now.value in d.inodes then Some(Stat(now.value, d.inodes[now.value].stamp)) else None
  }

  function RawBytes(d: Dir, n: string): Content
    requires StatOf(d, n).Some?
  {
    d.inodes[At(d, Raw(n)).now.value].content
  }

  predicate RawHolds(d: Dir, n: string, bytes: Content) {
    var now := At(d, Raw(n)).now;
    now.Some? && now.value in d.inodes && d.inodes[now.value].content == bytes
  }

  // These bytes were read; they are the file's, if the file is still as it was when it was first looked at.
  predicate Read(d: Dir, n: string, before: Stat, bytes: Content) {
    before.ino < d.clock && before.stamp < d.clock && (StatOf(d, n) == Some(before) ==> RawHolds(d, n, bytes))
  }

  predicate Archives(d: Dir, n: string, bytes: Content) {
    var now := At(d, Gz(n)).now;
    now.Some? && now.value in d.inodes && d.inodes[now.value].content == Zip(bytes) && d.inodes[now.value].kind == Ours
  }

  // Each raw file stays what it is, or goes away while it holds exactly the sealed bytes.
  ghost predicate Spared(d: Dir, d': Dir, seal: map<string, Content>) {
    forall n :: At(d', Raw(n)).now == At(d, Raw(n)).now || (At(d', Raw(n)).now.None? && n in seal && RawHolds(d, n, seal[n]))
  }

  // What the archiver's work never undoes, whatever producers do meanwhile.
  ghost predicate Worked(d: Dir, d': Dir) {
    && Keeps(d, d') && Extends(Current(d), Current(d'))
    && (forall n, bytes :: Archives(d, n, bytes) ==> Archives(d', n, bytes))
    && (forall n, before, bytes :: Read(d, n, before, bytes) ==> Read(d', n, before, bytes))
  }

  lemma WorkTransitive(d: Dir, e: Dir, f: Dir)
    requires Worked(d, e) && Worked(e, f)
    ensures Worked(d, f)
  {
  }

  // What the archiver by itself does to the raw files.
  ghost predicate Still(d: Dir, d': Dir, seal: map<string, Content>) {
    SameFiles(d, d') && Spared(d, d', seal)
  }

  lemma StillTransitive(d: Dir, e: Dir, f: Dir, seal: map<string, Content>)
    requires Shape(d) && Still(d, e, seal) && Still(e, f, seal)
    ensures Still(d, f, seal)
  {
    forall n ensures At(f, Raw(n)).now == At(d, Raw(n)).now || (At(f, Raw(n)).now.None? && n in seal && RawHolds(d, n, seal[n])) {
      assert At(d, Raw(n)).now in At(d, Raw(n)).may;
      assert At(e, Raw(n)).now == At(d, Raw(n)).now || At(e, Raw(n)).now.None?;
    }
  }

  lemma ProducedTransitive(d: Dir, e: Dir, f: Dir)
    requires Shape(d) && Produced(d, e) && Produced(e, f)
    ensures Produced(d, f)
  {
    forall name | At(f, name) != At(d, name)
      ensures name.Raw? && !IsSealed(d, At(d, name).now) && At(f, name).now in At(f, name).may
      ensures At(f, name).now == At(d, name).now || At(f, name).now.None? || d.clock <= At(f, name).now.value
      ensures forall v :: v in At(f, name).may ==> v in At(d, name).may || (v.Some? ==> d.clock <= v.value && v.value in f.inodes)
    {
      if At(e, name) == At(d, name) {
        assert At(f, name) != At(e, name);
        assert At(d, name).now.Some? ==> At(d, name).now.value !in d.inodes || At(d, name).now.value in e.inodes;
      } else {
        assert name.Raw? && !IsSealed(d, At(d, name).now);
      }
    }
  }

  // Every raw file is what it was.
  ghost predicate SameRaws(d: Dir, d': Dir) {
    SameFiles(d, d') && forall m :: At(d', Raw(m)).now == At(d, Raw(m)).now
  }

  // The manifest, its committed entries and its recovery copies are what they were.
  ghost predicate Kept(d: Dir, d': Dir) {
    Keeps(d, d') && Current(d') == Current(d)
  }

  // What a restoration of the file was told means this for the directory it started from.
  ghost predicate Answered(d0: Dir, d: Dir, n: string, r: Restoration) {
    && n in Current(d)
    && (r == Restored ==> RawHolds(d, n, Current(d)[n].digest))
    && (r == RawExists ==> At(d0, Raw(n)).now.Some? && !RawHolds(d, n, Current(d)[n].digest))
  }

  // Decompressing anything but a gzip fails.
  function Gunzip(c: Content): Option<Content> {
    if c.Zip? then Some(c.of) else None
  }

  class RunArchiver {
    // The sealed inventory; empty when the run has none.
    const seal: map<string, Content>
    // Whether producers may still be writing.
    const producers: bool
    ghost const originals: map<string, Content>

    var disk: Dir
    ghost var superseded: set<Manifest>
    ghost var generations: set<Manifest>
    ghost var removed: set<(string, Content)>

    ghost predicate Valid()
      reads this
    {
      && Ok(originals, superseded, disk) && Generations(generations, superseded, disk)
      && (forall n :: n in originals ==> n in seal && seal[n] == originals[n])
      && forall r :: r in removed ==> r.0 in seal && seal[r.0] == r.1
    }

    // A run directory that has no archive yet, whose sealed originals are durable.
    constructor (seal: map<string, Content>, producers: bool, disk: Dir, ghost originals: map<string, Content>)
      requires Shape(disk) && At(disk, ManifestFile).may == {None}
      requires forall name :: name in disk.entries ==> !name.Backup?
      requires forall n :: n in originals ==> n in seal && seal[n] == originals[n] && RawSafe(disk, n, originals[n])
      ensures Valid() && this.disk == disk && this.originals == originals && this.seal == seal && this.producers == producers
      ensures superseded == {} && generations == {} && removed == {}
    {
      this.seal, this.producers, this.disk, this.originals := seal, producers, disk, originals;
      this.superseded, this.generations, this.removed := {}, {}, {};
    }

    // A crash, and whatever the disk is left with. It loses at most the manifest that was put in place last,
    // and none that was synced.
    method Crash(left: Dir)
      requires Valid() && Crashed(disk, left)
      modifies this`disk, this`generations
      ensures Valid() && disk == left && Keeps(old(disk), disk)
      ensures generations <= old(generations) && old(generations) - generations <= {Current(old(disk))}
      ensures At(old(disk), ManifestFile).may == {At(old(disk), ManifestFile).now} ==> generations == old(generations)
    {
      hide Ok, Generations, Crashed, Keeps;
      CrashKeepsOk(originals, superseded, disk, left);
      CrashKeepsGenerations(originals, superseded, generations, disk, left);
      generations := Surviving(generations, superseded, left);
      disk := left;
    }

    /******* Producers *******/

    method Interfere()
      requires Valid()
      modifies this`disk
      ensures Valid() && Produced(old(disk), disk) && Keeps(old(disk), disk)
      ensures !producers ==> disk == old(disk)
    {
      hide ManifestOk, Recoverable, BackupsOk, HasBackup, RawSafe, InArchive, HasEntry, Generations;
      ghost var before := disk;
      var moves: nat := *;
      while producers && moves > 0
        invariant Valid() && Produced(before, disk) && Keeps(before, disk)
        invariant !producers ==> disk == before
      {
        var n: string := *;
        var bytes: Content := *;
        var replace: bool := *;
        var next := ProducerMove(n, bytes, replace);
        ProducedTransitive(before, disk, next);
        ProductionKeepsOk(originals, superseded, disk, next);
        ProducedKeepsGenerations(originals, superseded, generations, disk, next);
        disk := next;
        moves := moves - 1;
      }
    }

    // Rewrite, replace or remove one raw file that is not sealed.
    method ProducerMove(n: string, bytes: Content, replace: bool) returns (next: Dir)
      requires Valid()
      ensures Produced(disk, next)
    {
      hide ManifestOk, Recoverable, BackupsOk, HasBackup, RawSafe, InArchive, HasEntry, Generations;
      next := disk;
      var now := At(disk, Raw(n)).now;
      assert now in At(disk, Raw(n)).may;
      if IsSealed(disk, now) {
        return;
      }
      if now.Some? && !replace {
        if disk.inodes[now.value].kind == Live {
          next := disk.(inodes := disk.inodes[now.value := Inode(bytes, false, disk.clock, Live)], clock := disk.clock + 1);
        }
      } else if * {
        next := Put(Create(disk, bytes, Live), Raw(n), Some(disk.clock));
      } else {
        next := Put(disk, Raw(n), None);
      }
    }

    /******* Building blocks *******/

    // Write a private temporary file and make its bytes durable, unless that fails.
    method WriteTemp(content: Content, kind: Kind, mayFail: bool) returns (ok: bool, i: nat)
      requires Valid()
      modifies this`disk
      ensures Valid() && Quiet(old(disk), disk)
      ensures ok || mayFail
      ensures ok ==> i in disk.inodes && i !in old(disk).inodes && disk.inodes[i].synced
                     && disk.inodes[i].content == content && disk.inodes[i].kind == kind
    {
      ghost var d0 := disk;
      NewFile(originals, superseded, disk);
      hide Ok, Quiet, Generations;
      if mayFail {
        if * {
          return false, 0;
        }
      }
      i := disk.clock;
      CreateKeepsOk(originals, superseded, disk, content, kind);
      QuietKeepsGenerations(originals, superseded, generations, disk, Create(disk, content, kind));
      disk := Create(disk, content, kind);
      ghost var d1 := disk;
      TempKeepsOk(originals, superseded, disk, i, Some(i));
      PutKeepsGenerations(superseded, generations, disk, Temp(i), Some(i));
      disk := Put(disk, Temp(i), Some(i));
      QuietTransitive(d0, d1, disk);
      ghost var d2 := disk;
      if mayFail {
        if * {
          return false, i;
        }
      }
      SyncFileKeepsOk(originals, superseded, disk, i);
      QuietKeepsGenerations(originals, superseded, generations, disk, SyncFile(disk, i));
      disk := SyncFile(disk, i);
      QuietTransitive(d0, d2, disk);
      ok := true;
    }

    method DropTemp(i: nat)
      requires Valid()
      modifies this`disk
      ensures Valid() && Quiet(old(disk), disk) && disk.inodes == old(disk).inodes
      ensures forall name: Name :: !name.Temp? ==> At(disk, name) == At(old(disk), name)
    {
      hide Ok, Quiet, Generations;
      TempKeepsOk(originals, superseded, disk, i, None);
      PutKeepsGenerations(superseded, generations, disk, Temp(i), None);
      disk := Put(disk, Temp(i), None);
    }

    method FsyncDirectory()
      requires Valid()
      modifies this`disk
      ensures Valid() && Quiet(old(disk), disk) && disk.inodes == old(disk).inodes
      ensures forall name :: At(disk, name) == Slot(At(old(disk), name).now, {At(old(disk), name).now})
    {
      hide Ok, Quiet, Generations;
      SyncDirectoryKeepsOk(originals, superseded, disk);
      QuietKeepsGenerations(originals, superseded, generations, disk, SyncDirectory(disk));
      disk := SyncDirectory(disk);
    }

    /******* The manifest *******/

    // Make sure the current manifest has a durable copy under its content's name.
    method SaveBackup(m: Manifest, mayFail: bool) returns (saved: bool)
      requires Valid()
      modifies this`disk
      ensures Valid() && Quiet(old(disk), disk)
      ensures saved ==> HasBackup(disk, m)
      ensures saved || mayFail
    {
      hide Ok, Quiet, HasBackup, Generations;
      ghost var d0 := disk;
      NewFile(originals, superseded, disk);
      var copy := At(disk, Backup(m)).now;
      if copy.Some? {
        CopyIsWhole(originals, superseded, disk, m);
        if copy.value !in disk.inodes || disk.inodes[copy.value].content != Doc(m) {
          return false;
        }
      } else {
        var ok, i := WriteTemp(Doc(m), Ours, mayFail);
        if !ok {
          return false;
        }
        ghost var d1 := disk;
        LinkBackupKeepsOk(originals, superseded, disk, m, i);
        PutKeepsGenerations(superseded, generations, disk, Backup(m), Some(i));
        disk := Put(disk, Backup(m), Some(i));
        ghost var d2 := disk;
        QuietTransitive(d0, d1, disk);
        DropTemp(i);
        QuietTransitive(d0, d2, disk);
      }
      if mayFail {
        if * {
          return false;
        }
      }
      ghost var d3 := disk;
      FsyncDirectory();
      QuietTransitive(d0, d3, disk);
      BackupIsDurable(originals, superseded, disk, m);
      saved := true;
    }

    // `_write_manifest`: entries are only ever added, and a copy of what is superseded comes first.
    method WriteManifest(updated: Manifest, mayFail: bool) returns (done: bool)
      requires Valid() && At(disk, ManifestFile).may == {At(disk, ManifestFile).now}
      requires forall n :: n in updated ==> ArchiveSafe(disk, n, updated[n].digest)
      modifies this`disk, this`superseded, this`generations
      ensures Valid() && Recorded(old(disk), disk) && old(superseded) <= superseded && old(generations) <= generations
      ensures Current(disk) != Current(old(disk)) && At(old(disk), ManifestFile).now.Some? ==> Current(old(disk)) in superseded
      ensures done || mayFail || !Extends(Current(old(disk)), updated)
      ensures done ==> Current(disk) == updated && forall n :: n in updated ==> HasEntry(disk, n, updated[n])
    {
      ghost var d0 := disk;
      NewFile(originals, superseded, disk);
      QuietIsRecorded(originals, superseded, d0, disk);
      hide Ok, Quiet, HasBackup, ArchiveSafe, HasEntry, Recorded, Generations, Extends;
      var existing := At(disk, ManifestFile).now;
      var files := Current(disk);
      if mayFail {
        if * {
          return false;
        }
      }
      if existing.Some? {
        if !Extends(files, updated) {
          return false;
        }
        if files == updated {
          CurrentIsCommitted(disk);
          return true;
        }
        var saved := SaveBackup(files, mayFail);
        QuietIsRecorded(originals, superseded, d0, disk);
        if !saved {
          return false;
        }
      }
      if existing.None? {
        NothingExtends(disk, updated);
      }
      RecordedKeepsArchives(d0, disk);
      ghost var d1 := disk;
      done := ReplaceManifest(updated, mayFail);
      RecordedTransitive(d0, d1, disk);
    }

    // Write the new manifest to a private file, then publish it.
    method ReplaceManifest(updated: Manifest, mayFail: bool) returns (done: bool)
      requires Valid() && Extends(Current(disk), updated)
      requires forall n :: n in updated ==> ArchiveSafe(disk, n, updated[n].digest)
      requires At(disk, ManifestFile).now.Some? ==> HasBackup(disk, Current(disk))
      modifies this`disk, this`superseded, this`generations
      ensures Valid() && Recorded(old(disk), disk) && old(superseded) <= superseded && old(generations) <= generations
      ensures Current(disk) != Current(old(disk)) && At(old(disk), ManifestFile).now.Some? ==> Current(old(disk)) in superseded
      ensures done || mayFail
      ensures done ==> Current(disk) == updated && forall n :: n in updated ==> HasEntry(disk, n, updated[n])
    {
      hide Ok, Quiet, HasBackup, ArchiveSafe, HasEntry, Recorded, Generations, Extends;
      ghost var d0 := disk;
      var ok, i := WriteTemp(Doc(updated), Ours, mayFail);
      QuietIsRecorded(originals, superseded, d0, disk);
      if !ok {
        return false;
      }
      RecordedKeepsArchives(d0, disk);
      ghost var d1 := disk;
      done := PublishManifest(updated, i, mayFail);
      RecordedTransitive(d0, d1, disk);
    }

    // Put the new manifest in place of the old one, and make that durable.
    method PublishManifest(updated: Manifest, i: nat, mayFail: bool) returns (done: bool)
      requires Valid() && Holds(disk, Some(i), Doc(updated)) && Extends(Current(disk), updated)
      requires forall n :: n in updated ==> ArchiveSafe(disk, n, updated[n].digest)
      requires At(disk, ManifestFile).now.Some? ==> HasBackup(disk, Current(disk))
      modifies this`disk, this`superseded, this`generations
      ensures Valid() && Recorded(old(disk), disk) && generations == old(generations) + {updated}
      ensures superseded == old(superseded) + (if At(old(disk), ManifestFile).now.Some? then {Current(old(disk))} else {})
      ensures done || mayFail
      ensures done ==> Current(disk) == updated && forall n :: n in updated ==> HasEntry(disk, n, updated[n])
    {
      hide Ok, Quiet, HasBackup, ArchiveSafe, HasEntry, Recorded, Extends, Generations;
      ghost var d0, old_ := disk, if At(disk, ManifestFile).now.Some? then {Current(disk)} else {};
      PublishManifestKeepsOk(originals, superseded, disk, updated, i);
      PublishingAddsGeneration(superseded, generations, disk, updated, i);
      disk := Put(disk, ManifestFile, Some(i));
      superseded, generations := superseded + old_, generations + {updated};
      if mayFail {
        if * {
          return false;
        }
      }
      ghost var d1 := disk;
      FsyncDirectory();
      QuietIsRecorded(originals, superseded, d1, disk);
      RecordedTransitive(d0, d1, disk);
      CurrentIsCommitted(disk);
      ghost var d2 := disk;
      DropTemp(i);
      QuietIsRecorded(originals, superseded, d2, disk);
      RecordedTransitive(d0, d2, disk);
      RecordedKeepsArchives(d2, disk);
      done := true;
    }

    /******* Archiving one file *******/

    // What becomes of a file whose entry is committed, unless something fails: it is removed if its owner sealed
    // exactly these bytes, and stays otherwise.
    function Committed(n: string, bytes: Content): Outcome {
      if n !in seal then Archived(true) else if seal[n] == bytes then Archived(false) else Skipped(SealMismatch)
    }

    // What becomes of a file, unless something fails or a producer interferes: it is archived, unless it differs
    // from its entry or an archive that nobody vouches for has the name and does not decompress to it.
    function Verdict(n: string, known: Option<Info>): Outcome
      requires StatOf(disk, n).Some?
      reads this`disk
    {
      if Differs(n, known) then if known.Some? then Skipped(RawDiverged) else Failed(VerificationFailed)
      else Committed(n, RawBytes(disk, n))
    }

    predicate Differs(n: string, known: Option<Info>)
      requires StatOf(disk, n).Some?
      reads this`disk
    {
      if known.Some? then RawBytes(disk, n) != known.value.digest
      else At(disk, Gz(n)).now.Some? && !Archives(disk, n, RawBytes(disk, n))
    }

    // Digest or compress the raw file. If it was written to meanwhile, what was read may be anything.
    method ReadRaw(n: string, before: Stat) returns (bytes: Option<Content>)
      requires Valid() && before.ino < disk.clock && before.stamp < disk.clock
      modifies this`disk
      ensures Valid() && Produced(old(disk), disk) && Keeps(old(disk), disk) && (!producers ==> disk == old(disk))
      ensures bytes.Some? ==> Read(disk, n, before, bytes.value)
      ensures StatOf(disk, n) == Some(before) ==> bytes.Some?
    {
      hide Ok, Keeps, Generations;
      Interfere();
      var now := At(disk, Raw(n)).now;
      if now.None? || now.value !in disk.inodes {
        return None;
      }
      if StatOf(disk, n) == Some(before) {
        bytes := Some(disk.inodes[now.value].content);
      } else {
        var torn: Content := *;
        bytes := Some(torn);
      }
    }

    // Compress the raw file into a new archive, verify it, and name it without replacing anything.
    method MakeArchive(n: string, before: Stat, mayFail: bool) returns (bytes: Option<Content>, why: Outcome)
      requires Valid() && before.ino < disk.clock && before.stamp < disk.clock
      modifies this`disk
      ensures Valid() && Worked(old(disk), disk) && (!producers ==> Still(old(disk), disk, seal))
      ensures bytes.Some? ==> Archives(disk, n, bytes.value) && Read(disk, n, before, bytes.value)
      ensures bytes.None? ==> !why.Archived? && why != Failed(ArchiveMissing)
      ensures Current(disk) == Current(old(disk)) && (!producers ==> SameRaws(old(disk), disk))
      ensures !producers && StatOf(old(disk), n) == Some(before) ==>
                why != Skipped(Missing) && (At(old(disk), Gz(n)).now.None? ==> bytes.Some? || mayFail)
    {
      hide Ok, Keeps, Quiet, Produced, Worked, Still, SameRaws, StatOf, Archives, Read, Generations;
      ghost var d0 := disk;
      StillRefl(originals, superseded, d0, seal);
      SameRawsRefl(originals, superseded, d0);
      var raw := ReadRaw(n, before);
      ProducedIsWork(originals, superseded, d0, disk);
      if raw.None? {
        return None, Failed(WriteFailed);
      }
      ghost var d1 := disk;
      var ok, i := WriteTemp(Zip(raw.value), Ours, mayFail);
      QuietIsWork(originals, superseded, d1, disk, seal);
      QuietKeepsRaws(originals, superseded, d1, disk);
      WorkTransitive(d0, d1, disk);
      if !ok {
        return None, Failed(WriteFailed);
      }
      if mayFail {
        if * {
          return None, Failed(VerificationFailed);
        }
      }
      if Gunzip(disk.inodes[i].content) != raw {
        return None, Failed(VerificationFailed);
      }
      ghost var d2 := disk;
      WorkKeepsRead(d1, disk, n, Info(raw.value, 0), before);
      var linked;
      linked, why := LinkArchive(n, before, i, raw.value, mayFail);
      WorkTransitive(d0, d2, disk);
      if !producers {
        StillTransitiveOk(originals, superseded, d0, d2, disk, seal);
        SameRawsTransitive(d0, d2, disk);
      }
      bytes := if linked then raw else None;
    }

    // Give the new archive its name, if the raw file still is what it was and no archive has that name.
    method LinkArchive(n: string, before: Stat, i: nat, bytes: Content, mayFail: bool) returns (linked: bool, why: Outcome)
      requires Valid() && i in disk.inodes && disk.inodes[i].kind == Ours && disk.inodes[i].synced && disk.inodes[i].content == Zip(bytes)
      requires Read(disk, n, before, bytes)
      modifies this`disk
      ensures Valid() && Worked(old(disk), disk) && (!producers ==> Still(old(disk), disk, seal))
      ensures linked ==> Archives(disk, n, bytes) && Read(disk, n, before, bytes)
      ensures !linked ==> !why.Archived? && why != Failed(ArchiveMissing)
      ensures Current(disk) == Current(old(disk)) && (!producers ==> SameRaws(old(disk), disk))
      ensures !producers && StatOf(old(disk), n) == Some(before) ==>
                why != Skipped(Missing) && (At(old(disk), Gz(n)).now.None? ==> linked || mayFail)
    {
      hide Ok, Keeps, Quiet, Produced, Worked, Still, SameRaws, StatOf, Archives, Read, Generations;
      ghost var d0 := disk;
      StillRefl(originals, superseded, d0, seal);
      SameRawsRefl(originals, superseded, d0);
      Interfere();
      ProducedIsWork(originals, superseded, d0, disk);
      OwnFileLeft(originals, superseded, d0, disk, i);
      WorkKeepsRead(d0, disk, n, Info(bytes, 0), before);
      if StatOf(disk, n) != Some(before) {
        return false, if StatOf(disk, n).None? then Skipped(Missing) else Skipped(ModifiedDuringArchive);
      }
      if At(disk, Gz(n)).now.Some? {
        return false, Failed(PublishFailed);
      }
      ghost var d1 := disk;
      LinkArchiveKeepsOk(originals, superseded, disk, n, i);
      LinkIsWork(originals, superseded, disk, n, i, bytes, seal);
      PutKeepsGenerations(superseded, generations, disk, Gz(n), Some(i));
      disk := Put(disk, Gz(n), Some(i));
      WorkTransitive(d0, d1, disk);
      WorkKeepsRead(d1, disk, n, Info(bytes, 0), before);
      if mayFail {
        if * {
          return false, Failed(PublishFailed);
        }
      }
      ghost var d2 := disk;
      FsyncDirectory();
      QuietIsWork(originals, superseded, d2, disk, seal);
      QuietKeepsRaws(originals, superseded, d2, disk);
      WorkTransitive(d0, d2, disk);
      WorkKeeps(d2, disk, n, bytes);
      WorkKeepsRead(d2, disk, n, Info(bytes, 0), before);
      if !producers {
        StillTransitiveOk(originals, superseded, d0, d2, disk, seal);
        SameRawsTransitive(d0, d2, disk);
      }
      linked, why := true, Archived(true);
    }

    // Durably commit one entry whose archive has been verified.
    method Record(n: string, manifest: Manifest, info: Info, mayFail: bool) returns (done: bool)
      requires Valid() && Extends(manifest, Current(disk)) && Archives(disk, n, info.digest)
      modifies this`disk, this`superseded, this`generations
      ensures Valid() && Worked(old(disk), disk) && (!producers ==> Still(old(disk), disk, seal))
      ensures old(superseded) <= superseded && old(generations) <= generations
      ensures done || mayFail || !Extends(Current(old(disk)), manifest[n := info])
      ensures !producers ==> SameRaws(old(disk), disk)
      ensures done ==> Current(disk) == manifest[n := info] && HasEntry(disk, n, info)
    {
      hide Ok, Keeps, HasEntry, ArchiveSafe, Recorded, Quiet, Produced, Worked, Still, Archives, Generations;
      ghost var d0 := disk;
      Interfere();
      ProducedIsWork(originals, superseded, d0, disk);
      StillRefl(originals, superseded, d0, seal);
      WorkKeeps(d0, disk, n, info.digest);
      if mayFail {
        if * {
          return false;
        }
      }
      ghost var d1 := disk;
      var synced := SyncArchive(n, info.digest, mayFail);
      QuietIsRecorded(originals, superseded, d1, disk);
      if !synced {
        RecordedKeepsRaws(d1, disk);
        RecordedIsWork(originals, superseded, d1, disk, seal);
        WorkTransitive(d0, d1, disk);
        return false;
      }
      ghost var d2 := disk;
      var updated := manifest[n := info];
      forall m | m in updated ensures ArchiveSafe(disk, m, updated[m].digest) {
        if m != n {
          EntryIsSafe(originals, superseded, disk, m);
        }
      }
      ghost var sup := superseded;
      done := WriteManifest(updated, mayFail);
      RecordedTransitive(d1, d2, disk);
      RecordedKeepsRaws(d1, disk);
      RecordedIsWork(originals, sup, d1, disk, seal);
      assert n in updated && updated[n] == info;
      WorkTransitive(d0, d1, disk);
    }

    // Remove the original if its owner sealed exactly these bytes, and nobody has touched it.
    method RemoveOriginal(n: string, info: Info, before: Stat, mayFail: bool) returns (r: Outcome)
      requires Valid() && HasEntry(disk, n, info) && Read(disk, n, before, info.digest)
      modifies this`disk, this`removed
      ensures Valid() && Worked(old(disk), disk) && (!producers ==> Still(old(disk), disk, seal))
      ensures removed == old(removed) || removed == old(removed) + {(n, info.digest)}
      ensures r == Archived(false) ==> (n, info.digest) in removed
      ensures r == Archived(true) ==> removed == old(removed)
      ensures r == Archived(true) || r == Failed(SealUnreadable) || n in seal
      ensures r == Archived(true) ==> n !in seal
      ensures r == Skipped(SealMismatch) ==> seal[n] != info.digest
      ensures r != Failed(ArchiveMissing) && r != Skipped(Missing)
      ensures !mayFail && !producers && StatOf(old(disk), n) == Some(before) ==> r == Committed(n, info.digest)
      ensures removed != old(removed) ==> n in seal && seal[n] == info.digest && (r == Archived(false) || r == Failed(RemoveFailed))
    {
      hide Ok, Keeps, HasEntry, Quiet, Produced, Worked, Still, Read, Generations;
      ghost var d0 := disk;
      StillRefl(originals, superseded, d0, seal);
      if mayFail {
        if * {
          return Failed(SealUnreadable);
        }
      }
      if n !in seal {
        return Archived(true);
      }
      if mayFail {
        if * {
          return Skipped(SharedInode);
        }
      }
      if seal[n] != info.digest {
        return Skipped(SealMismatch);
      }
      Interfere();
      ghost var d1 := disk;
      ProducedIsWork(originals, superseded, d0, disk);
      WorkKeepsRead(d0, disk, n, info, before);
      if StatOf(disk, n).None? {
        return Failed(RemoveFailed);
      }
      if StatOf(disk, n) != Some(before) {
        return Skipped(ModifiedDuringArchive);
      }
      CommittedOriginal(originals, superseded, disk, n, info);
      RemovalIsWork(originals, superseded, disk, n, info, before, seal);
      PutKeepsGenerations(superseded, generations, disk, Raw(n), None);
      disk := Put(disk, Raw(n), None);
      removed := removed + {(n, info.digest)};
      WorkTransitive(d0, d1, disk);
      ghost var d2 := disk;
      if mayFail {
        if * {
          return Failed(RemoveFailed);
        }
      }
      FsyncDirectory();
      QuietIsRecorded(originals, superseded, d2, disk);
      RecordedIsWork(originals, superseded, d2, disk, seal);
      WorkTransitive(d0, d2, disk);
      if !producers {
        StillTransitiveOk(originals, superseded, d0, d2, disk, seal);
      }
      r := Archived(false);
    }

    // `_commit_archive_file`: durably commit one entry, then and only then remove a sealed original.
    method Commit(n: string, manifest: Manifest, info: Info, before: Stat, mayFail: bool) returns (r: Outcome, updated: Manifest)
      requires Valid() && Extends(manifest, Current(disk))
      requires Archives(disk, n, info.digest) && Read(disk, n, before, info.digest)
      modifies this`disk, this`superseded, this`generations, this`removed
      ensures Valid() && Worked(old(disk), disk) && (!producers ==> Still(old(disk), disk, seal))
      ensures old(superseded) <= superseded && old(generations) <= generations
      ensures old(removed) <= removed <= old(removed) + {(n, info.digest)}
      ensures Extends(updated, Current(disk))
      ensures r.Archived? ==> n in updated && updated[n] == info && HasEntry(disk, n, info)
      ensures r == Archived(false) ==> (n, info.digest) in removed
      ensures r == Archived(true) ==> removed == old(removed)
      ensures r != Failed(ArchiveMissing) && r != Skipped(Missing)
      ensures !mayFail && !producers && StatOf(old(disk), n) == Some(before) && Extends(Current(old(disk)), manifest[n := info]) ==>
                r == Committed(n, info.digest)
    {
      hide Ok, Keeps, HasEntry, Worked, Still, Read, Archives, Extends, Generations;
      ghost var d0, sup := disk, superseded;
      var done := Record(n, manifest, info, mayFail);
      WorkExtends(d0, disk, manifest);
      if !done {
        return Failed(ManifestPublishFailed), manifest;
      }
      ghost var d1 := disk;
      WorkKeepsRead(d0, disk, n, info, before);
      updated := manifest[n := info];
      r := RemoveOriginal(n, info, before, mayFail);
      WorkKeepsRead(d1, disk, n, info, before);
      WorkTransitive(d0, d1, disk);
      if !producers {
        StillTransitiveOk(originals, sup, d0, d1, disk, seal);
      }
      WorkExtends(d1, disk, updated);
    }

    // Make the archive's bytes and name durable, whoever wrote it.
    method SyncArchive(n: string, bytes: Content, mayFail: bool) returns (synced: bool)
      requires Valid() && Archives(disk, n, bytes)
      modifies this`disk
      ensures Valid() && Quiet(old(disk), disk)
      ensures synced || mayFail
      ensures synced ==> ArchiveSafe(disk, n, bytes) && At(disk, ManifestFile).may == {At(disk, ManifestFile).now}
    {
      hide Ok, Quiet, Generations;
      ghost var d0, i := disk, At(disk, Gz(n)).now.value;
      SyncFileKeepsOk(originals, superseded, disk, i);
      QuietKeepsGenerations(originals, superseded, generations, disk, SyncFile(disk, i));
      disk := SyncFile(disk, At(disk, Gz(n)).now.value);
      ghost var d1 := disk;
      if mayFail {
        if * {
          return false;
        }
      }
      assert At(d1, Gz(n)) == At(d0, Gz(n));
      FsyncDirectory();
      QuietTransitive(d0, d1, disk);
      synced := true;
    }

    // Verify an archive that is already there against the raw file; nothing is overwritten.
    method AdoptArchive(n: string, known: Option<Info>, before: Stat, mayFail: bool) returns (bytes: Option<Content>, why: Outcome)
      requires Valid() && before.ino < disk.clock && before.stamp < disk.clock && At(disk, Gz(n)).now.Some?
      modifies this`disk
      ensures Valid() && Worked(old(disk), disk) && (!producers ==> Still(old(disk), disk, seal))
      ensures bytes.Some? ==> Archives(disk, n, bytes.value) && Read(disk, n, before, bytes.value)
      ensures bytes.Some? && known.Some? ==> bytes.value == known.value.digest
      ensures bytes.None? ==> !why.Archived? && why != Failed(ArchiveMissing) && why != Skipped(Missing)
      ensures Current(disk) == Current(old(disk)) && (!producers ==> disk == old(disk))
      ensures !mayFail && !producers && StatOf(disk, n) == Some(before) ==>
                var (raw, archive) := (RawBytes(disk, n), Gunzip(disk.inodes[At(disk, Gz(n)).now.value].content));
                if archive.None? then bytes.None? && why == Failed(VerificationFailed)
                else if known.Some? && raw != known.value.digest then bytes.None? && why == Skipped(RawDiverged)
                else if archive.value != raw then bytes.None? && why == Failed(VerificationFailed)
                else bytes == Some(raw)
    {
      ArchiveIsOurs(originals, superseded, disk, n);
      hide Ok, Keeps, Produced, Worked, Still, Read, Generations;
      ghost var d0 := disk;
      StillRefl(originals, superseded, d0, seal);
      var archive := Gunzip(disk.inodes[At(disk, Gz(n)).now.value].content);
      var raw := ReadRaw(n, before);
      ProducedIsWork(originals, superseded, d0, disk);
      if raw.None? || archive.None? {
        return None, Failed(VerificationFailed);
      }
      if mayFail {
        if * {
          return None, Failed(VerificationFailed);
        }
      }
      if known.Some? && raw.value != known.value.digest {
        return None, Skipped(RawDiverged);
      }
      if archive != raw {
        return None, Failed(VerificationFailed);
      }
      WorkKeeps(d0, disk, n, raw.value);
      ghost var d1 := disk;
      Interfere();
      ProducedIsWork(originals, superseded, d1, disk);
      WorkKeeps(d1, disk, n, raw.value);
      WorkKeepsRead(d1, disk, n, Info(raw.value, 0), before);
      WorkTransitive(d0, d1, disk);
      if StatOf(disk, n) != Some(before) {
        return None, Skipped(ModifiedDuringArchive);
      }
      bytes, why := raw, Archived(true);
    }

    // The bytes of a raw file for which an archive has been verified: one that was there, or a new one.
    method ArchivedBytes(n: string, known: Option<Info>, before: Stat, mayFail: bool) returns (bytes: Option<Content>, why: Outcome)
      requires Valid() && before.ino < disk.clock && before.stamp < disk.clock
      requires known.Some? ==> Archives(disk, n, known.value.digest)
      modifies this`disk
      ensures Valid() && Worked(old(disk), disk) && (!producers ==> Still(old(disk), disk, seal) && SameRaws(old(disk), disk))
      ensures Current(disk) == Current(old(disk))
      ensures bytes.Some? ==> Archives(disk, n, bytes.value) && Read(disk, n, before, bytes.value)
      ensures bytes.Some? && known.Some? ==> bytes.value == known.value.digest
      ensures bytes.None? ==> !why.Archived? && why != Failed(ArchiveMissing)
      ensures bytes.None? && !producers && StatOf(old(disk), n) == Some(before) ==> why != Skipped(Missing)
      ensures !mayFail && !producers && StatOf(old(disk), n) == Some(before) ==>
                if old(Differs(n, known)) then bytes.None? && why == old(Verdict(n, known)) else bytes == Some(RawBytes(old(disk), n))
    {
      hide Ok, Keeps, HasEntry, Produced, Worked, Still, SameRaws, Read, Extends, Generations;
      ghost var d0, sup := disk, superseded;
      SameRawsRefl(originals, superseded, disk);
      StillRefl(originals, superseded, disk, seal);
      if At(disk, Gz(n)).now.Some? {
        ArchiveIsOurs(originals, superseded, disk, n);
        bytes, why := AdoptArchive(n, known, before, mayFail);
      } else if known.Some? {
        return None, Failed(ArchiveMissing);
      } else {
        if mayFail {
          if * {
            return None, Skipped(InsufficientDisk);
          }
        }
        bytes, why := MakeArchive(n, before, mayFail);
      }
      if !producers {
        RawsKeepStat(originals, sup, d0, disk, n);
      }
      if bytes.Some? {
        ReadMeans(disk, n, before, bytes.value);
      }
    }

    // `_archive_file`: archive one file of the run, given the entries known so far.
    method ArchiveFile(n: string, manifest: Manifest, archivedAt: nat, mayFail: bool) returns (r: Outcome, updated: Manifest)
      requires Valid() && Extends(manifest, Current(disk))
      modifies this`disk, this`superseded, this`generations, this`removed
      ensures Valid() && Worked(old(disk), disk) && (!producers ==> Still(old(disk), disk, seal))
      ensures old(superseded) <= superseded && old(generations) <= generations && old(removed) <= removed
      ensures forall x :: x in removed - old(removed) ==> x.0 == n
      ensures Extends(updated, Current(disk))
      ensures r.Archived? ==> n in updated && HasEntry(disk, n, updated[n])
      ensures r != Failed(ArchiveMissing)
      ensures !producers ==> (r == Skipped(Missing) <==> StatOf(old(disk), n).None?)
      ensures !mayFail && !producers && manifest == Current(old(disk)) && StatOf(old(disk), n).Some? ==>
                r == old(Verdict(n, if n in manifest then Some(manifest[n]) else None))
      ensures r == Archived(false) ==> (n, updated[n].digest) in removed
      ensures r == Archived(true) ==> removed == old(removed)
    {
      hide Ok, Keeps, HasEntry, Produced, Worked, Still, SameRaws, Archives, Read, Extends, Generations;
      ghost var d0, sup := disk, superseded;
      StillRefl(originals, superseded, d0, seal);
      Interfere();
      ProducedIsWork(originals, superseded, d0, disk);
      WorkExtends(d0, disk, manifest);
      var before := StatOf(disk, n);
      if before.None? {
        return Skipped(Missing), manifest;
      }
      StampsAreOld(originals, superseded, disk, n);
      var known := if n in manifest then Some(manifest[n]) else None;
      ghost var d1 := disk;
      if n in manifest {
        KnownIsThere(originals, superseded, disk, n, manifest);
      }
      var bytes, why := ArchivedBytes(n, known, before.value, mayFail);
      WorkTransitive(d0, d1, disk);
      if !producers {
        StillTransitiveOk(originals, sup, d0, d1, disk, seal);
        RawsKeepStat(originals, sup, d1, disk, n);
      }
      WorkExtends(d1, disk, manifest);
      if bytes.None? {
        return why, manifest;
      }
      ghost var d2 := disk;
      var info := if known.Some? then known.value else Info(bytes.value, archivedAt);
      ExtendsWith(manifest, n, info);
      r, updated := Commit(n, manifest, info, before.value, mayFail);
      WorkTransitive(d0, d2, disk);
      if !producers {
        StillTransitiveOk(originals, sup, d0, d2, disk, seal);
      }
    }

    // `_execute_run`: archive each planned file in turn. Every manifest that was in place at any moment of it
    // is the current one or has its recovery copy.
    method ExecuteRun(names: seq<string>, archivedAt: nat, mayFail: bool) returns (results: seq<Outcome>)
      requires Valid()
      modifies this`disk, this`superseded, this`generations, this`removed
      ensures Valid() && Worked(old(disk), disk) && (!producers ==> Still(old(disk), disk, seal))
      ensures old(superseded) <= superseded && old(generations) <= generations && old(removed) <= removed
      ensures forall m :: m in generations ==> HasBackup(disk, m) || (At(disk, ManifestFile).now.Some? && m == Current(disk))
      ensures |results| == |names|
      ensures forall k :: 0 <= k < |names| && results[k].Archived? ==> exists info :: HasEntry(disk, names[k], info)
      ensures forall k :: 0 <= k < |names| && results[k] == Archived(false) ==> exists bytes :: (names[k], bytes) in removed
    {
      hide Ok, Keeps, HasEntry, Worked, Still, Extends, Generations, HasBackup;
      ghost var d0, sup := disk, superseded;
      StillRefl(originals, superseded, d0, seal);
      var manifest := Current(disk);
      WorkExtends(disk, disk, manifest);
      results := [];
      while |results| < |names|
        invariant |results| <= |names|
        invariant Valid() && Worked(d0, disk) && (!producers ==> Still(d0, disk, seal))
        invariant old(superseded) <= superseded && old(generations) <= generations && old(removed) <= removed
        invariant Extends(manifest, Current(disk))
        invariant forall k :: 0 <= k < |results| && results[k].Archived? ==> exists info :: HasEntry(disk, names[k], info)
        invariant forall k :: 0 <= k < |results| && results[k] == Archived(false) ==> exists bytes :: (names[k], bytes) in removed
      {
        ghost var d1 := disk;
        var r;
        r, manifest := ArchiveFile(names[|results|], manifest, archivedAt, mayFail);
        WorkKeepsEntries(d1, disk);
        WorkTransitive(d0, d1, disk);
        if !producers {
          StillTransitiveOk(originals, sup, d0, d1, disk, seal);
        }
        results := results + [r];
      }
      SupersededHaveCopies(originals, superseded, generations, disk);
    }

    /******* Restoring *******/

    // `_restore_file`: bring one entry's raw file back, unless some file has its name. `found` is the
    // directory as it was when the name was looked up, and `last` when the file was linked, or when it was
    // decided not to link it. `fault` says that the restoration was killed or that reading or writing failed,
    // which `mayFail` allows. Only that, or a file that a producer put there meanwhile, stops it: the archive is
    // never found missing or different, and no file is replaced.
    method RestoreFile(n: string, mayFail: bool) returns (r: Restoration, fault: bool, ghost found: Dir, ghost last: Dir)
      requires Valid() && n in Current(disk)
      modifies this`disk
      ensures Valid() && Kept(old(disk), disk)
      ensures Produced(old(disk), found) && (!producers ==> found == old(disk) && SameRaws(found, last))
      ensures SameFiles(last, disk)
      ensures forall m :: m != n || At(last, Raw(m)).now.Some? ==> At(disk, Raw(m)).now == At(last, Raw(m)).now
      ensures r == Restored ==> RawHolds(disk, n, Current(disk)[n].digest)
      ensures r == RawExists <==> At(found, Raw(n)).now.Some? && !RawHolds(found, n, Current(disk)[n].digest)
                                  && !r.NotRestored?
      ensures r != NotRestored(ArchiveMissing) && (fault ==> mayFail && r.NotRestored?)
      ensures r.NotRestored? && !fault ==> At(found, Raw(n)).now.None? && At(last, Raw(n)).now.Some?
    {
      hide Ok, Keeps, Produced, Archives, Read, Quiet, Holds, Generations, SameFiles;
      ghost var d0 := disk;
      fault := false;
      Interfere();
      found := disk;
      ProducedIsKept(originals, superseded, d0, disk);
      EntryIsThere(originals, superseded, disk, n);
      RawIsThere(originals, superseded, disk);
      RawsAreSame(originals, superseded, disk);
      ArchiveDecompresses(disk, n, Current(disk)[n].digest);
      if At(disk, Gz(n)).now.None? {
        return NotRestored(ArchiveMissing), false, found, found;
      }
      var archived := Gunzip(disk.inodes[At(disk, Gz(n)).now.value].content);
      var expected := Current(disk)[n].digest;
      if mayFail {
        if * {
          return NotRestored(VerificationFailed), true, found, found;
        }
      }
      if archived != Some(expected) {
        return NotRestored(VerificationFailed), false, found, found;
      }
      if At(disk, Raw(n)).now.Some? {
        return if disk.inodes[At(disk, Raw(n)).now.value].content == expected then Restored else RawExists, false, found, found;
      }
      Interfere();
      ProducedIsKept(originals, superseded, found, disk);
      KeptTransitive(d0, found, disk);
      ghost var d1 := disk;
      r, fault, last := Publish(n, expected, mayFail);
      KeptTransitive(d0, d1, disk);
    }

    // Decompress into a private file and link it, unless a file has the name by now.
    method Publish(n: string, expected: Content, mayFail: bool) returns (r: Restoration, fault: bool, ghost last: Dir)
      requires Valid()
      modifies this`disk
      ensures Valid() && Kept(old(disk), disk) && SameRaws(old(disk), last) && SameFiles(last, disk)
      ensures forall m :: m != n || At(last, Raw(m)).now.Some? ==> At(disk, Raw(m)).now == At(last, Raw(m)).now
      ensures r == Restored ==> RawHolds(disk, n, expected)
      ensures r == Restored || (r.NotRestored? && r != NotRestored(ArchiveMissing))
      ensures (fault ==> mayFail && r.NotRestored?) && (r.NotRestored? && !fault ==> At(last, Raw(n)).now.Some?)
    {
      hide Ok, Keeps, Produced, Archives, Read, Quiet, Holds, Generations;
      ghost var d0 := disk;
      NewFile(originals, superseded, disk);
      KeptRefl(originals, superseded, disk);
      var ok, i := WriteTemp(expected, Live, mayFail);
      QuietIsKept(originals, superseded, d0, disk);
      last := disk;
      if !ok {
        return NotRestored(WriteFailed), true, last;
      }
      KeptRefl(originals, superseded, disk);
      if At(disk, Raw(n)).now.Some? {
        return NotRestored(PublishFailed), false, last;
      }
      InstallIsKept(originals, superseded, disk, n, i);
      PutKeepsGenerations(superseded, generations, disk, Raw(n), Some(i));
      disk := Put(disk, Raw(n), Some(i));
      KeptTransitive(d0, last, disk);
      if mayFail {
        if * {
          return NotRestored(PublishFailed), true, last;
        }
      }
      ghost var d2 := disk;
      FsyncDirectory();
      QuietIsKept(originals, superseded, d2, disk);
      KeptTransitive(d0, d2, disk);
      r, fault := Restored, false;
    }

    // `restore_run`: every entry of the manifest, in the order given. Every entry whose restoration met no
    // fault, and without `mayFail` that is every entry, is back, or is reported because a different file has its name.
    method RestoreRun(names: seq<string>, mayFail: bool) returns (results: seq<Restoration>, faults: seq<bool>)
      requires Valid() && (forall n :: n in names <==> n in Current(disk))
      requires forall j, k :: 0 <= j < k < |names| ==> names[j] != names[k]
      modifies this`disk
      ensures Valid() && Kept(old(disk), disk) && |results| == |faults| == |names|
      ensures forall k :: 0 <= k < |names| ==>
                results[k] != NotRestored(ArchiveMissing) && (faults[k] ==> mayFail && results[k].NotRestored?)
                && (!producers && results[k].NotRestored? ==> faults[k])
      ensures !producers ==> SameFiles(old(disk), disk)
      ensures !producers ==> forall n :: At(old(disk), Raw(n)).now.Some? ==> At(disk, Raw(n)).now == At(old(disk), Raw(n)).now
      ensures !producers ==> forall k :: 0 <= k < |names| ==>
                (results[k] == Restored ==> RawHolds(disk, names[k], Current(disk)[names[k]].digest))
                && (results[k] == RawExists ==> At(old(disk), Raw(names[k])).now.Some?
                                                && !RawHolds(disk, names[k], Current(disk)[names[k]].digest))
    {
      hide Ok, Keeps, Produced, Generations, SameFiles, Kept, Answered;
      ghost var d0 := disk;
      results, faults := [], [];
      NewFile(originals, superseded, disk);
      KeptRefl(originals, superseded, disk);
      while |results| < |names|
        invariant |results| == |faults| <= |names|
        invariant Valid() && Kept(d0, disk)
        invariant forall k :: 0 <= k < |results| ==>
                    results[k] != NotRestored(ArchiveMissing) && (faults[k] ==> mayFail && results[k].NotRestored?)
                    && (!producers && results[k].NotRestored? ==> faults[k])
        invariant !producers ==> SameFiles(d0, disk)
        invariant !producers ==> forall n :: At(d0, Raw(n)).now.Some? ==> At(disk, Raw(n)).now == At(d0, Raw(n)).now
        invariant !producers ==> forall k :: |results| <= k < |names| ==> At(disk, Raw(names[k])).now == At(d0, Raw(names[k])).now
        invariant !producers ==> forall k :: 0 <= k < |results| ==> Answered(d0, disk, names[k], results[k])
      {
        ghost var d1, n, sup := disk, names[|results|], superseded;
        KeptCurrent(d0, disk);
        RawIsThere(originals, superseded, disk);
        var r, fault, found, last := RestoreFile(names[|results|], mayFail);
        KeptTransitive(d0, d1, disk);
        if !producers {
          SameFilesTransitive(d1, last, disk);
          SameFilesTransitive(d0, d1, disk);
          forall k | 0 <= k < |results| ensures Answered(d0, disk, names[k], results[k]) {
            assert names[k] != n;
            AnswerStands(d0, d1, disk, names[k], results[k]);
          }
          AnswerGiven(originals, sup, d0, d1, disk, n, r);
        }
        results, faults := results + [r], faults + [fault];
      }
      KeptCurrent(d0, disk);
      if !producers {
        forall k | 0 <= k < |names|
          ensures results[k] == Restored ==> RawHolds(disk, names[k], Current(disk)[names[k]].digest)
          ensures results[k] == RawExists ==> At(d0, Raw(names[k])).now.Some? && !RawHolds(disk, names[k], Current(disk)[names[k]].digest)
        {
          AnswerMeans(d0, disk, names[k], results[k]);
        }
      }
    }
  }

  lemma RawsAreSame(originals: map<string, Content>, superseded: set<Manifest>, d: Dir)
    requires Ok(originals, superseded, d)
    ensures SameRaws(d, d)
  {
  }

  lemma ReadMeans(d: Dir, n: string, before: Stat, bytes: Content)
    requires Read(d, n, before, bytes)
    ensures StatOf(d, n) == Some(before) ==> RawBytes(d, n) == bytes
  {
  }

  lemma ExtendsWith(m: Manifest, n: string, info: Info)
    ensures n !in m || m[n] == info ==> Extends(m, m[n := info])
  {
  }

  lemma SameRawsRefl(originals: map<string, Content>, superseded: set<Manifest>, d: Dir)
    requires Ok(originals, superseded, d)
    ensures SameRaws(d, d)
  {
  }

  lemma SameRawsTransitive(d: Dir, e: Dir, f: Dir)
    requires SameRaws(d, e) && SameRaws(e, f)
    ensures SameRaws(d, f)
  {
  }

  lemma RawsKeepStat(originals: map<string, Content>, superseded: set<Manifest>, d: Dir, d': Dir, n: string)
    requires Ok(originals, superseded, d) && SameRaws(d, d')
    ensures StatOf(d', n) == StatOf(d, n)
    ensures StatOf(d, n).Some? ==> RawBytes(d', n) == RawBytes(d, n)
  {
    RawIsThere(originals, superseded, d);
    hide Ok;
  }

  lemma QuietKeepsRaws(originals: map<string, Content>, superseded: set<Manifest>, d: Dir, d': Dir)
    requires Ok(originals, superseded, d) && Quiet(d, d')
    ensures SameRaws(d, d') && Current(d') == Current(d) && forall n :: At(d', Gz(n)).now == At(d, Gz(n)).now && StatOf(d', n) == StatOf(d, n)
  {
    RawIsThere(originals, superseded, d);
    QuietIsRecorded(originals, superseded, d, d');
    hide Ok, Keeps;
    forall n ensures At(d', Gz(n)).now == At(d, Gz(n)).now && At(d', Raw(n)).now == At(d, Raw(n)).now {
      assert !IsPrivate(Gz(n)) && !IsPrivate(Raw(n));
    }
  }

  lemma RecordedKeepsRaws(d: Dir, d': Dir)
    requires Recorded(d, d')
    ensures SameRaws(d, d')
  {
    hide Keeps;
    forall n ensures At(d', Raw(n)).now == At(d, Raw(n)).now {
      assert !IsPrivate(Raw(n));
    }
  }

  lemma KeptCurrent(d: Dir, d': Dir)
    requires Kept(d, d')
    ensures Current(d') == Current(d)
  {
  }

  // What became of one file is not touched by restoring another.
  lemma AnswerStands(d0: Dir, d: Dir, d': Dir, n: string, r: Restoration)
    requires Answered(d0, d, n, r) && Kept(d, d') && SameFiles(d, d') && At(d', Raw(n)).now == At(d, Raw(n)).now
    requires At(d, Raw(n)).now.Some? ==> At(d, Raw(n)).now.value in d.inodes
    ensures Answered(d0, d', n, r)
  {
  }

  lemma AnswerGiven(originals: map<string, Content>, superseded: set<Manifest>, d0: Dir, d: Dir, d': Dir, n: string, r: Restoration)
    requires Ok(originals, superseded, d) && n in Current(d) && Kept(d, d') && SameFiles(d, d')
    requires At(d, Raw(n)).now == At(d0, Raw(n)).now
    requires At(d, Raw(n)).now.Some? ==> At(d', Raw(n)).now == At(d, Raw(n)).now
    requires r == Restored ==> RawHolds(d', n, Current(d')[n].digest)
    requires r == RawExists ==> At(d, Raw(n)).now.Some? && !RawHolds(d, n, Current(d)[n].digest)
    ensures Answered(d0, d', n, r)
  {
    RawIsThere(originals, superseded, d);
    hide Ok;
  }

  lemma AnswerMeans(d0: Dir, d: Dir, n: string, r: Restoration)
    requires Answered(d0, d, n, r)
    ensures n in Current(d) && (r == Restored ==> RawHolds(d, n, Current(d)[n].digest))
    ensures r == RawExists ==> At(d0, Raw(n)).now.Some? && !RawHolds(d, n, Current(d)[n].digest)
  {
  }

  lemma NothingExtends(d: Dir, m: Manifest)
    requires At(d, ManifestFile).now.None?
    ensures Extends(Current(d), m)
  {
  }

  lemma NewFile(originals: map<string, Content>, superseded: set<Manifest>, d: Dir)
    requires Ok(originals, superseded, d)
    ensures d.clock !in d.inodes && Quiet(d, d)
  {
  }

  lemma CopyIsWhole(originals: map<string, Content>, superseded: set<Manifest>, d: Dir, m: Manifest)
    requires Ok(originals, superseded, d) && At(d, Backup(m)).now.Some?
    ensures At(d, Backup(m)).now.value in d.inodes && d.inodes[At(d, Backup(m)).now.value].content == Doc(m)
  {
    assert Backup(m) in d.entries && At(d, Backup(m)).now in d.entries[Backup(m)].may;
  }

  lemma BackupIsDurable(originals: map<string, Content>, superseded: set<Manifest>, d: Dir, m: Manifest)
    requires Ok(originals, superseded, d)
    requires At(d, Backup(m)).now.Some? && At(d, Backup(m)).may == {At(d, Backup(m)).now}
    ensures HasBackup(d, m)
  {
    assert Backup(m) in d.entries && At(d, Backup(m)).now in d.entries[Backup(m)].may;
  }

  lemma ProducedIsWork(originals: map<string, Content>, superseded: set<Manifest>, d: Dir, d': Dir)
    requires Ok(originals, superseded, d) && Produced(d, d') && Keeps(d, d')
    ensures Worked(d, d') && Current(d') == Current(d)
  {
    hide Keeps;
    assert At(d', ManifestFile) == At(d, ManifestFile) && At(d, ManifestFile).now in At(d, ManifestFile).may;
    forall n, bytes | Archives(d, n, bytes) ensures Archives(d', n, bytes) {
      assert At(d', Gz(n)) == At(d, Gz(n));
    }
    forall n, before, bytes | Read(d, n, before, bytes) ensures Read(d', n, before, bytes) {
      assert At(d, Raw(n)).now in At(d, Raw(n)).may;
    }
  }

  lemma RecordedIsWork(originals: map<string, Content>, superseded: set<Manifest>, d: Dir, d': Dir, seal: map<string, Content>)
    requires Ok(originals, superseded, d) && Recorded(d, d')
    ensures Worked(d, d') && Still(d, d', seal)
  {
    hide Keeps, ManifestOk, Recoverable, BackupsOk;
    forall n, bytes | Archives(d, n, bytes) ensures Archives(d', n, bytes) {
      assert At(d', Gz(n)).now == At(d, Gz(n)).now;
    }
    forall n, before, bytes | Read(d, n, before, bytes) ensures Read(d', n, before, bytes) {
      assert At(d, Raw(n)).now in At(d, Raw(n)).may && At(d', Raw(n)).now == At(d, Raw(n)).now;
    }
    assert forall n :: At(d', Raw(n)).now == At(d, Raw(n)).now;
  }

  lemma QuietIsWork(originals: map<string, Content>, superseded: set<Manifest>, d: Dir, d': Dir, seal: map<string, Content>)
    requires Ok(originals, superseded, d) && Quiet(d, d')
    ensures Worked(d, d') && Still(d, d', seal)
  {
    hide Ok, Quiet, Recorded, Worked, Still;
    QuietIsRecorded(originals, superseded, d, d');
    RecordedIsWork(originals, superseded, d, d', seal);
  }

  lemma OwnFileLeft(originals: map<string, Content>, superseded: set<Manifest>, d: Dir, d': Dir, i: nat)
    requires Ok(originals, superseded, d) && Produced(d, d') && i in d.inodes && d.inodes[i].kind == Ours
    ensures i in d'.inodes && d'.inodes[i] == d.inodes[i]
  {
  }

  lemma LinkIsWork(originals: map<string, Content>, superseded: set<Manifest>, d: Dir, n: string, i: nat, bytes: Content,
                   seal: map<string, Content>)
    requires Ok(originals, superseded, d) && Keeps(d, Put(d, Gz(n), Some(i)))
    requires i in d.inodes && d.inodes[i].kind == Ours && d.inodes[i].content == Zip(bytes) && At(d, Gz(n)).now == None
    ensures Worked(d, Put(d, Gz(n), Some(i))) && Still(d, Put(d, Gz(n), Some(i)), seal)
    ensures Archives(Put(d, Gz(n), Some(i)), n, bytes)
    ensures SameRaws(d, Put(d, Gz(n), Some(i))) && Current(Put(d, Gz(n), Some(i))) == Current(d)
  {
    hide Keeps, Ok;
    var d' := Put(d, Gz(n), Some(i));
    assert forall name :: name != Gz(n) ==> At(d', name) == At(d, name);
  }

  lemma ArchiveIsOurs(originals: map<string, Content>, superseded: set<Manifest>, d: Dir, n: string)
    requires Ok(originals, superseded, d) && At(d, Gz(n)).now.Some?
    ensures At(d, Gz(n)).now.value in d.inodes && d.inodes[At(d, Gz(n)).now.value].kind == Ours
  {
    assert Gz(n) in d.entries && At(d, Gz(n)).now in d.entries[Gz(n)].may;
  }

  lemma StampsAreOld(originals: map<string, Content>, superseded: set<Manifest>, d: Dir, n: string)
    requires Ok(originals, superseded, d) && StatOf(d, n).Some?
    ensures StatOf(d, n).value.ino < d.clock && StatOf(d, n).value.stamp < d.clock
  {
  }

  lemma WorkKeepsEntries(d: Dir, d': Dir)
    requires Worked(d, d')
    ensures forall n, info :: HasEntry(d, n, info) ==> HasEntry(d', n, info)
  {
  }

  lemma StillRefl(originals: map<string, Content>, superseded: set<Manifest>, d: Dir, seal: map<string, Content>)
    requires Ok(originals, superseded, d)
    ensures Still(d, d, seal) && Worked(d, d)
  {
  }

  lemma StillTransitiveOk(originals: map<string, Content>, superseded: set<Manifest>, d: Dir, e: Dir, f: Dir, seal: map<string, Content>)
    requires Ok(originals, superseded, d) && Still(d, e, seal) && Still(e, f, seal)
    ensures Still(d, f, seal)
  {
    StillTransitive(d, e, f, seal);
  }

  lemma WorkKeeps(d: Dir, d': Dir, n: string, bytes: Content)
    requires Worked(d, d') && Archives(d, n, bytes)
    ensures Archives(d', n, bytes)
  {
  }

  lemma WorkKeepsRead(d: Dir, d': Dir, n: string, info: Info, before: Stat)
    requires Worked(d, d')
    ensures Read(d, n, before, info.digest) ==> Read(d', n, before, info.digest)
    ensures HasEntry(d, n, info) ==> HasEntry(d', n, info)
  {
  }

  lemma WorkExtends(d: Dir, d': Dir, m: Manifest)
    requires Worked(d, d') && (Extends(m, Current(d)) || m == Current(d))
    ensures Extends(m, Current(d'))
  {
  }

  lemma CommittedOriginal(originals: map<string, Content>, superseded: set<Manifest>, d: Dir, n: string, info: Info)
    requires Ok(originals, superseded, d) && HasEntry(d, n, info) && (n in originals ==> originals[n] == info.digest)
    ensures Ok(originals, superseded, Put(d, Raw(n), None)) && Keeps(d, Put(d, Raw(n), None))
  {
    assert n in originals ==> InArchive(d, n, originals[n]);
    RawKeepsOk(originals, superseded, d, n, None);
  }

  // Unlinking a raw file that still is what was read.
  lemma RemovalIsWork(originals: map<string, Content>, superseded: set<Manifest>, d: Dir, n: string, info: Info, before: Stat,
                      seal: map<string, Content>)
    requires Ok(originals, superseded, d) && Keeps(d, Put(d, Raw(n), None))
    requires n in seal && seal[n] == info.digest
    requires Read(d, n, before, info.digest) && StatOf(d, n) == Some(before)
    ensures Worked(d, Put(d, Raw(n), None)) && Still(d, Put(d, Raw(n), None), seal)
  {
    hide Keeps, Ok;
    var d' := Put(d, Raw(n), None);
    assert forall name :: name != Raw(n) ==> At(d', name) == At(d, name);
  }

  lemma EntryIsSafe(originals: map<string, Content>, superseded: set<Manifest>, d: Dir, n: string)
    requires Ok(originals, superseded, d) && n in Current(d)
    ensures ArchiveSafe(d, n, Current(d)[n].digest)
  {
  }

  // The archive of an entry that was committed before does not go missing.
  lemma KnownIsThere(originals: map<string, Content>, superseded: set<Manifest>, d: Dir, n: string, manifest: Manifest)
    requires Ok(originals, superseded, d) && Extends(manifest, Current(d)) && n in manifest
    ensures At(d, Gz(n)).now.Some? && Archives(d, n, manifest[n].digest)
  {
    EntryIsThere(originals, superseded, d, n);
  }

  lemma EntryIsThere(originals: map<string, Content>, superseded: set<Manifest>, d: Dir, n: string)
    requires Ok(originals, superseded, d) && n in Current(d)
    ensures Archives(d, n, Current(d)[n].digest)
  {
    assert ArchiveSafe(d, n, Current(d)[n].digest) && At(d, Gz(n)).now in At(d, Gz(n)).may;
  }

  lemma ArchiveDecompresses(d: Dir, n: string, bytes: Content)
    requires Archives(d, n, bytes)
    ensures At(d, Gz(n)).now.Some? && At(d, Gz(n)).now.value in d.inodes
    ensures Gunzip(d.inodes[At(d, Gz(n)).now.value].content) == Some(bytes)
  {
  }

  lemma ProducedIsKept(originals: map<string, Content>, superseded: set<Manifest>, d: Dir, d': Dir)
    requires Ok(originals, superseded, d) && Produced(d, d') && Keeps(d, d')
    ensures Kept(d, d') && SameFiles(d', d')
  {
    hide Keeps, Ok, Worked;
    ProducedIsWork(originals, superseded, d, d');
  }

  lemma QuietIsKept(originals: map<string, Content>, superseded: set<Manifest>, d: Dir, d': Dir)
    requires Ok(originals, superseded, d) && Quiet(d, d')
    ensures Kept(d, d') && SameFiles(d, d') && forall m :: At(d', Raw(m)).now == At(d, Raw(m)).now
  {
    hide Keeps;
    QuietIsRecorded(originals, superseded, d, d');
    forall m ensures At(d', Raw(m)).now == At(d, Raw(m)).now {
      assert !IsPrivate(Raw(m));
    }
  }

  lemma KeptRefl(originals: map<string, Content>, superseded: set<Manifest>, d: Dir)
    requires Ok(originals, superseded, d)
    ensures Kept(d, d) && SameFiles(d, d)
  {
  }

  lemma KeptTransitive(d: Dir, e: Dir, f: Dir)
    requires Kept(d, e) && Kept(e, f)
    ensures Kept(d, f)
  {
  }

  lemma SameFilesTransitive(d: Dir, e: Dir, f: Dir)
    requires SameFiles(d, e) && SameFiles(e, f)
    ensures SameFiles(d, f)
  {
  }

  lemma RawIsThere(originals: map<string, Content>, superseded: set<Manifest>, d: Dir)
    requires Ok(originals, superseded, d)
    ensures forall n :: At(d, Raw(n)).now.Some? ==> At(d, Raw(n)).now.value in d.inodes
  {
  }

  // A raw file that is gone was not an original, or its bytes are in the archive.
  lemma InstallIsKept(originals: map<string, Content>, superseded: set<Manifest>, d: Dir, n: string, i: nat)
    requires Ok(originals, superseded, d) && At(d, Raw(n)).now.None? && i in d.inodes
    ensures Ok(originals, superseded, Put(d, Raw(n), Some(i))) && Kept(d, Put(d, Raw(n), Some(i)))
    ensures SameFiles(d, Put(d, Raw(n), Some(i)))
  {
    assert At(d, Raw(n)).now in At(d, Raw(n)).may;
    RawKeepsOk(originals, superseded, d, n, Some(i));
  }

  // Whatever stage archiving had reached, a restored original is byte for byte the file that was sealed.
  lemma RestoredOriginal(originals: map<string, Content>, superseded: set<Manifest>, d: Dir, n: string)
    requires Ok(originals, superseded, d) && n in originals && At(d, Raw(n)).now.None?
    ensures n in Current(d) && Current(d)[n].digest == originals[n] && Archives(d, n, originals[n])
  {
    assert At(d, Raw(n)).now in At(d, Raw(n)).may && At(d, ManifestFile).now in At(d, ManifestFile).may;
    EntryIsThere(originals, superseded, d, n);
  }
}
