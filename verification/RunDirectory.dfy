/**
 One run directory as a crash may leave it. A directory entry is durable only once the directory has
 been fsynced, so each name carries every value a crash could bring back; a file's bytes are durable
 only once the file has been. `Ok` is what archiving, restoring, producers and crashes all keep.
 gzip, SHA-256 and the manifest's JSON are free constructors: equal digests mean equal bytes.
 */
module RunDirectory {
  import opened Wrappers

  datatype Content = Data(bytes: string) | Zip(of: Content) | Doc(files: Manifest)

  datatype Info = Info(digest: Content, archivedAt: nat)

  type Manifest = map<string, Info>

  // A recovery copy is named after the manifest it holds.
  datatype Name = Raw(n: string) | Gz(n: string) | ManifestFile | Backup(of: Manifest) | Temp(k: nat)

  // Whose file it is: the archiver's own, a producer's, or a producer's that has been sealed.
  datatype Kind = Ours | Live | Sealed

  datatype Inode = Inode(content: Content, synced: bool, stamp: nat, kind: Kind)

  datatype Slot = Slot(now: Option<nat>, may: set<Option<nat>>)

  datatype Dir = Dir(entries: map<Name, Slot>, inodes: map<nat, Inode>, clock: nat)

  function At(d: Dir, name: Name): Slot {
    if name in d.entries then d.entries[name] else Slot(None, {None})
  }

  /******* Operations on the directory *******/

  function Put(d: Dir, name: Name, v: Option<nat>): Dir {
    d.(entries := d.entries[name := Slot(v, At(d, name).may + {v})])
  }

  function Create(d: Dir, content: Content, kind: Kind): Dir {
    d.(inodes := d.inodes[d.clock := Inode(content, false, d.clock, kind)], clock := d.clock + 1)
  }

  function SyncFile(d: Dir, i: nat): Dir
    requires i in d.inodes
  {
    d.(inodes := d.inodes[i := d.inodes[i].(synced := true)])
  }

  function SyncDirectory(d: Dir): Dir {
    d.(entries := map name | name in d.entries :: Slot(d.entries[name].now, {d.entries[name].now}))
  }

  // A crash settles every entry on something it may be, and may garble any file that was not synced.
  ghost predicate Crashed(d: Dir, d': Dir) {
    && d'.clock >= d.clock
    && (forall name :: At(d', name).now in At(d, name).may && At(d', name).may == {At(d', name).now})
    && d'.inodes.Keys == d.inodes.Keys
    && forall i :: i in d.inodes ==>
         d'.inodes[i] == (if d.inodes[i].synced then d.inodes[i] else Inode(d'.inodes[i].content, true, d'.inodes[i].stamp, d.inodes[i].kind))
         && d'.inodes[i].stamp < d'.clock
  }

  // Producers rewrite, replace, add or remove raw files, but never a sealed one. Every write restamps, and
  // a name does not come back to a file it had before.
  ghost predicate Produced(d: Dir, d': Dir) {
    && d'.clock >= d.clock
    && (forall name :: At(d', name) != At(d, name) ==>
          name.Raw? && !IsSealed(d, At(d, name).now) && At(d', name).now in At(d', name).may
          && (At(d', name).now == At(d, name).now || At(d', name).now.None? || d.clock <= At(d', name).now.value)
          && forall v :: v in At(d', name).may ==> v in At(d, name).may || (v.Some? ==> d.clock <= v.value && v.value in d'.inodes))
    && d.inodes.Keys <= d'.inodes.Keys
    && (forall i :: i in d'.inodes ==> i < d'.clock && d'.inodes[i].stamp < d'.clock)
    && (forall i :: i in d'.inodes && i !in d.inodes ==> d.clock <= i && d'.inodes[i].kind == Live)
    && forall i :: i in d.inodes && d'.inodes[i] != d.inodes[i] ==>
         d.inodes[i].kind == Live && d'.inodes[i].kind == Live && d.clock <= d'.inodes[i].stamp
  }

  predicate IsSealed(d: Dir, v: Option<nat>) {
    v.Some? && v.value in d.inodes && d.inodes[v.value].kind == Sealed
  }

  /******* The invariant *******/

  // A file of the archiver's whose bytes are durable.
  predicate Holds(d: Dir, v: Option<nat>, content: Content) {
    v.Some? && v.value in d.inodes && d.inodes[v.value].synced && d.inodes[v.value].kind == Ours && d.inodes[v.value].content == content
  }

  function FilesOf(d: Dir, v: Option<nat>): Manifest {
    if v.Some? && v.value in d.inodes && d.inodes[v.value].content.Doc? then d.inodes[v.value].content.files else map[]
  }

  function Current(d: Dir): Manifest {
    FilesOf(d, At(d, ManifestFile).now)
  }

  predicate Extends(a: Manifest, b: Manifest) {
    forall n :: n in a ==> n in b && b[n] == a[n]
  }

  predicate Shape(d: Dir) {
    && (forall name :: name in d.entries ==> d.entries[name].now in d.entries[name].may)
    && (forall name, v :: name in d.entries && v in d.entries[name].may && v.Some? ==> v.value in d.inodes)
    && (forall i :: i in d.inodes ==> i < d.clock && d.inodes[i].stamp < d.clock)
    && (forall name, v :: name in d.entries && name.Gz? && v in d.entries[name].may && v.Some? ==> d.inodes[v.value].kind == Ours)
  }

  // Every manifest a crash may bring back is whole, and its entries are all in the current one.
  predicate ManifestOk(d: Dir) {
    forall v :: v in At(d, ManifestFile).may && v.Some? ==>
      Holds(d, v, Doc(FilesOf(d, v))) && Extends(FilesOf(d, v), Current(d))
  }

  // Whatever a crash does, the archive is there and decompresses to these bytes.
  predicate ArchiveSafe(d: Dir, n: string, digest: Content) {
    forall v :: v in At(d, Gz(n)).may ==> Holds(d, v, Zip(digest))
  }

  predicate Recoverable(d: Dir) {
    forall n :: n in Current(d) ==> ArchiveSafe(d, n, Current(d)[n].digest)
  }

  predicate BackupsOk(d: Dir) {
    forall name, v :: name in d.entries && name.Backup? && v in d.entries[name].may && v.Some? ==> Holds(d, v, Doc(name.of))
  }

  predicate HasBackup(d: Dir, m: Manifest) {
    forall v :: v in At(d, Backup(m)).may ==> Holds(d, v, Doc(m))
  }

  // The entry is in the manifest that any crash would leave.
  predicate HasEntry(d: Dir, n: string, info: Info) {
    forall v :: v in At(d, ManifestFile).may ==> n in FilesOf(d, v) && FilesOf(d, v)[n] == info
  }

  // No committed entry is altered or dropped, and no durable recovery copy.
  ghost predicate Keeps(d: Dir, d': Dir) {
    && (forall n, info :: HasEntry(d, n, info) ==> HasEntry(d', n, info))
    && (forall m :: HasBackup(d, m) ==> HasBackup(d', m))
  }

  // No file has changed other than by becoming durable.
  ghost predicate SameFiles(d: Dir, d': Dir) {
    && d.clock <= d'.clock
    && forall i :: i in d.inodes ==>
         i in d'.inodes && d'.inodes[i].content == d.inodes[i].content && d'.inodes[i].stamp == d.inodes[i].stamp
         && d'.inodes[i].kind == d.inodes[i].kind && (d.inodes[i].synced ==> d'.inodes[i].synced)
  }

  predicate IsPrivate(name: Name) {
    name.Temp? || name.Backup?
  }

  // A step that names nothing new but private files.
  ghost predicate Quiet(d: Dir, d': Dir) {
    && SameFiles(d, d') && Keeps(d, d')
    && forall name :: !IsPrivate(name) ==> At(d', name).now == At(d, name).now && At(d', name).may <= At(d, name).may
  }

  lemma QuietTransitive(d: Dir, e: Dir, f: Dir)
    requires Quiet(d, e) && Quiet(e, f)
    ensures Quiet(d, f)
  {
    forall name | !IsPrivate(name) ensures At(f, name).now == At(d, name).now && At(f, name).may <= At(d, name).may {
      assert At(e, name).now == At(d, name).now;
    }
  }

  // A step that names nothing new but private files and a manifest that extends the current one.
  ghost predicate Recorded(d: Dir, d': Dir) {
    && SameFiles(d, d') && Keeps(d, d') && Extends(Current(d), Current(d'))
    && forall name :: !IsPrivate(name) && name != ManifestFile ==>
         At(d', name).now == At(d, name).now && At(d', name).may <= At(d, name).may
  }

  lemma QuietIsRecorded(originals: map<string, Content>, superseded: set<Manifest>, d: Dir, d': Dir)
    requires Ok(originals, superseded, d) && Quiet(d, d')
    ensures Recorded(d, d') && Current(d') == Current(d) && At(d', ManifestFile).now == At(d, ManifestFile).now
    ensures forall m :: HasBackup(d, m) ==> HasBackup(d', m)
  {
    assert !IsPrivate(ManifestFile) && At(d, ManifestFile).now in At(d, ManifestFile).may;
  }

  lemma RecordedTransitive(d: Dir, e: Dir, f: Dir)
    requires Recorded(d, e) && Recorded(e, f)
    ensures Recorded(d, f)
  {
    forall name | !IsPrivate(name) && name != ManifestFile
      ensures At(f, name).now == At(d, name).now && At(f, name).may <= At(d, name).may
    {
      assert At(e, name).now == At(d, name).now;
    }
  }

  lemma RecordedKeepsArchives(d: Dir, d': Dir)
    requires Recorded(d, d')
    ensures forall n, digest :: ArchiveSafe(d, n, digest) ==> ArchiveSafe(d', n, digest)
    ensures forall n, info :: HasEntry(d, n, info) ==> HasEntry(d', n, info)
  {
    forall n, digest | ArchiveSafe(d, n, digest) ensures ArchiveSafe(d', n, digest) {
      assert !IsPrivate(Gz(n)) && Gz(n) != ManifestFile;
    }
  }

  // Once the directory is synced, the current manifest is the one a crash would leave.
  lemma CurrentIsCommitted(d: Dir)
    requires At(d, ManifestFile).may == {At(d, ManifestFile).now}
    ensures forall n :: n in Current(d) ==> HasEntry(d, n, Current(d)[n])
  {
  }

  predicate RawSafe(d: Dir, n: string, bytes: Content) {
    forall v :: v in At(d, Raw(n)).may ==>
      v.Some? && v.value in d.inodes && d.inodes[v.value].synced && d.inodes[v.value].kind == Sealed && d.inodes[v.value].content == bytes
  }

  ghost predicate InArchive(d: Dir, n: string, bytes: Content) {
    exists info :: HasEntry(d, n, info) && info.digest == bytes
  }

  // `originals` are the sealed files that were intact when they were sealed; each is in its raw file or
  // in the archive. Every superseded manifest has its recovery copy.
  ghost predicate Ok(originals: map<string, Content>, superseded: set<Manifest>, d: Dir) {
    && Shape(d) && ManifestOk(d) && Recoverable(d) && BackupsOk(d)
    && (forall m :: m in superseded ==> HasBackup(d, m))
    && (forall n :: n in originals ==> RawSafe(d, n, originals[n]) || InArchive(d, n, originals[n]))
  }

  // `generations` are the manifests that were ever in place: each but the current one has been superseded,
  // and a crash can only bring back one of them.
  ghost predicate Generations(generations: set<Manifest>, superseded: set<Manifest>, d: Dir) {
    && (forall m :: m in generations ==> m in superseded || (At(d, ManifestFile).now.Some? && m == Current(d)))
    && (forall v :: v in At(d, ManifestFile).may && v.Some? ==> FilesOf(d, v) in generations)
  }

  // So every generation that has been superseded has its recovery copy.
  lemma SupersededHaveCopies(originals: map<string, Content>, superseded: set<Manifest>, generations: set<Manifest>, d: Dir)
    requires Ok(originals, superseded, d) && Generations(generations, superseded, d)
    ensures forall m :: m in generations ==> HasBackup(d, m) || (At(d, ManifestFile).now.Some? && m == Current(d))
  {
    hide HasBackup;
  }

  lemma QuietKeepsGenerations(originals: map<string, Content>, superseded: set<Manifest>, generations: set<Manifest>, d: Dir, d': Dir)
    requires Ok(originals, superseded, d) && Quiet(d, d') && Generations(generations, superseded, d)
    ensures Generations(generations, superseded, d')
  {
    hide Keeps, BackupsOk, Recoverable;
    QuietIsRecorded(originals, superseded, d, d');
    assert !IsPrivate(ManifestFile);
    forall v | v in At(d', ManifestFile).may && v.Some? ensures FilesOf(d', v) in generations {
      assert v in At(d, ManifestFile).may && FilesOf(d', v) == FilesOf(d, v);
    }
  }

  lemma ProducedKeepsGenerations(originals: map<string, Content>, superseded: set<Manifest>, generations: set<Manifest>, d: Dir, d': Dir)
    requires Ok(originals, superseded, d) && Produced(d, d') && Generations(generations, superseded, d)
    ensures Generations(generations, superseded, d')
  {
    hide BackupsOk, Recoverable;
    assert At(d', ManifestFile) == At(d, ManifestFile) && At(d, ManifestFile).now in At(d, ManifestFile).may;
    forall v | v in At(d, ManifestFile).may && v.Some? ensures FilesOf(d', v) == FilesOf(d, v) {
      assert Holds(d, v, Doc(FilesOf(d, v)));
    }
  }

  lemma PutKeepsGenerations(superseded: set<Manifest>, generations: set<Manifest>, d: Dir, name: Name, v: Option<nat>)
    requires Generations(generations, superseded, d) && name != ManifestFile
    ensures Generations(generations, superseded, Put(d, name, v))
  {
    assert At(Put(d, name, v), ManifestFile) == At(d, ManifestFile);
  }

  // What is put in place joins the generations, and what it replaces has been superseded.
  lemma PublishingAddsGeneration(superseded: set<Manifest>, generations: set<Manifest>, d: Dir, m: Manifest, i: nat)
    requires Generations(generations, superseded, d) && Holds(d, Some(i), Doc(m))
    ensures var old_ := if At(d, ManifestFile).now.Some? then {Current(d)} else {};
            Generations(generations + {m}, superseded + old_, Put(d, ManifestFile, Some(i)))
  {
    var d' := Put(d, ManifestFile, Some(i));
    assert forall v :: FilesOf(d', v) == FilesOf(d, v);
  }

  // A crash loses at most the generation that was put in place last, and only before that was synced.
  lemma CrashKeepsGenerations(originals: map<string, Content>, superseded: set<Manifest>, generations: set<Manifest>, d: Dir, d': Dir)
    requires Ok(originals, superseded, d) && Crashed(d, d') && Generations(generations, superseded, d)
    ensures Generations(Surviving(generations, superseded, d'), superseded, d')
    ensures generations - Surviving(generations, superseded, d') <= (if At(d, ManifestFile).now.Some? then {Current(d)} else {})
    ensures At(d, ManifestFile).may == {At(d, ManifestFile).now} ==> Surviving(generations, superseded, d') == generations
  {
    hide BackupsOk, Recoverable, HasBackup, HasEntry;
    var v := At(d', ManifestFile).now;
    assert v in At(d, ManifestFile).may && At(d', ManifestFile).may == {v};
    if v.Some? {
      assert Holds(d, v, Doc(FilesOf(d, v)));
      assert FilesOf(d', v) == FilesOf(d, v);
    }
  }

  // The generations that are superseded or in place.
  ghost function Surviving(generations: set<Manifest>, superseded: set<Manifest>, d: Dir): set<Manifest> {
    set m | m in generations && (m in superseded || (At(d, ManifestFile).now.Some? && m == Current(d)))
  }

  /******* What leaves it alone *******/

  // What the invariant says depends on these entries and files only.
  ghost predicate Undisturbed(d: Dir, d': Dir, name: Name) {
    && At(d', name).may <= At(d, name).may && At(d', name).now in At(d', name).may
    && (At(d', name).now == At(d, name).now || At(d', name).may == {At(d', name).now})
    && forall v :: v in At(d', name).may && v.Some? && v.value in d.inodes ==> v.value in d'.inodes && Durably(d.inodes[v.value], d'.inodes[v.value])
  }

  predicate Durably(a: Inode, b: Inode) {
    b == a || b == a.(synced := true) || !a.synced
  }

  predicate AllSealed(d: Dir, n: string) {
    forall v :: v in At(d, Raw(n)).may ==> IsSealed(d, v)
  }

  // What a step may do to the entries that matter: narrow what a crash could bring back.
  ghost predicate Narrowed(d: Dir, d': Dir) {
    && Undisturbed(d, d', ManifestFile)
    && (forall n :: Undisturbed(d, d', Gz(n)))
    && (forall m :: Undisturbed(d, d', Backup(m)))
    && (forall n :: AllSealed(d, n) ==> Undisturbed(d, d', Raw(n)))
  }

  lemma NarrowedKeepsOk(originals: map<string, Content>, superseded: set<Manifest>, d: Dir, d': Dir)
    requires Ok(originals, superseded, d) && Shape(d') && Narrowed(d, d')
    ensures Ok(originals, superseded, d')
    ensures Keeps(d, d')
  {
    NarrowedManifest(d, d');
    forall n | n in Current(d') ensures ArchiveSafe(d', n, Current(d')[n].digest) {
      assert ArchiveSafe(d, n, Current(d)[n].digest);
      assert Undisturbed(d, d', Gz(n));
    }
    NarrowedBackups(d, d');
    forall n | n in originals ensures RawSafe(d', n, originals[n]) || InArchive(d', n, originals[n]) {
      if RawSafe(d, n, originals[n]) {
        NarrowedRaw(d, d', n, originals[n]);
      } else {
        var info :| HasEntry(d, n, info) && info.digest == originals[n];
        assert HasEntry(d', n, info);
      }
    }
  }

  lemma NarrowedManifest(d: Dir, d': Dir)
    requires Shape(d) && ManifestOk(d) && Undisturbed(d, d', ManifestFile)
    ensures ManifestOk(d') && Extends(Current(d'), Current(d))
    ensures forall n, info :: HasEntry(d, n, info) ==> HasEntry(d', n, info)
  {
  }

  lemma NarrowedBackups(d: Dir, d': Dir)
    requires Shape(d) && Shape(d') && BackupsOk(d) && forall m :: Undisturbed(d, d', Backup(m))
    ensures BackupsOk(d') && forall m :: HasBackup(d, m) ==> HasBackup(d', m)
  {
    forall m | HasBackup(d, m) ensures HasBackup(d', m) {
      assert Undisturbed(d, d', Backup(m));
    }
  }

  lemma NarrowedRaw(d: Dir, d': Dir, n: string, bytes: Content)
    requires Shape(d) && RawSafe(d, n, bytes) && Narrowed(d, d')
    ensures RawSafe(d', n, bytes)
  {
    assert At(d, Raw(n)).now in At(d, Raw(n)).may;
  }

  lemma CrashKeepsOk(originals: map<string, Content>, superseded: set<Manifest>, d: Dir, d': Dir)
    requires Ok(originals, superseded, d) && Crashed(d, d')
    ensures Ok(originals, superseded, d') && Keeps(d, d')
  {
    hide ManifestOk, Recoverable, BackupsOk, HasBackup, RawSafe, InArchive, HasEntry;
    assert forall name :: At(d', name).may == {At(d', name).now} && At(d', name).now in At(d, name).may;
    forall name, v | name in d'.entries && v in d'.entries[name].may && v.Some?
      ensures v.value in d'.inodes && (name.Gz? ==> d'.inodes[v.value].kind == Ours)
    {
      assert v in At(d, name).may && name in d.entries;
    }
    forall name | name in d'.entries ensures d'.entries[name].now in d'.entries[name].may {
      assert At(d', name).now in At(d', name).may;
    }
    assert Shape(d');
    NarrowedKeepsOk(originals, superseded, d, d');
  }

  lemma ProductionKeepsOk(originals: map<string, Content>, superseded: set<Manifest>, d: Dir, d': Dir)
    requires Ok(originals, superseded, d) && Produced(d, d')
    ensures Ok(originals, superseded, d') && Keeps(d, d')
  {
    assert forall v :: v in At(d, ManifestFile).may && v.Some? ==> d.inodes[v.value].kind == Ours;
    hide Recoverable, HasBackup, RawSafe, InArchive, HasEntry;
    forall name | name in d'.entries ensures d'.entries[name].now in d'.entries[name].may {
      assert At(d', name).now in At(d', name).may;
    }
    forall name, v | name in d'.entries && v in d'.entries[name].may && v.Some?
      ensures v.value in d'.inodes && (name.Gz? ==> d'.inodes[v.value].kind == Ours)
    {
      if v in At(d, name).may {
        assert name in d.entries;
      } else {
        assert At(d', name) != At(d, name);
      }
    }
    assert Shape(d');
    forall name: Name | !name.Raw? && !name.Temp? ensures Undisturbed(d, d', name) {
      ProducersLeave(d, d', name);
    }
    forall n | AllSealed(d, n) ensures Undisturbed(d, d', Raw(n)) {
      assert IsSealed(d, At(d, Raw(n)).now);
      assert At(d', Raw(n)) == At(d, Raw(n));
    }
    assert Narrowed(d, d');
    NarrowedKeepsOk(originals, superseded, d, d');
  }

  lemma ProducersLeave(d: Dir, d': Dir, name: Name)
    requires Shape(d) && ManifestOk(d) && BackupsOk(d) && Produced(d, d') && !name.Raw? && !name.Temp?
    ensures Undisturbed(d, d', name)
  {
    assert At(d', name) == At(d, name);
    assert forall v :: v in At(d, name).may && v.Some? ==> v.value in d.inodes && d.inodes[v.value].kind == Ours;
  }

  /******* Each operation of the archiver *******/

  lemma CreateKeepsOk(originals: map<string, Content>, superseded: set<Manifest>, d: Dir, content: Content, kind: Kind)
    requires Ok(originals, superseded, d)
    ensures Ok(originals, superseded, Create(d, content, kind)) && Quiet(d, Create(d, content, kind))
  {
    hide ManifestOk, Recoverable, BackupsOk, HasBackup, RawSafe, InArchive, HasEntry;
    var d' := Create(d, content, kind);
    assert Shape(d');
    assert forall name :: At(d', name) == At(d, name) && Undisturbed(d, d', name);
    NarrowedKeepsOk(originals, superseded, d, d');
  }

  lemma SyncFileKeepsOk(originals: map<string, Content>, superseded: set<Manifest>, d: Dir, i: nat)
    requires Ok(originals, superseded, d) && i in d.inodes
    ensures Ok(originals, superseded, SyncFile(d, i)) && Quiet(d, SyncFile(d, i))
  {
    hide ManifestOk, Recoverable, BackupsOk, HasBackup, RawSafe, InArchive, HasEntry;
    var d' := SyncFile(d, i);
    assert Shape(d');
    assert forall name :: At(d', name) == At(d, name) && Undisturbed(d, d', name);
    NarrowedKeepsOk(originals, superseded, d, d');
  }

  lemma SyncDirectoryKeepsOk(originals: map<string, Content>, superseded: set<Manifest>, d: Dir)
    requires Ok(originals, superseded, d)
    ensures Ok(originals, superseded, SyncDirectory(d)) && Quiet(d, SyncDirectory(d))
    ensures forall name :: At(SyncDirectory(d), name) == Slot(At(d, name).now, {At(d, name).now})
  {
    hide ManifestOk, Recoverable, BackupsOk, HasBackup, RawSafe, InArchive, HasEntry;
    var d' := SyncDirectory(d);
    assert Shape(d');
    assert forall name :: Undisturbed(d, d', name);
    NarrowedKeepsOk(originals, superseded, d, d');
  }

  lemma TempKeepsOk(originals: map<string, Content>, superseded: set<Manifest>, d: Dir, k: nat, v: Option<nat>)
    requires Ok(originals, superseded, d) && (v.Some? ==> v.value in d.inodes)
    ensures Ok(originals, superseded, Put(d, Temp(k), v)) && Quiet(d, Put(d, Temp(k), v))
  {
    hide ManifestOk, Recoverable, BackupsOk, HasBackup, RawSafe, InArchive, HasEntry;
    var d' := Put(d, Temp(k), v);
    assert Shape(d');
    assert forall name: Name :: !name.Temp? ==> At(d', name) == At(d, name) && Undisturbed(d, d', name);
    NarrowedKeepsOk(originals, superseded, d, d');
  }

  // Everything but one name is left alone.
  ghost predicate OnlyName(d: Dir, d': Dir, name: Name) {
    && d'.inodes == d.inodes && d'.clock == d.clock
    && forall other :: other != name ==> At(d', other) == At(d, other)
  }

  lemma OnlyNameKeeps(d: Dir, d': Dir, name: Name)
    requires OnlyName(d, d', name)
    ensures name != ManifestFile && ManifestOk(d) ==> ManifestOk(d') && Current(d') == Current(d)
    ensures name != ManifestFile ==> forall n, info :: HasEntry(d, n, info) <==> HasEntry(d', n, info)
    ensures forall n, digest :: name != Gz(n) && ArchiveSafe(d, n, digest) ==> ArchiveSafe(d', n, digest)
    ensures forall m :: name != Backup(m) && HasBackup(d, m) ==> HasBackup(d', m)
    ensures forall n, bytes :: name != Raw(n) && RawSafe(d, n, bytes) ==> RawSafe(d', n, bytes)
  {
  }

  // Linking an archive that is not there yet, and so is promised by no manifest.
  lemma LinkArchiveKeepsOk(originals: map<string, Content>, superseded: set<Manifest>, d: Dir, n: string, i: nat)
    requires Ok(originals, superseded, d) && At(d, Gz(n)).now == None
    requires i in d.inodes && d.inodes[i].kind == Ours
    ensures Ok(originals, superseded, Put(d, Gz(n), Some(i))) && Keeps(d, Put(d, Gz(n), Some(i)))
  {
    var d' := Put(d, Gz(n), Some(i));
    assert n !in Current(d) by {
      assert At(d, Gz(n)).now in At(d, Gz(n)).may;
      assert forall digest :: !ArchiveSafe(d, n, digest);
    }
    assert Shape(d');
    OnlyNameKeeps(d, d', Gz(n));
    hide ManifestOk, HasBackup, RawSafe, HasEntry, ArchiveSafe;
    forall o | o in originals ensures RawSafe(d', o, originals[o]) || InArchive(d', o, originals[o]) {
      if !RawSafe(d, o, originals[o]) {
        var info :| HasEntry(d, o, info) && info.digest == originals[o];
        assert HasEntry(d', o, info);
      }
    }
  }

  // Linking a recovery copy of the bytes its name promises.
  lemma LinkBackupKeepsOk(originals: map<string, Content>, superseded: set<Manifest>, d: Dir, m: Manifest, i: nat)
    requires Ok(originals, superseded, d) && Holds(d, Some(i), Doc(m))
    ensures Ok(originals, superseded, Put(d, Backup(m), Some(i))) && Quiet(d, Put(d, Backup(m), Some(i)))
  {
    var d' := Put(d, Backup(m), Some(i));
    assert Shape(d');
    OnlyNameKeeps(d, d', Backup(m));
    assert BackupsOk(d');
    assert forall o :: HasBackup(d, o) ==> HasBackup(d', o);
    hide ManifestOk, HasBackup, RawSafe, HasEntry, ArchiveSafe, BackupsOk;
    forall o | o in originals ensures RawSafe(d', o, originals[o]) || InArchive(d', o, originals[o]) {
      if !RawSafe(d, o, originals[o]) {
        var info :| HasEntry(d, o, info) && info.digest == originals[o];
        assert HasEntry(d', o, info);
      }
    }
  }

  // Publishing a manifest that extends the current one, each of whose archives is safe.
  lemma PublishManifestKeepsOk(originals: map<string, Content>, superseded: set<Manifest>, d: Dir, m: Manifest, i: nat)
    requires Ok(originals, superseded, d) && Holds(d, Some(i), Doc(m)) && Extends(Current(d), m)
    requires forall n :: n in m ==> ArchiveSafe(d, n, m[n].digest)
    requires At(d, ManifestFile).now.Some? ==> HasBackup(d, Current(d))
    ensures var d' := Put(d, ManifestFile, Some(i));
            var old_ := if At(d, ManifestFile).now.Some? then {Current(d)} else {};
            Ok(originals, superseded + old_, d') && Recorded(d, d') && Current(d') == m
  {
    var d' := Put(d, ManifestFile, Some(i));
    assert Shape(d');
    OnlyNameKeeps(d, d', ManifestFile);
    PublishedManifest(d, m, i);
    hide ManifestOk, HasBackup, RawSafe, HasEntry, ArchiveSafe, BackupsOk, FilesOf;
    assert BackupsOk(d') by {
      OnlyNameKeepsBackups(d, d', ManifestFile);
    }
    forall o | o in originals ensures RawSafe(d', o, originals[o]) || InArchive(d', o, originals[o]) {
      if !RawSafe(d, o, originals[o]) {
        var info :| HasEntry(d, o, info) && info.digest == originals[o];
        assert HasEntry(d', o, info);
      }
    }
  }

  lemma OnlyNameKeepsBackups(d: Dir, d': Dir, name: Name)
    requires Shape(d) && OnlyName(d, d', name) && !name.Backup? && BackupsOk(d)
    ensures BackupsOk(d')
  {
    forall o: Name, v | o in d'.entries && o.Backup? && v in d'.entries[o].may && v.Some?
      ensures Holds(d', v, Doc(o.of))
    {
      assert At(d', o) == At(d, o);
    }
  }

  lemma PublishedManifest(d: Dir, m: Manifest, i: nat)
    requires Shape(d) && ManifestOk(d) && Holds(d, Some(i), Doc(m)) && Extends(Current(d), m)
    ensures ManifestOk(Put(d, ManifestFile, Some(i)))
    ensures forall n, info :: HasEntry(d, n, info) ==> HasEntry(Put(d, ManifestFile, Some(i)), n, info)
    ensures Current(Put(d, ManifestFile, Some(i))) == m
  {
    var d' := Put(d, ManifestFile, Some(i));
    assert At(d, ManifestFile).now in At(d, ManifestFile).may;
    assert forall v :: FilesOf(d', v) == FilesOf(d, v);
    assert forall v :: v in At(d', ManifestFile).may <==> v in At(d, ManifestFile).may || v == Some(i);
    forall n, info | HasEntry(d, n, info) ensures HasEntry(d', n, info) {
      assert n in Current(d) && Current(d)[n] == info;
    }
  }

  // Removing or installing a raw file whose bytes, if they are an original, are in the archive.
  lemma RawKeepsOk(originals: map<string, Content>, superseded: set<Manifest>, d: Dir, n: string, v: Option<nat>)
    requires Ok(originals, superseded, d) && (v.Some? ==> v.value in d.inodes)
    requires n in originals ==> InArchive(d, n, originals[n])
    ensures Ok(originals, superseded, Put(d, Raw(n), v)) && Keeps(d, Put(d, Raw(n), v))
  {
    var d' := Put(d, Raw(n), v);
    assert Shape(d');
    OnlyNameKeeps(d, d', Raw(n));
    OnlyNameKeepsBackups(d, d', Raw(n));
    hide ManifestOk, HasBackup, RawSafe, HasEntry, ArchiveSafe, BackupsOk;
    forall o | o in originals ensures RawSafe(d', o, originals[o]) || InArchive(d', o, originals[o]) {
      if o == n || !RawSafe(d, o, originals[o]) {
        var info :| HasEntry(d, o, info) && info.digest == originals[o];
        assert HasEntry(d', o, info);
      }
    }
  }

  /******* Nothing is lost *******/

  // In the directory as it is, or as any crash would leave it, the bytes of every original are in its
  // raw file, or in an archive that decompresses to them and is named by the manifest.
  lemma NothingLost(originals: map<string, Content>, superseded: set<Manifest>, d: Dir, d': Dir, n: string)
    requires Ok(originals, superseded, d) && (d' == d || Crashed(d, d')) && n in originals
    ensures (At(d', Raw(n)).now.Some? && d'.inodes[At(d', Raw(n)).now.value].content == originals[n])
         || (n in Current(d') && Current(d')[n].digest == originals[n] &&
             At(d', Gz(n)).now.Some? && d'.inodes[At(d', Gz(n)).now.value].content == Zip(originals[n]))
  {
    if d' != d {
      CrashKeepsOk(originals, superseded, d, d');
    }
    assert At(d', Raw(n)).now in At(d', Raw(n)).may && At(d', Gz(n)).now in At(d', Gz(n)).may;
    assert At(d', ManifestFile).now in At(d', ManifestFile).may;
    if !RawSafe(d', n, originals[n]) {
      var info :| HasEntry(d', n, info) && info.digest == originals[n];
      assert n in Current(d') && ArchiveSafe(d', n, Current(d')[n].digest);
    }
  }
}
