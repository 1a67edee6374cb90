/**
 The rebuildable exact-id cache. An index opened on any sound state root answers membership exactly
 as the stream itself would, whether it trusted the database, extended it by the suffix appended
 since, or derived it from the first byte; and what it commits is sound again.
 */
module RecordIndex {
  import opened Wrappers
  import opened Json
  import opened Jsonl
  import opened Replay
  import opened StateRoot

  class Root {
    const codec: Codec
    const reducer: Reducer
    var disk: Disk

    constructor (codec: Codec, reducer: Reducer)
      requires CodecOk(codec)
      ensures this.codec == codec && this.reducer == reducer && disk == EMPTY_DISK && Ok()
    {
      this.codec := codec;
      this.reducer := reducer;
      disk := EMPTY_DISK;
      new;
      EmptyDiskIsSound(codec);
    }

    ghost predicate Ok()
      reads this
    {
      CodecOk(codec) && Sound(codec, disk)
    }
  }

  // The receipt and the database are what they were, gone, or new.
  predicate CacheMoved(before: Disk, after: Disk) {
    && (after.receipt == before.receipt || after.receipt.None? || before.clock <= after.receipt.value < after.clock)
    && (after.database == before.database || after.database.None? || before.clock <= after.database.value.stamp < after.clock)
  }

  // Only the cache, its receipt and the clock may differ.
  predicate SameStreams(before: Disk, after: Disk) {
    after.files == before.files && after.ledger == before.ledger && before.clock <= after.clock && CacheMoved(before, after)
  }

  // A stream's entry while the index is open, with the part of its prefix known to be durable.
  datatype Live = Live(entry: Entry, durable: nat)

  ghost predicate LiveSound(c: Codec, l: Live, ids: set<Text>, f: Option<File>) {
    var b := Bytes(f);
    && l.entry.size == PrefixEnd(b)
    && l.entry.tail == TailOf(c, b)
    && l.entry.hash == TailFingerprint(b, PrefixEnd(b))
    && l.entry.observed == SignatureOf(f)
    && ids == Ids(c, Rows(c, b))
    && l.durable <= l.entry.size
    && (l.durable > 0 ==> f.Some? && f.value.named && l.durable <= f.value.durable)
  }

  // A stream whose entry may be committed: a durable prefix, with no row waiting for its newline.
  ghost predicate CommitReady(c: Codec, l: Live, ids: set<Text>, f: Option<File>) {
    var b := Bytes(f);
    && l.entry.size == PrefixEnd(b)
    && ids == Ids(c, Rows(c, b))
    && TailOf(c, b) != Complete
    && (l.entry.size > 0 ==> f.Some? && f.value.named)
    && (f.Some? ==> l.entry.size <= f.value.durable)
    && (if l.entry.observed == SignatureOf(f)
        then l.entry.tail == TailOf(c, b) && l.entry.hash == TailFingerprint(b, PrefixEnd(b))
        else f.Some? && TailOf(c, b) == NoTail)
  }

  class RecordIndex {
    const root: Root
    var db: Option<Cache>
    var entries: PerStream<Live>

    constructor (root: Root)
      ensures this.root == root && db == None
    {
      this.root := root;
      db := None;
      var blank := Live(Entry(0, NoTail, NoLine, None), 0);
      entries := PerStream(blank, blank, blank);
    }

    ghost predicate OpenOn(s: Stream)
      reads this, root
    {
      db.Some? && LiveSound(root.codec, entries.Get(s), db.value.ids.Get(s), root.disk.files.Get(s))
    }

    // Establish the trust boundary and derive every entry; any failure leaves only cache files changed.
    method Open() returns (ready: bool)
      requires root.Ok()
      modifies this, root
      ensures root.Ok() && SameStreams(old(root.disk), root.disk)
      ensures ready ==> forall s: Stream :: OpenOn(s)
    {
      hide Rows, Ids, PrefixEnd, LastLine;
      ready := Connect();
      if ready {
        db := Some(root.disk.database.value.cache);
        OpenStream(Event);
        OpenStream(Metric);
        OpenStream(Outcome);
      }
    }

    // Connect to a database that the receipt vouches for, or to an empty one.
    method Connect() returns (ready: bool)
      requires root.Ok()
      modifies root
      ensures root.Ok() && SameStreams(old(root.disk), root.disk)
      ensures ready ==>
                root.disk.database.Some? &&
                CacheSound(root.codec, root.disk.database.value.cache, root.disk.files, root.disk.clock)
    {
      if !Trusted(root.disk) {
        // The receipt goes first, so that no later failure can leave it vouching for anything.
        root.disk := root.disk.(receipt := None);
        if * {
          return false;
        }
        root.disk := root.disk.(database := None, journal := false);
        if * {
          return false;
        }
        root.disk := root.disk.(database := Some(Database(root.disk.clock, EMPTY_CACHE)), clock := root.disk.clock + 1);
      }
      ready := *;
    }

    method OpenStream(s: Stream)
      requires root.Ok() && db.Some?
      requires db.value.meta.Get(s).Some? ==>
                 EntrySound(root.codec, db.value.meta.Get(s).value, db.value.ids.Get(s), root.disk.files.Get(s), root.disk.clock)
      modifies this
      ensures OpenOn(s)
      ensures db.value.meta == old(db.value.meta)
      ensures forall t :: t != s ==> entries.Get(t) == old(entries.Get(t)) && db.value.ids.Get(t) == old(db.value.ids.Get(t))
    {
      hide Rows, Ids, PrefixEnd, TailOf, LastLine;
      var f := root.disk.files.Get(s);
      var observed := SignatureOf(f);
      var saved := db.value.meta.Get(s);
      if saved.Some? && saved.value.observed == observed {
        TrustedEntry(root.codec, saved.value, db.value.ids.Get(s), f, root.disk.clock);
        entries := entries.Set(s, Live(saved.value, saved.value.size));
        return;
      }
      var offset := ResumeOffset(saved, f);
      if offset == 0 {
        db := Some(db.value.(ids := db.value.ids.Set(s, {})));
        assert Bytes(f)[..0] == "";
        NoRows(root.codec);
      }
      var entry := Scan(s, Bytes(f), offset);
      entries := entries.Set(s, Live(entry.(observed := observed), offset));
    }

    // Growth of the same file past an unchanged prefix is read from that prefix on.
    static function ResumeOffset(saved: Option<Entry>, f: Option<File>): nat
      requires saved.Some? && saved.value.observed.Some? && f.Some? && f.value.ino == saved.value.observed.value.ino ==>
                 saved.value.size <= |f.value.bytes|
    {
      if saved.Some? && saved.value.observed.Some? && f.Some?
         && f.value.ino == saved.value.observed.value.ino && |f.value.bytes| > saved.value.observed.value.size
         && TailFingerprint(f.value.bytes, saved.value.size) == saved.value.hash
      then saved.value.size else 0
    }

    // Walk the lines from `offset`, indexing every id, up to and including an unterminated tail.
    method Scan(s: Stream, b: string, offset: nat) returns (entry: Entry)
      requires CodecOk(root.codec) && db.Some?
      requires offset <= |b| && Closed(b[..offset])
      requires db.value.ids.Get(s) == Ids(root.codec, Rows(root.codec, b[..offset]))
      modifies this`db
      ensures db.Some? && db.value.meta == old(db.value.meta)
      ensures db.value.ids.Get(s) == Ids(root.codec, Rows(root.codec, b))
      ensures forall t :: t != s ==> db.value.ids.Get(t) == old(db.value.ids.Get(t))
      ensures offset <= entry.size == PrefixEnd(b) && entry.tail == TailOf(root.codec, b)
      ensures entry.hash == TailFingerprint(b, PrefixEnd(b))
    {
      hide Rows, Ids, PrefixEnd, LineEnd, LastLine, LineIds;
      var end := offset;
      var tail := NoTail;
      while end < |b| && tail == NoTail
        invariant offset <= end <= |b| && Closed(b[..end])
        invariant db.Some? && db.value.meta == old(db.value.meta)
        invariant forall t :: t != s ==> db.value.ids.Get(t) == old(db.value.ids.Get(t))
        invariant tail == NoTail ==> db.value.ids.Get(s) == Ids(root.codec, Rows(root.codec, b[..end]))
        invariant tail != NoTail ==>
                    end == PrefixEnd(b) && tail == TailOf(root.codec, b) && db.value.ids.Get(s) == Ids(root.codec, Rows(root.codec, b))
        decreases |b| - end, tail == NoTail
      {
        var n := LineEnd(b[end..]);
        ghost var ids := db.value.ids.Get(s);
        IndexLine(s, b[end..][..n]);
        if n == |b| - end {
          assert b[end..][..n] == b[end..];
          ScanTail(root.codec, b, end, ids);
          tail := TailClass(b[end..]);
        } else {
          ScanLine(root.codec, b, end, n, ids);
          end := end + n + 1;
        }
      }
      if tail == NoTail {
        assert b[..end] == b;
        PrefixEndUnique(b, |b|);
      }
      entry := Entry(end, tail, TailFingerprint(b, end), None);
    }

    function TailClass(line: string): Tail {
      if root.codec.parse(line).Some? then Complete else Fragment
    }

    method IndexLine(s: Stream, line: string)
      requires db.Some?
      modifies this`db
      ensures db.Some? && db.value.meta == old(db.value.meta)
      ensures db.value.ids.Get(s) == old(db.value.ids.Get(s)) + LineIds(root.codec, line)
      ensures forall t :: t != s ==> db.value.ids.Get(t) == old(db.value.ids.Get(t))
    {
      var record := root.codec.parse(line);
      if record.Some? && root.codec.id(record.value) != [] {
        Add(s, root.codec.id(record.value));
      }
    }

    method Add(s: Stream, id: Text)
      requires db.Some?
      modifies this`db
      ensures db.Some? && db.value.meta == old(db.value.meta)
      ensures db.value.ids.Get(s) == old(db.value.ids.Get(s)) + {id}
      ensures forall t :: t != s ==> db.value.ids.Get(t) == old(db.value.ids.Get(t))
    {
      db := Some(db.value.(ids := db.value.ids.Set(s, db.value.ids.Get(s) + {id})));
    }

    // Membership in the cache is membership in the stream.
    method Contains(s: Stream, id: Text) returns (found: bool)
      requires OpenOn(s)
      ensures found <==> id in Ids(root.codec, Rows(root.codec, Bytes(root.disk.files.Get(s))))
    {
      found := id in db.value.ids.Get(s);
    }

    // Commit the derived database; the receipt is published separately, by the caller.
    method Commit() returns (receipt: nat)
      requires root.Ok() && db.Some?
      requires forall s: Stream ::
                 CommitReady(root.codec, entries.Get(s), db.value.ids.Get(s), root.disk.files.Get(s))
      modifies this, root
      ensures root.Ok() && SameStreams(old(root.disk), root.disk) && db == None && entries == old(entries)
      ensures root.disk.database.Some? && receipt == root.disk.database.value.stamp && !root.disk.journal
      ensures old(root.disk.clock) <= receipt < root.disk.clock
      ensures root.disk.receipt == old(root.disk.receipt)
      ensures CacheSound(root.codec, root.disk.database.value.cache, root.disk.files, root.disk.clock)
    {
      hide Rows, Ids, PrefixEnd, LastLine, TailOf;
      var meta := PerStream(Some(SavedEntry(Event)), Some(SavedEntry(Metric)), Some(SavedEntry(Outcome)));
      forall s: Stream
        ensures meta.Get(s) == Some(SavedEntry(s))
        ensures EntrySound(root.codec, SavedEntry(s), db.value.ids.Get(s), root.disk.files.Get(s), root.disk.clock + 1)
      {
        CommittedEntry(s);
      }
      receipt := root.disk.clock;
      root.disk := root.disk.(database := Some(Database(receipt, db.value.(meta := meta))), journal := false, clock := receipt + 1);
      db := None;
    }

    function SavedEntry(s: Stream): Entry
      reads this, root
      requires entries.Get(s).entry.size <= |Bytes(root.disk.files.Get(s))|
    {
      var entry := entries.Get(s).entry;
      var observed := SignatureOf(root.disk.files.Get(s));
      if observed == entry.observed then entry
      else
        Entry(entry.size,
              if observed == None || observed.value.size == entry.size then NoTail else entry.tail,
              TailFingerprint(Bytes(root.disk.files.Get(s)), entry.size),
              observed)
    }

    lemma CommittedEntry(s: Stream)
      requires root.Ok() && db.Some?
      requires CommitReady(root.codec, entries.Get(s), db.value.ids.Get(s), root.disk.files.Get(s))
      ensures EntrySound(root.codec, SavedEntry(s), db.value.ids.Get(s), root.disk.files.Get(s), root.disk.clock + 1)
    {
      hide Rows, Ids, LastLine, PrefixEnd, CutSafe;
      var c, f, e := root.codec, root.disk.files.Get(s), SavedEntry(s);
      NoRows(c);
      PrefixEndSpec(Bytes(f));
      RowsOfTail(c, Bytes(f));
      if f.Some? {
        DurablePrefixEnd(f.value.bytes, f.value.durable);
        assert FileSound(c, f.value, root.disk.clock);
        DurableDescription(c, e, f.value);
      }
    }

    // Close without committing: the transaction rolls back, or its journal stays behind.
    method Close()
      requires root.Ok()
      modifies this, root
      ensures root.Ok() && SameStreams(old(root.disk), root.disk) && db == None
    {
      db := None;
      if * {
        root.disk := root.disk.(journal := true);
      }
      if * {
        if root.disk.database.Some? {
          root.disk := root.disk.(database := Some(root.disk.database.value.(stamp := root.disk.clock)), clock := root.disk.clock + 1);
        }
      }
    }
  }


  // A trusted entry whose signature still matches describes the whole stream.
  lemma TrustedEntry(c: Codec, e: Entry, ids: set<Text>, f: Option<File>, clock: nat)
    requires CodecOk(c) && EntrySound(c, e, ids, f, clock) && e.observed == SignatureOf(f)
    ensures LiveSound(c, Live(e, e.size), ids, f)
  {
    NoRows(c);
    hide Rows, Ids, LastLine;
    RowsOfTail(c, Bytes(f));
  }

  // What one line adds to the index.
  function LineIds(c: Codec, line: string): set<Text> {
    match c.parse(line)
    case Some(v) => IdOf(c, v)
    case None => {}
  }

  lemma LineIdsAreVisible(c: Codec, line: string)
    ensures Ids(c, Visible(c, line)) == LineIds(c, line)
  {
  }

  // The scan reached the unterminated tail.
  lemma ScanTail(c: Codec, b: string, end: nat, ids: set<Text>)
    requires CodecOk(c) && end < |b| && Closed(b[..end])
    requires ids == Ids(c, Rows(c, b[..end])) && LineEnd(b[end..]) == |b| - end
    ensures end == PrefixEnd(b)
    ensures TailOf(c, b) == if c.parse(b[end..]).Some? then Complete else Fragment
    ensures ids + LineIds(c, b[end..]) == Ids(c, Rows(c, b))
  {
    hide Rows, Ids, PrefixEnd, LineEnd;
    var line := b[end..];
    LineEndSpec(line);
    assert forall i :: end <= i < |b| ==> b[i] == line[i - end];
    PrefixEndUnique(b, end);
    RowsOfTail(c, b);
    IdsAppend(c, Rows(c, b[..end]), Visible(c, line));
    LineIdsAreVisible(c, line);
  }

  // The scan passed one complete line.
  lemma ScanLine(c: Codec, b: string, end: nat, n: nat, ids: set<Text>)
    requires CodecOk(c) && end < |b| && Closed(b[..end])
    requires ids == Ids(c, Rows(c, b[..end])) && n == LineEnd(b[end..]) < |b| - end
    ensures Closed(b[..end + n + 1])
    ensures ids + LineIds(c, b[end..][..n]) == Ids(c, Rows(c, b[..end + n + 1]))
  {
    hide Rows, Ids, LineEnd;
    var line := b[end..][..n];
    LineEndSpec(b[end..]);
    assert b[end..][n] == '\n' == b[end + n];
    assert b[..end + n + 1] == b[..end] + (line + "\n");
    RowsOfLine(c, line);
    RowsAppend(c, b[..end], line + "\n");
    IdsAppend(c, Rows(c, b[..end]), Visible(c, line));
    LineIdsAreVisible(c, line);
  }

  // The complete prefix of a durable part that already holds it is the same prefix.
  lemma DurablePrefixEnd(b: string, durable: nat)
    requires PrefixEnd(b) <= durable <= |b|
    ensures PrefixEnd(b[..durable]) == PrefixEnd(b)
  {
    PrefixEndSpec(b);
    assert b[..durable][..PrefixEnd(b)] == b[..PrefixEnd(b)];
    PrefixEndUnique(b[..durable], PrefixEnd(b));
  }

  // An entry derived from the file as it stands also describes the image its signature would name
  // after a crash: the two images are the same one, or the signatures differ.
  lemma DurableDescription(c: Codec, e: Entry, f: File)
    requires f.durable <= |f.bytes|
    requires e.observed == SignatureOf(Some(f))
    requires PrefixEnd(f.bytes) == e.size && TailOf(c, f.bytes) == e.tail
    ensures Describes(c, e, e.observed.value, f.bytes[..f.durable], f.syncStamp)
  {
    if f.durable == |f.bytes| {
      assert f.bytes[..f.durable] == f.bytes;
    }
  }
}
