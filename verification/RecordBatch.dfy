/**
 The coordinated writer. Every `if *` is a point where the process may be killed or an operation may
 fail; an append may stop after any number of characters. Whatever happens, each stream shows its old
 rows followed by some of the batch's new ones, and a call that returns has all of them durable.
 */
module RecordBatch {
  import opened Wrappers
  import opened Json
  import opened Jsonl
  import opened Replay
  import opened StateRoot
  import opened RecordIndex

  datatype Item = Item(stream: Stream, row: Json)

  datatype ItemStatus = Persisted | Duplicate

  datatype Status = Ok | CheckpointFailed | RefreshFailed

  // An exception says how many rows of each stream are durable; a return says what became of each item.
  datatype Result = Raised(persisted: PerStream<nat>) | Returned(status: Status, statuses: seq<ItemStatus>)

  // `validate_batch`: acceptable records with non-empty ids, none repeated within the batch, and with no
  // identifier member that a replay would skip them for.
  ghost predicate ValidBatch(c: Codec, items: seq<Item>) {
    && (forall i :: 0 <= i < |items| ==> c.accepts(items[i].row) && c.id(items[i].row) != [] && ValidKeys(items[i].row))
    && (forall i, j :: 0 <= i < j < |items| ==> c.id(items[i].row) != c.id(items[j].row))
  }

  // The rows of one stream that it does not hold yet, in batch order.
  function Fresh(c: Codec, known: set<Text>, items: seq<Item>, s: Stream): seq<Json> {
    if items == [] then []
    else
      var last := items[|items| - 1];
      Fresh(c, known, items[..|items| - 1], s) +
      if last.stream == s && c.id(last.row) !in known then [last.row] else []
  }

  lemma {:induction false} FreshMembers(c: Codec, known: set<Text>, items: seq<Item>, s: Stream)
    ensures forall r :: r in Fresh(c, known, items, s) <==>
                        c.id(r) !in known && exists i :: 0 <= i < |items| && items[i] == Item(s, r)
  {
    if items != [] {
      var n := |items| - 1;
      FreshMembers(c, known, items[..n], s);
      assert items == items[..n] + [items[n]];
      assert forall r :: (exists i :: 0 <= i < |items| && items[i] == Item(s, r)) <==>
                         (exists i :: 0 <= i < n && items[..n][i] == Item(s, r)) || items[n] == Item(s, r) by {
        forall r | exists i :: 0 <= i < |items| && items[i] == Item(s, r)
          ensures (exists i :: 0 <= i < n && items[..n][i] == Item(s, r)) || items[n] == Item(s, r)
        {
          var i :| 0 <= i < |items| && items[i] == Item(s, r);
          assert i < n ==> items[..n][i] == Item(s, r);
        }
        forall r | exists i :: 0 <= i < n && items[..n][i] == Item(s, r)
          ensures exists i :: 0 <= i < |items| && items[i] == Item(s, r)
        {
          var i :| 0 <= i < n && items[..n][i] == Item(s, r);
          assert items[i] == Item(s, r);
        }
      }
    }
  }

  // A row is appended exactly when no row of the stream carries its last `record_id`.
  lemma UnseenIdIsAppended(f: Option<File>, items: seq<Item>, k: nat, id: Text)
    requires k < |items| && id != [] && HasRecordId(items[k].row, id)
    ensures items[k].row in Fresh(JSON_CODEC, Known(JSON_CODEC, f), items, items[k].stream) <==> !Carries(Rows(JSON_CODEC, Bytes(f)), id)
  {
    hide Rows, RecordId, HasRecordId, Carries, Fresh;
    var s, row, rows := items[k].stream, items[k].row, Rows(JSON_CODEC, Bytes(f));
    RecordIdIsTheLast(row, id);
    assert JSON_CODEC.id(row) == id;
    HeldIffShown(rows, id);
    FreshMembers(JSON_CODEC, Known(JSON_CODEC, f), items, s);
    assert items[k] == Item(s, row);
    assert row in Fresh(JSON_CODEC, Known(JSON_CODEC, f), items, s) <==> id !in Ids(JSON_CODEC, rows);
  }

  lemma FreshAccepted(c: Codec, known: set<Text>, items: seq<Item>, s: Stream)
    requires ValidBatch(c, items)
    ensures Accepted(c, Fresh(c, known, items, s))
  {
    FreshMembers(c, known, items, s);
  }

  // The ids a stream holds.
  ghost function Known(c: Codec, f: Option<File>): set<Text> {
    Ids(c, Rows(c, Bytes(f)))
  }

  /******* One stream's append *******/

  // The file after an append of `rows`; all of it, and durable, if the append was acknowledged.
  ghost predicate Appends(c: Codec, before: Option<File>, after: Option<File>, rows: seq<Json>, all: bool) {
    && Bytes(before) <= Bytes(after)
    && (before.Some? ==> after.Some? && after.value.ino == before.value.ino
                         && before.value.durable <= after.value.durable && (before.value.named ==> after.value.named))
    && (exists k :: 0 <= k <= |rows| && Rows(c, Bytes(after)) == Rows(c, Bytes(before)) + rows[..k])
    && (all ==> Rows(c, Bytes(after)) == Rows(c, Bytes(before)) + rows)
  }

  predicate IsDurable(f: Option<File>) {
    f.Some? && f.value.named && f.value.durable == |f.value.bytes|
  }

  ghost predicate AllEvolved(before: Disk, after: Disk) {
    forall s: Stream :: Evolved(before.files.Get(s), after.files.Get(s), before.clock, after.clock)
  }

  lemma EvolvedRefl(f: Option<File>, clock: nat, clock': nat)
    ensures Evolved(f, f, clock, clock')
  {
  }

  lemma EvolvedLater(f: Option<File>, g: Option<File>, clock0: nat, clock: nat, clock': nat, clock1: nat)
    requires Evolved(f, g, clock, clock') && clock0 <= clock && clock' <= clock1
    ensures Evolved(f, g, clock0, clock1)
  {
  }

  // The file that was opened, and what `n` characters of the text made of it.
  ghost predicate Progress(before: Option<File>, f: File, text: string, n: nat, g: File, clock: nat, clock': nat) {
    && f == Opened(before, clock) && n <= |text|
    && (n == 0 ==> g == f) && (n > 0 ==> clock <= g.stamp < clock' && g == Grown(f, text[..n], g.stamp))
  }

  // Nothing else has changed but what became durable.
  ghost predicate Synced(f: File, g: File) {
    && g == f.(durable := g.durable, syncStamp := g.syncStamp, named := g.named) && f.durable <= g.durable && (f.named ==> g.named)
    && (g == f || (g.durable == |f.bytes| && g.syncStamp == f.stamp))
  }

  lemma WroteSome(before: Option<File>, opened_: Disk, after: Disk, s: Stream, text: string, n: nat, clock: nat)
    requires opened_.files.Get(s) == Some(Opened(before, clock)) && clock <= opened_.clock && n <= |text|
    requires (n == 0 ==> after == opened_) && (n > 0 ==> Wrote(opened_, after, s, text[..n]))
    ensures after.files.Get(s).Some? && after == WithFile(opened_, s, after.files.Get(s).value, after.clock)
    ensures opened_.clock <= after.clock
    ensures Progress(before, Opened(before, clock), text, n, after.files.Get(s).value, clock, after.clock)
  {
  }

  lemma AppendProgress(c: Codec, before: Option<File>, f: File, rows: seq<Json>, n: nat, mid: File, g: File, clock: nat, clock': nat, all: bool)
    requires CodecOk(c) && Accepted(c, rows) && Synced(mid, g)
    requires var text := Appended(c, TailOf(c, Bytes(before)), rows);
             Progress(before, f, text, n, mid, clock, clock') && (all ==> n == |text|)
    ensures Appends(c, before, Some(g), rows, all) && Evolved(before, Some(g), clock, clock')
  {
    hide Rows, TailOf, Appended, Appends;
    var text := Appended(c, TailOf(c, Bytes(before)), rows);
    assert f.bytes + text[..0] == f.bytes;
    AppendedSome(c, before, f, rows, n, g, all);
  }

  // The bytes end where they should, and the signature tells whether there are new ones.
  lemma AppendFinished(c: Codec, before: Option<File>, f: File, rows: seq<Json>, mid: File, g: File, clock: nat, clock': nat)
    requires CodecOk(c) && Synced(mid, g)
    requires var text := Appended(c, TailOf(c, Bytes(before)), rows); Progress(before, f, text, |text|, mid, clock, clock')
    ensures var (tail, text) := (TailOf(c, Bytes(before)), Appended(c, TailOf(c, Bytes(before)), rows));
            && PrefixEnd(g.bytes) ==
               (if tail != NoTail && !(rows != [] || tail == Complete) then PrefixEnd(Bytes(before)) else |Bytes(before)| + |text|)
            && TailOf(c, g.bytes) == (if rows == [] && tail == Fragment then Fragment else NoTail)
            && (if SignatureOf(Some(g)) == SignatureOf(before) then g.bytes == Bytes(before) else TailOf(c, g.bytes) == NoTail)
  {
    hide PrefixEnd, Payload;
    var text := Appended(c, TailOf(c, Bytes(before)), rows);
    assert text[..|text|] == text && f.bytes + text == g.bytes;
    AppendEnds(c, Bytes(before), rows);
    EmptyHasNoTail(c);
    if TailOf(c, Bytes(before)) == Fragment && rows == [] {
      assert Payload(c, rows) == "";
    }
  }

  lemma EmptyHasNoTail(c: Codec)
    ensures TailOf(c, "") == NoTail && Payload(c, []) == ""
  {
  }

  method AppendStream(root: Root, s: Stream, rows: seq<Json>, prefix: nat, tail: Tail) returns (size: Option<nat>)
    requires root.Ok() && Accepted(root.codec, rows)
    requires prefix == PrefixEnd(Bytes(root.disk.files.Get(s))) && tail == TailOf(root.codec, Bytes(root.disk.files.Get(s)))
    modifies root
    ensures root.Ok()
    ensures root.disk == old(root.disk).(files := old(root.disk.files).Set(s, root.disk.files.Get(s)), clock := root.disk.clock)
    ensures old(root.disk.clock) <= root.disk.clock
    ensures Appends(root.codec, old(root.disk.files.Get(s)), root.disk.files.Get(s), rows, size.Some?)
    ensures Evolved(old(root.disk.files.Get(s)), root.disk.files.Get(s), old(root.disk.clock), root.disk.clock)
    ensures size.Some? ==>
              IsDurable(root.disk.files.Get(s)) &&
              size.value == PrefixEnd(Bytes(root.disk.files.Get(s))) &&
              TailOf(root.codec, Bytes(root.disk.files.Get(s))) == (if rows == [] && tail == Fragment then Fragment else NoTail)
    ensures size.Some? ==>
              if SignatureOf(root.disk.files.Get(s)) == SignatureOf(old(root.disk.files.Get(s)))
              then Bytes(root.disk.files.Get(s)) == Bytes(old(root.disk.files.Get(s)))
              else TailOf(root.codec, Bytes(root.disk.files.Get(s))) == NoTail
  {
    hide Rows, PrefixEnd, CutSafe, Sound, Payload, Appends, Appended, Evolved, Wrote, TailOf, SignatureOf, Opened, Progress;
    var c := root.codec;
    ghost var (before, clock) := (root.disk.files.Get(s), root.disk.clock);
    EvolvedRefl(before, clock, clock);
    var b := Bytes(root.disk.files.Get(s));
    AppendNothing(c, before, rows);
    if * {
      return None;
    }
    OpenKeepsSound(c, root.disk, s);
    root.disk := WithFile(root.disk, s, Opened(root.disk.files.Get(s), root.disk.clock), root.disk.clock + 1);
    OpenedBytes(before, clock);
    ghost var (f, opened_) := (root.disk.files.Get(s).value, root.disk);
    var text := Appended(c, tail, rows);
    var written := WriteAll(root, s, rows, text);
    WroteSome(before, opened_, root.disk, s, text, written, clock);
    ghost var mid := root.disk.files.Get(s).value;
    AppendProgress(c, before, f, rows, written, mid, mid, clock, root.disk.clock, false);
    if written < |text| {
      return None;
    }
    var synced := Fsync(root, s);
    AppendProgress(c, before, f, rows, written, mid, root.disk.files.Get(s).value, clock, root.disk.clock, synced);
    AppendFinished(c, before, f, rows, mid, root.disk.files.Get(s).value, clock, root.disk.clock);
    if synced {
      size := Some(if tail != NoTail && !(rows != [] || tail == Complete) then prefix else |b| + |text|);
    } else {
      size := None;
    }
  }

  lemma OpenedBytes(before: Option<File>, clock: nat)
    ensures Opened(before, clock).bytes == Bytes(before)
  {
  }

  // Write as much of the text as the process lives to write.
  method WriteAll(root: Root, s: Stream, ghost rows: seq<Json>, text: string) returns (written: nat)
    requires root.Ok() && Accepted(root.codec, rows) && root.disk.files.Get(s).Some?
    requires text == Appended(root.codec, TailOf(root.codec, root.disk.files.Get(s).value.bytes), rows)
    modifies root
    ensures root.Ok() && written <= |text|
    ensures written == 0 ==> root.disk == old(root.disk)
    ensures root.disk.files.Get(s).Some?
    ensures written > 0 ==> Wrote(old(root.disk), root.disk, s, text[..written])
  {
    hide Rows, PrefixEnd, CutSafe, Sound, Appended, Wrote, Grown, WithFile, TailOf;
    ghost var disk := root.disk;
    written := 0;
    while written < |text|
      invariant written <= |text|
      invariant root.disk.files.Get(s).Some?
      invariant written == 0 ==> root.disk == disk
      invariant written > 0 ==> Wrote(disk, root.disk, s, text[..written])
      invariant root.Ok()
    {
      if * {
        return;
      }
      var n :| 1 <= n <= |text| - written;
      WroteMore(disk, root.disk, s, text, written, n);
      var file := root.disk.files.Get(s).value;
      root.disk := WithFile(root.disk, s, Grown(file, text[written..written + n], root.disk.clock), root.disk.clock + 1);
      written := written + n;
      WroteIsSound(root.codec, disk, root.disk, s, rows, written);
    }
  }

  lemma WroteMore(before: Disk, after: Disk, s: Stream, text: string, written: nat, n: nat)
    requires written + n <= |text| && before.files.Get(s).Some? && after.files.Get(s).Some?
    requires if written == 0 then after == before else Wrote(before, after, s, text[..written])
    ensures var more := text[written..written + n];
            Wrote(before, WithFile(after, s, Grown(after.files.Get(s).value, more, after.clock), after.clock + 1), s, text[..written + n])
  {
    var f := before.files.Get(s).value;
    assert text[..written] + text[written..written + n] == text[..written + n];
    assert f.bytes + text[..written] + text[written..written + n] == f.bytes + (text[..written] + text[written..written + n]);
  }

  lemma WroteIsSound(c: Codec, before: Disk, after: Disk, s: Stream, rows: seq<Json>, n: nat)
    requires CodecOk(c) && Sound(c, before) && Accepted(c, rows) && before.files.Get(s).Some?
    requires n <= |Appended(c, TailOf(c, before.files.Get(s).value.bytes), rows)|
    requires Wrote(before, after, s, Appended(c, TailOf(c, before.files.Get(s).value.bytes), rows)[..n])
    ensures Sound(c, after) && after.files.Get(s).Some?
  {
    hide Sound, Appended, TailOf;
    AppendKeepsSound(c, before, s, rows, n, after.files.Get(s).value.stamp, after.clock);
  }

  ghost predicate Wrote(before: Disk, after: Disk, s: Stream, text: string) {
    && before.files.Get(s).Some? && after.files.Get(s).Some?
    && var stamp := after.files.Get(s).value.stamp;
       before.clock <= stamp < after.clock
       && after == WithFile(before, s, Grown(before.files.Get(s).value, text, stamp), after.clock)
  }

  // Make the file's bytes durable, then its name.
  method Fsync(root: Root, s: Stream) returns (synced: bool)
    requires root.Ok() && root.disk.files.Get(s).Some?
    modifies root
    ensures root.Ok() && root.disk.files.Get(s).Some?
    ensures root.disk == WithFile(old(root.disk), s, root.disk.files.Get(s).value, old(root.disk.clock))
    ensures Synced(old(root.disk.files.Get(s).value), root.disk.files.Get(s).value)
    ensures synced ==> IsDurable(root.disk.files.Get(s))
  {
    assert FileSound(root.codec, root.disk.files.Get(s).value, root.disk.clock);
    hide Sound;
    if * {
      return false;
    }
    var file := root.disk.files.Get(s).value;
    FsyncKeepsSound(root.codec, root.disk, s, file.named);
    root.disk := WithFile(root.disk, s, file.(durable := |file.bytes|, syncStamp := file.stamp), root.disk.clock);
    if * {
      return false;
    }
    FsyncKeepsSound(root.codec, root.disk, s, true);
    root.disk := WithFile(root.disk, s, file.(durable := |file.bytes|, syncStamp := file.stamp, named := true), root.disk.clock);
    synced := true;
  }

  lemma AppendNothing(c: Codec, f: Option<File>, rows: seq<Json>)
    ensures Appends(c, f, f, rows, false)
  {
    assert Rows(c, Bytes(f)) == Rows(c, Bytes(f)) + rows[..0];
  }

  lemma AppendedSome(c: Codec, before: Option<File>, f: File, rows: seq<Json>, n: nat, after: File, all: bool)
    requires CodecOk(c) && Accepted(c, rows)
    requires f.bytes == Bytes(before) && (before.Some? ==> f == before.value)
    requires n <= |Appended(c, TailOf(c, f.bytes), rows)|
    requires after.bytes == f.bytes + Appended(c, TailOf(c, f.bytes), rows)[..n]
    requires after.ino == f.ino && f.durable <= after.durable && (f.named ==> after.named)
    requires all ==> n == |Appended(c, TailOf(c, f.bytes), rows)|
    ensures Appends(c, before, Some(after), rows, all)
  {
    hide Rows, TailOf, Appended;
    AppendCut(c, f.bytes, rows, n);
    var k := AppendShown(c, TailOf(c, f.bytes), rows, n);
    assert rows[..|rows|] == rows;
  }

  /******* The whole batch *******/

  // A settled stream: its rows are written, nothing of it is left to sync, its entry may be committed.
  ghost predicate Settled(c: Codec, l: Live, before: Option<File>, after: Option<File>, rows: seq<Json>, touched: bool) {
    && Appends(c, before, after, rows, true)
    && CommitReady(c, l, Known(c, after), after)
    && (touched ==> IsDurable(after))
  }

  // How far one stream got: what `persisted` rows of it promise, and what a finished call adds.
  ghost predicate Reached(c: Codec, before: Option<File>, after: Option<File>, rows: seq<Json>, persisted: nat, done: bool) {
    && Appends(c, before, after, rows, done || persisted > 0)
    && (persisted > 0 ==> persisted == |rows| && IsDurable(after))
  }

  method SyncStream(root: Root, index: RecordIndex, s: Stream, rows: seq<Json>, duplicates: nat)
    returns (done: bool, touched: bool)
    requires index.root == root && root.Ok() && Accepted(root.codec, rows)
    requires index.OpenOn(s)
    modifies root, index`entries
    ensures root.Ok() && old(root.disk.clock) <= root.disk.clock
    ensures root.disk == old(root.disk).(files := old(root.disk.files).Set(s, root.disk.files.Get(s)), clock := root.disk.clock)
    ensures Appends(root.codec, old(root.disk.files.Get(s)), root.disk.files.Get(s), rows, done)
    ensures Evolved(old(root.disk.files.Get(s)), root.disk.files.Get(s), old(root.disk.clock), root.disk.clock)
    ensures forall t :: t != s ==> index.entries.Get(t) == old(index.entries.Get(t))
    ensures done ==>
              Settled(root.codec, index.entries.Get(s), old(root.disk.files.Get(s)), root.disk.files.Get(s), rows,
                      rows != [] || duplicates > 0)
    ensures Reached(root.codec, old(root.disk.files.Get(s)), root.disk.files.Get(s), rows, if done then |rows| else 0, done)
    ensures Reached(root.codec, old(root.disk.files.Get(s)), root.disk.files.Get(s), rows, if done then |rows| else 0, false)
  {
    hide Rows, Ids, PrefixEnd, Sound, Appended, LastLine;
    var live := index.entries.Get(s);
    ghost var before := root.disk.files.Get(s);
    if rows == [] && duplicates == 0 && live.entry.size == live.durable && live.entry.tail != Complete {
      AppendNothing(root.codec, before, rows);
      assert Rows(root.codec, Bytes(before)) + rows == Rows(root.codec, Bytes(before));
      return true, false;
    }
    touched := true;
    var size := AppendStream(root, s, rows, live.entry.size, live.entry.tail);
    done := size.Some?;
    if done {
      index.entries := index.entries.Set(s, live.(entry := live.entry.(size := size.value)));
    }
  }

  const NOTHING: PerStream<nat> := PerStream(0, 0, 0)

  // One more stream has been written, and no stream twice.
  lemma OneMoreEvolved(d: Disk, before: Disk, after: Disk, s: Stream)
    requires AllEvolved(d, before) && d.clock <= before.clock <= after.clock && before.files.Get(s) == d.files.Get(s)
    requires after.files == before.files.Set(s, after.files.Get(s))
    requires Evolved(before.files.Get(s), after.files.Get(s), before.clock, after.clock)
    ensures AllEvolved(d, after)
  {
    hide Evolved;
    forall t: Stream ensures Evolved(d.files.Get(t), after.files.Get(t), d.clock, after.clock) {
      if t == s {
        EvolvedLater(d.files.Get(t), after.files.Get(t), d.clock, before.clock, after.clock, after.clock);
      } else {
        EvolvedLater(d.files.Get(t), after.files.Get(t), d.clock, d.clock, before.clock, after.clock);
      }
    }
  }

  method SyncPending(root: Root, index: RecordIndex, pending: PerStream<seq<Json>>, duplicates: PerStream<nat>)
    returns (done: bool, persisted: PerStream<nat>, touched: seq<Stream>)
    requires index.root == root && root.Ok()
    requires forall s: Stream :: index.OpenOn(s) && Accepted(root.codec, pending.Get(s))
    modifies root, index`entries
    ensures root.Ok() && old(root.disk.clock) <= root.disk.clock
    ensures root.disk == old(root.disk).(files := root.disk.files, clock := root.disk.clock)
    ensures AllEvolved(old(root.disk), root.disk)
    ensures forall s: Stream ::
              Reached(root.codec, old(root.disk.files.Get(s)), root.disk.files.Get(s), pending.Get(s), persisted.Get(s), done)
    ensures done ==> forall s: Stream ::
              Settled(root.codec, index.entries.Get(s), old(root.disk.files.Get(s)), root.disk.files.Get(s), pending.Get(s),
                      pending.Get(s) != [] || duplicates.Get(s) > 0)
  {
    hide Rows, Ids, PrefixEnd, Sound, LastLine, CommitReady, LiveSound, Reached, Settled, Accepted, Appends, Known, IsDurable, Bytes,
      Evolved, AllEvolved;
    persisted, touched := NOTHING, [];
    ghost var d0 := root.disk;
    NothingEvolved(d0);
    forall s: Stream ensures Reached(root.codec, root.disk.files.Get(s), root.disk.files.Get(s), pending.Get(s), 0, false) {
      NothingReached(root.codec, root.disk.files.Get(s), pending.Get(s));
    }
    var t;
    done, t := SyncStream(root, index, Event, pending.Get(Event), duplicates.Get(Event));
    OneMoreEvolved(d0, d0, root.disk, Event);
    ghost var d1 := root.disk;
    if !done {
      return;
    }
    persisted, touched := persisted.(event := |pending.event|), if t then touched + [Event] else touched;
    var more;
    done, persisted, more := SyncRest(root, index, pending, duplicates, persisted);
    touched := touched + more;
    RestEvolved(d0, d1, root.disk);
  }

  // The streams after the first.
  method SyncRest(root: Root, index: RecordIndex, pending: PerStream<seq<Json>>, duplicates: PerStream<nat>, before: PerStream<nat>)
    returns (done: bool, persisted: PerStream<nat>, touched: seq<Stream>)
    requires index.root == root && root.Ok()
    requires forall s: Stream :: s != Event ==> index.OpenOn(s) && Accepted(root.codec, pending.Get(s))
    modifies root, index`entries
    ensures root.Ok() && old(root.disk.clock) <= root.disk.clock
    ensures root.disk == old(root.disk).(files := root.disk.files, clock := root.disk.clock)
    ensures root.disk.files.event == old(root.disk.files.event) && index.entries.event == old(index.entries.event)
    ensures persisted.event == before.event && AllEvolved(old(root.disk), root.disk)
    ensures forall s: Stream :: s != Event ==>
              Reached(root.codec, old(root.disk.files.Get(s)), root.disk.files.Get(s), pending.Get(s), persisted.Get(s), done)
    ensures done ==> forall s: Stream :: s != Event ==>
              Settled(root.codec, index.entries.Get(s), old(root.disk.files.Get(s)), root.disk.files.Get(s), pending.Get(s),
                      pending.Get(s) != [] || duplicates.Get(s) > 0)
  {
    hide Rows, Ids, PrefixEnd, Sound, LastLine, CommitReady, LiveSound, Reached, Settled, Accepted, Appends, Known, IsDurable, Bytes,
      Evolved, AllEvolved;
    persisted, touched := NOTHING.(event := before.event), [];
    ghost var d0 := root.disk;
    NothingEvolved(d0);
    NothingReached(root.codec, root.disk.files.metric, pending.metric);
    NothingReached(root.codec, root.disk.files.outcome, pending.outcome);
    var t;
    done, t := SyncStream(root, index, Metric, pending.Get(Metric), duplicates.Get(Metric));
    OneMoreEvolved(d0, d0, root.disk, Metric);
    ghost var d1 := root.disk;
    assert root.disk.files.event == d0.files.event && index.entries.Get(Event) == old(index.entries.Get(Event));
    if !done {
      return;
    }
    persisted, touched := persisted.(metric := |pending.metric|), if t then touched + [Metric] else touched;
    done, t := SyncStream(root, index, Outcome, pending.Get(Outcome), duplicates.Get(Outcome));
    OneMoreEvolved(d0, d1, root.disk, Outcome);
    assert root.disk.files.Get(Event) == d1.files.Get(Event) && index.entries.Get(Event) == old(index.entries.Get(Event));
    if done {
      persisted, touched := persisted.(outcome := |pending.outcome|), if t then touched + [Outcome] else touched;
    }
  }

  lemma RestEvolved(d: Disk, before: Disk, after: Disk)
    requires AllEvolved(d, before) && AllEvolved(before, after) && d.clock <= before.clock <= after.clock
    requires after.files.event == before.files.event && before.files.metric == d.files.metric && before.files.outcome == d.files.outcome
    ensures AllEvolved(d, after)
  {
    hide Evolved;
    EvolvedLater(d.files.Get(Event), after.files.Get(Event), d.clock, d.clock, before.clock, after.clock);
    EvolvedLater(d.files.Get(Metric), after.files.Get(Metric), d.clock, before.clock, after.clock, after.clock);
    EvolvedLater(d.files.Get(Outcome), after.files.Get(Outcome), d.clock, before.clock, after.clock, after.clock);
    assert Evolved(d.files.Get(Event), before.files.Get(Event), d.clock, before.clock);
  }

  lemma NothingEvolved(d: Disk)
    ensures AllEvolved(d, d)
  {
  }

  lemma NothingReached(c: Codec, f: Option<File>, rows: seq<Json>)
    ensures Reached(c, f, f, rows, 0, false)
  {
    AppendNothing(c, f, rows);
  }

  // The ids of the appended rows join the cache only once the rows are durable.
  method AddIds(index: RecordIndex, s: Stream, rows: seq<Json>)
    requires index.db.Some? && (forall r :: r in rows ==> index.root.codec.id(r) != [])
    modifies index`db
    ensures index.db.Some? && index.db.value.meta == old(index.db.value.meta)
    ensures index.db.value.ids.Get(s) == old(index.db.value.ids.Get(s)) + Ids(index.root.codec, rows)
    ensures forall t :: t != s ==> index.db.value.ids.Get(t) == old(index.db.value.ids.Get(t))
  {
    var i := 0;
    while i < |rows|
      invariant 0 <= i <= |rows|
      invariant index.db.Some? && index.db.value.meta == old(index.db.value.meta)
      invariant index.db.value.ids.Get(s) + Ids(index.root.codec, rows[i..])
             == old(index.db.value.ids.Get(s)) + Ids(index.root.codec, rows)
      invariant forall t :: t != s ==> index.db.value.ids.Get(t) == old(index.db.value.ids.Get(t))
    {
      assert rows[i] in rows && rows[i..][1..] == rows[i + 1..];
      index.Add(s, index.root.codec.id(rows[i]));
      i := i + 1;
    }
  }

  method AddAllIds(index: RecordIndex, pending: PerStream<seq<Json>>)
    requires index.db.Some?
    requires forall s: Stream :: forall r :: r in pending.Get(s) ==> index.root.codec.id(r) != []
    modifies index`db
    ensures index.db.Some?
    ensures forall s: Stream ::
              index.db.value.ids.Get(s) == old(index.db.value.ids.Get(s)) + Ids(index.root.codec, pending.Get(s))
  {
    hide Ids;
    AddIds(index, Event, pending.Get(Event));
    AddIds(index, Metric, pending.Get(Metric));
    AddIds(index, Outcome, pending.Get(Outcome));
  }

  // Commit the database, then publish its receipt; a failure in between leaves it untrusted.
  method WriteCheckpoint(root: Root, index: RecordIndex) returns (done: bool)
    requires index.root == root && root.Ok() && index.db.Some?
    requires forall s: Stream ::
               CommitReady(root.codec, index.entries.Get(s), index.db.value.ids.Get(s), root.disk.files.Get(s))
    modifies root, index
    ensures root.Ok() && SameStreams(old(root.disk), root.disk)
    ensures index.entries == old(index.entries)
    ensures done ==> Trusted(root.disk)
  {
    hide CommitReady, CacheSound, FileSound;
    if * {
      return false;
    }
    var receipt := index.Commit();
    if * {
      return false;
    }
    root.disk := root.disk.(receipt := Some(receipt));
    done := true;
  }

  // Catch the ledger up with the event stream unless it already describes that very prefix.
  method RefreshLedger(root: Root, size: nat) returns (done: bool)
    requires root.Ok() && size == PrefixEnd(Bytes(root.disk.files.event))
    modifies root
    ensures root.Ok()
    ensures root.disk == old(root.disk).(ledger := root.disk.ledger)
    ensures !done ==> root.disk == old(root.disk)
    ensures done ==>
              root.disk.ledger == Some(Replayed(root.codec, root.reducer, old(root.disk.ledger), Bytes(root.disk.files.event), false)) &&
              root.disk.ledger.value.offset == size
  {
    var b := Bytes(root.disk.files.event);
    if * {
      return false;
    }
    if root.disk.ledger.Some? && Resumable(root.disk.ledger.value, b) && root.disk.ledger.value.offset == size {
      CurrentLedger(root.codec, root.reducer, root.disk.ledger.value, b);
      return true;
    }
    hide Sound, Replayed, PrefixEnd, TailFingerprint;
    assert root.disk.ledger.Some? ==> root.disk.ledger.value.hash != Unterminated by {
      LedgerHash(root.codec, root.disk);
    }
    var l := ReplayLedger(root.codec, root.reducer, b, root.disk.ledger, false);
    LedgerKeepsSound(root.codec, root.disk, l);
    root.disk := root.disk.(ledger := Some(l));
    done := true;
  }

  lemma LedgerHash(c: Codec, d: Disk)
    requires Sound(c, d)
    ensures d.ledger.Some? ==> d.ledger.value.hash != Unterminated
  {
  }

  lemma LedgerKeepsSound(c: Codec, d: Disk, l: Ledger)
    requires Sound(c, d) && l.hash != Unterminated
    ensures Sound(c, d.(ledger := Some(l)))
  {
  }

  // Replaying a ledger that is already current changes nothing.
  lemma CurrentLedger(c: Codec, r: Reducer, l: Ledger, b: string)
    requires CodecOk(c) && Resumable(l, b) && l.offset == PrefixEnd(b)
    ensures Replayed(c, r, Some(l), b, false) == l
  {
    hide Rows, PrefixEnd, LastLine;
    PrefixEndSpec(b);
    SuffixPrefixEnd(b, l.offset);
    assert b[l.offset..][..0] == "";
    ReplayStarts(c, r, l.state);
  }

  type Files = PerStream<Option<File>>

  // Split the batch by exact membership: the rows to append, and the ones each stream already holds.
  method Classify(root: Root, index: RecordIndex, items: seq<Item>)
    returns (pending: PerStream<seq<Json>>, duplicates: PerStream<nat>, statuses: seq<ItemStatus>)
    requires index.root == root
    requires forall s: Stream :: index.OpenOn(s)
    ensures forall s: Stream :: pending.Get(s) == Fresh(root.codec, Known(root.codec, root.disk.files.Get(s)), items, s)
    ensures |statuses| == |items|
    ensures forall i :: 0 <= i < |items| ==> statuses[i] == StatusOf(root.codec, root.disk.files, items[i])
    ensures forall i :: 0 <= i < |items| ==> Counted(items[i], statuses[i], pending, duplicates)
  {
    hide Rows, Ids, LiveSound, Fresh, Known;
    var c := root.codec;
    pending, duplicates, statuses := PerStream([], [], []), NOTHING, [];
    var i := 0;
    NoneFresh(c, root.disk.files);
    while i < |items|
      invariant 0 <= i <= |items| && |statuses| == i
      invariant forall s: Stream ::
                  pending.Get(s) == Fresh(root.codec, Known(root.codec, root.disk.files.Get(s)), items[..i], s)
      invariant forall j :: 0 <= j < i ==> statuses[j] == StatusOf(root.codec, root.disk.files, items[j])
      invariant forall j :: 0 <= j < i ==> Counted(items[j], statuses[j], pending, duplicates)
    {
      var item := items[i];
      var s := item.stream;
      var found := index.Contains(s, c.id(item.row));
      assert found <==> c.id(item.row) in Known(c, root.disk.files.Get(s)) by {
        KnownIs(c, root.disk.files.Get(s));
      }
      forall t: Stream
        ensures Fresh(c, Known(c, root.disk.files.Get(t)), items[..i + 1], t) ==
                Fresh(c, Known(c, root.disk.files.Get(t)), items[..i], t) + if t == s && !found then [item.row] else []
      {
        FreshStep(c, Known(c, root.disk.files.Get(t)), items, i, t);
      }
      if found {
        duplicates := duplicates.Set(s, duplicates.Get(s) + 1);
        statuses := statuses + [Duplicate];
      } else {
        pending := pending.Set(s, pending.Get(s) + [item.row]);
        statuses := statuses + [Persisted];
      }
      i := i + 1;
    }
    assert items[..i] == items;
  }

  lemma KnownIs(c: Codec, f: Option<File>)
    ensures Known(c, f) == Ids(c, Rows(c, Bytes(f)))
  {
  }

  lemma NoneFresh(c: Codec, files: Files)
    ensures forall s: Stream :: Fresh(c, Known(c, files.Get(s)), [], s) == []
  {
  }

  lemma FreshStep(c: Codec, known: set<Text>, items: seq<Item>, i: nat, s: Stream)
    requires i < |items|
    ensures Fresh(c, known, items[..i + 1], s) ==
            Fresh(c, known, items[..i], s) +
            if items[i].stream == s && c.id(items[i].row) !in known then [items[i].row] else []
  {
    assert items[..i + 1][..i] == items[..i];
  }

  ghost function StatusOf(c: Codec, files: Files, item: Item): ItemStatus {
    if c.id(item.row) in Known(c, files.Get(item.stream)) then Duplicate else Persisted
  }

  predicate Counted(item: Item, status: ItemStatus, pending: PerStream<seq<Json>>, duplicates: PerStream<nat>) {
    if status == Duplicate then duplicates.Get(item.stream) > 0 else item.row in pending.Get(item.stream)
  }

  // Every item's id is in its stream, and that stream is durable to its last byte.
  ghost predicate Acknowledged(c: Codec, files: Files, items: seq<Item>) {
    forall i :: 0 <= i < |items| ==>
      c.id(items[i].row) in Known(c, files.Get(items[i].stream)) && IsDurable(files.Get(items[i].stream))
  }

  // A stream whose complete lines are durable and whose tail is not a row: what it shows survives a crash.
  ghost predicate IsSettled(c: Codec, f: Option<File>) {
    && TailOf(c, Bytes(f)) != Complete
    && (PrefixEnd(Bytes(f)) > 0 ==> f.value.named && PrefixEnd(Bytes(f)) <= f.value.durable)
  }

  // What one call does to the streams, however far it gets.
  ghost predicate BatchStep(c: Codec, before: Files, after: Files, items: seq<Item>, r: Result) {
    && (forall s: Stream ::
          Appends(c, before.Get(s), after.Get(s), Fresh(c, Known(c, before.Get(s)), items, s),
                  r.Returned? || r.persisted.Get(s) > 0))
    && (r.Raised? ==> forall s: Stream :: r.persisted.Get(s) > 0 ==>
          r.persisted.Get(s) == |Fresh(c, Known(c, before.Get(s)), items, s)| && IsDurable(after.Get(s)))
    && (r.Returned? ==>
          && Acknowledged(c, after, items)
          && (forall s: Stream :: IsSettled(c, after.Get(s)))
          && |r.statuses| == |items|
          && forall i :: 0 <= i < |items| ==> r.statuses[i] == StatusOf(c, before, items[i]))
  }

  lemma NothingAppended(c: Codec, files: Files, items: seq<Item>)
    ensures BatchStep(c, files, files, items, Raised(NOTHING))
  {
    hide Appends;
    forall s: Stream ensures Appends(c, files.Get(s), files.Get(s), Fresh(c, Known(c, files.Get(s)), items, s), false) {
      AppendNothing(c, files.Get(s), Fresh(c, Known(c, files.Get(s)), items, s));
    }
  }

  lemma {:induction false} IdsContain(c: Codec, rows: seq<Json>, r: Json)
    requires r in rows && c.id(r) != []
    ensures c.id(r) in Ids(c, rows)
  {
    if rows[0] != r {
      IdsContain(c, rows[1..], r);
    }
  }

  lemma KnownAfter(c: Codec, before: Option<File>, after: Option<File>, rows: seq<Json>)
    requires Appends(c, before, after, rows, true)
    ensures Known(c, after) == Known(c, before) + Ids(c, rows)
  {
    hide Rows, Ids;
    IdsAppend(c, Rows(c, Bytes(before)), rows);
  }

  lemma BatchAcknowledged(c: Codec, before: Files, after: Files, items: seq<Item>,
                          pending: PerStream<seq<Json>>, duplicates: PerStream<nat>, statuses: seq<ItemStatus>)
    requires ValidBatch(c, items) && |statuses| == |items|
    requires forall i :: 0 <= i < |items| ==>
               statuses[i] == StatusOf(c, before, items[i]) && Counted(items[i], statuses[i], pending, duplicates)
    requires forall s: Stream ::
               Appends(c, before.Get(s), after.Get(s), pending.Get(s), true) &&
               (pending.Get(s) != [] || duplicates.Get(s) > 0 ==> IsDurable(after.Get(s)))
    ensures Acknowledged(c, after, items)
  {
    hide Appends, Known, Ids;
    forall i | 0 <= i < |items|
      ensures c.id(items[i].row) in Known(c, after.Get(items[i].stream)) && IsDurable(after.Get(items[i].stream))
    {
      var s := items[i].stream;
      KnownAfter(c, before.Get(s), after.Get(s), pending.Get(s));
      if statuses[i] == Persisted {
        IdsContain(c, pending.Get(s), items[i].row);
      }
    }
  }

  // What one call of `write_batch` does to the state root.
  ghost predicate CallStep(c: Codec, r: Reducer, before: Disk, after: Disk, items: seq<Item>, refresh: bool, result: Result) {
    && before.clock <= after.clock && CacheMoved(before, after) && AllEvolved(before, after)
    && BatchStep(c, before.files, after.files, items, result)
    && (result.Returned? && result.status != CheckpointFailed ==> Trusted(after))
    && (if refresh && result.Returned? && result.status == Ok
        then LedgerCaughtUp(c, r, before.ledger, after)
        else after.ledger == before.ledger)
  }

  // What one call of `settle_streams` does: no row appears or disappears, and if it gets to the end
  // every row is durable.
  ghost predicate SettleStep(c: Codec, before: Disk, after: Disk, done: bool) {
    && before.clock <= after.clock && after.ledger == before.ledger && CacheMoved(before, after) && AllEvolved(before, after)
    && (forall s: Stream ::
          && Appends(c, before.files.Get(s), after.files.Get(s), [], true)
          && (done ==> IsSettled(c, after.files.Get(s))))
  }

  method WriteBatch(root: Root, items: seq<Item>, refresh: bool) returns (r: Result)
    requires root.Ok() && ValidBatch(root.codec, items)
    modifies root
    ensures root.Ok()
    ensures CallStep(root.codec, root.reducer, old(root.disk), root.disk, items, refresh, r)
  {
    hide Rows, Ids, PrefixEnd, Sound, CommitReady, Appends, Known, Fresh, Replayed, LiveSound, IsSettled, ValidKeys;
    var c := root.codec;
    ghost var before := root.disk.files;
    NothingAppended(c, before, items);
    var index := new RecordIndex(root);
    var ready := index.Open();
    if !ready {
      index.Close();
      return Raised(NOTHING);
    }
    var pending, duplicates, statuses := Classify(root, index, items);
    forall s: Stream ensures Accepted(c, pending.Get(s)) {
      FreshAccepted(c, Known(c, before.Get(s)), items, s);
    }
    assert index.OpenOn(Event);
    forall s: Stream ensures index.db.value.ids.Get(s) == Known(c, before.Get(s)) {
      assert index.OpenOn(s);
      OpenIds(c, index.entries.Get(s), index.db.value.ids.Get(s), before.Get(s));
    }
    var done, persisted, _ := SyncPending(root, index, pending, duplicates);
    if !done {
      index.Close();
      return Raised(persisted);
    }
    BatchAcknowledged(c, before, root.disk.files, items, pending, duplicates, statuses);
    forall s: Stream ensures forall r :: r in pending.Get(s) ==> c.id(r) != [] {
      FreshMembers(c, Known(c, before.Get(s)), items, s);
    }
    forall s: Stream ensures IsSettled(c, root.disk.files.Get(s)) {
      CommitReadyIsSettled(c, index.entries.Get(s), Known(c, root.disk.files.Get(s)), root.disk.files.Get(s));
    }
    var status := FinishBatch(root, index, pending, before, refresh);
    r := Returned(status, statuses);
  }

  lemma OpenIds(c: Codec, l: Live, ids: set<Text>, f: Option<File>)
    requires LiveSound(c, l, ids, f)
    ensures ids == Known(c, f)
  {
  }

  // The ledger is the replay of the whole event stream, and says so.
  ghost predicate LedgerCaughtUp(c: Codec, r: Reducer, before: Option<Ledger>, d: Disk) {
    && d.ledger == Some(Replayed(c, r, before, Bytes(d.files.event), false))
    && d.ledger.value.offset == PrefixEnd(Bytes(d.files.event))
  }

  // Index the appended ids, checkpoint, and catch the ledger up.
  method FinishBatch(root: Root, index: RecordIndex, pending: PerStream<seq<Json>>, ghost before: Files, refresh: bool)
    returns (status: Status)
    requires index.root == root && root.Ok() && index.db.Some?
    requires forall s: Stream ::
               && (forall r :: r in pending.Get(s) ==> root.codec.id(r) != [])
               && index.db.value.ids.Get(s) == Known(root.codec, before.Get(s))
               && Appends(root.codec, before.Get(s), root.disk.files.Get(s), pending.Get(s), true)
               && CommitReady(root.codec, index.entries.Get(s), Known(root.codec, root.disk.files.Get(s)), root.disk.files.Get(s))
    modifies root, index
    ensures root.Ok() && root.disk.files == old(root.disk.files) && old(root.disk.clock) <= root.disk.clock
    ensures CacheMoved(old(root.disk), root.disk)
    ensures status != CheckpointFailed ==> Trusted(root.disk)
    ensures if refresh && status == Ok
            then LedgerCaughtUp(root.codec, root.reducer, old(root.disk.ledger), root.disk)
            else root.disk.ledger == old(root.disk.ledger)
  {
    assert index.entries.Get(Event).entry.size == PrefixEnd(Bytes(root.disk.files.Get(Event)));
    hide Rows, Ids, PrefixEnd, Sound, CommitReady, Appends, Known, Replayed;
    AddAllIds(index, pending);
    forall s: Stream ensures index.db.value.ids.Get(s) == Known(root.codec, root.disk.files.Get(s)) {
      KnownAfter(root.codec, before.Get(s), root.disk.files.Get(s), pending.Get(s));
    }
    var done := WriteCheckpoint(root, index);
    if !done {
      index.Close();
      return CheckpointFailed;
    }
    status := Ok;
    if refresh {
      done := RefreshLedger(root, index.entries.Get(Event).entry.size);
      status := if done then Ok else RefreshFailed;
    }
  }

  lemma CommitReadyIsSettled(c: Codec, l: Live, ids: set<Text>, f: Option<File>)
    requires CommitReady(c, l, ids, f)
    ensures IsSettled(c, f)
  {
  }

  // `settle_streams`: make durable what the streams already hold, appending no record.
  method SettleStreams(root: Root) returns (done: bool, status: Status, touched: seq<Stream>)
    requires root.Ok()
    modifies root
    ensures root.Ok() && SettleStep(root.codec, old(root.disk), root.disk, done)
    ensures done && touched != [] && status == Ok ==> Trusted(root.disk)
  {
    hide Rows, Ids, PrefixEnd, Sound, CommitReady, LiveSound, Appends, IsSettled, Settled, Reached, Known;
    var index := new RecordIndex(root);
    ghost var c, before := root.codec, root.disk.files;
    forall s: Stream ensures Appends(c, before.Get(s), before.Get(s), [], true) {
      AppendNoRows(c, before.Get(s), before.Get(s));
    }
    status, touched := Ok, [];
    done := index.Open();
    if !done {
      index.Close();
      return;
    }
    assert index.OpenOn(Event);
    forall s: Stream ensures index.db.value.ids.Get(s) == Known(c, before.Get(s)) {
      assert index.OpenOn(s);
      OpenIds(c, index.entries.Get(s), index.db.value.ids.Get(s), before.Get(s));
    }
    var persisted;
    done, persisted, touched := SyncPending(root, index, PerStream([], [], []), NOTHING);
    forall s: Stream
      ensures Appends(c, before.Get(s), root.disk.files.Get(s), [], true)
      ensures done ==> IsSettled(c, root.disk.files.Get(s))
      ensures done ==> CommitReady(c, index.entries.Get(s), index.db.value.ids.Get(s), root.disk.files.Get(s))
    {
      SettledStream(c, index.entries.Get(s), before.Get(s), root.disk.files.Get(s), persisted.Get(s), done);
    }
    if !done {
      index.Close();
      return;
    }
    if touched != [] {
      var committed := WriteCheckpoint(root, index);
      if !committed {
        index.Close();
        status := CheckpointFailed;
      }
    } else {
      index.Close();
    }
  }

  lemma SettledStream(c: Codec, l: Live, before: Option<File>, after: Option<File>, persisted: nat, done: bool)
    requires Reached(c, before, after, [], persisted, done)
    requires done ==> Settled(c, l, before, after, [], false)
    ensures Appends(c, before, after, [], true)
    ensures done ==> IsSettled(c, after) && CommitReady(c, l, Known(c, before), after)
  {
    hide Rows, PrefixEnd, Appends, IsSettled, CommitReady, TailOf;
    if done {
      KnownAfter(c, before, after, []);
      assert Known(c, after) == Known(c, before);
      CommitReadyIsSettled(c, l, Known(c, after), after);
    } else {
      AppendNoRows(c, before, after);
    }
  }

  lemma AppendNoRows(c: Codec, before: Option<File>, after: Option<File>)
    requires before == after || Appends(c, before, after, [], false)
    ensures Appends(c, before, after, [], true)
  {
    hide Rows;
    var none: seq<Json> := [];
    assert none[..0] == none;
    assert Rows(c, Bytes(before)) + none == Rows(c, Bytes(before));
    if before != after {
      var k :| 0 <= k <= |none| && Rows(c, Bytes(after)) == Rows(c, Bytes(before)) + none[..k];
    }
  }
}
