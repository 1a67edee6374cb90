/**
 Whole runs of the writer. A run interleaves calls that may be killed anywhere, crashes that lose what
 was not fsynced, appends and replacements by other writers, and a lost or overwritten cache. Over every
 such run the cache stays honest, a record is never appended twice, an acknowledged record is never
 lost, and a refreshed ledger is the full replay of the event stream.
 */
module WriterRuns {
  import opened Wrappers
  import opened Json
  import opened Jsonl
  import opened Replay
  import opened StateRoot
  import opened RecordIndex
  import opened RecordBatch

  // `ledger.json` is replaced, and the cache files are unlinked, without syncing the directory, so a crash
  // may bring back any ledger, receipt or database that was ever there.
  datatype World = World(disk: Disk, ledgers: set<Ledger>, receipts: set<nat>, databases: set<Database>)

  datatype Step =
    | Call(items: seq<Item>, refresh: bool, result: Result)
    | Settle(done: bool)
    | Crash
    | Foreign(stream: Stream)
    | Replace(stream: Stream)
    | Disturb

  const FRESH_WORLD := World(EMPTY_DISK, {}, {}, {})

  /******* The steps *******/

  // A crash keeps the durable part of a file and any stretch after it. The image it leaves carries a
  // signature the file had when it held those bytes, or one never used before.
  ghost predicate CrashedFile(before: Option<File>, after: Option<File>, clock: nat, clock': nat) {
    match before
    case None => after.None?
    case Some(f) =>
      if after.None? then !f.named
      else
        var g := after.value;
        && f.durable <= |g.bytes| <= |f.bytes| && g.bytes == f.bytes[..|g.bytes|]
        && g == File(f.ino, g.bytes, g.stamp, |g.bytes|, g.stamp, true)
        && ((g.stamp == f.stamp && g.bytes == f.bytes)
            || (g.stamp == f.syncStamp && |g.bytes| == f.durable)
            || clock <= g.stamp < clock')
  }

  // Another writer appended under the lock, leaving lines a cut of which shows no row that was not shown.
  ghost predicate ForeignFile(c: Codec, before: Option<File>, after: Option<File>, clock: nat, clock': nat) {
    after.Some? &&
    match before
    case None => ReplacedFile(c, after, clock, clock')
    case Some(f) =>
      exists text: string, stamp: nat :: clock <= stamp < clock' &&
        after.value == Grown(f, text, stamp) && CutSafe(c, after.value.bytes, f.durable)
  }

  ghost predicate ReplacedFile(c: Codec, after: Option<File>, clock: nat, clock': nat) {
    after.Some? ==> clock <= after.value.ino && FileSound(c, after.value, clock')
  }

  // The cache files may be lost, come back as they ever were, or be written by anything that moves the
  // database to a signature no receipt ever named; a journal may come and go.
  predicate CacheDisturbed(w: World, after: Disk) {
    && (after.receipt.Some? ==> after.receipt.value in w.receipts)
    && (after.database.Some? ==>
          after.database.value in w.databases ||
          (after.database.value.stamp !in w.receipts && after.database.value.stamp < after.clock))
  }

  ghost predicate OnlyStream(before: Disk, after: Disk, s: Stream) {
    after == before.(files := before.files.Set(s, after.files.Get(s)), clock := after.clock) && before.clock <= after.clock
  }

  ghost predicate Next(c: Codec, r: Reducer, w: World, w': World, step: Step) {
    var (before, after) := (w.disk, w'.disk);
    && w'.ledgers == w.ledgers + (if after.ledger.Some? then {after.ledger.value} else {})
    && w'.receipts == w.receipts + (if after.receipt.Some? then {after.receipt.value} else {})
    && w'.databases == w.databases + (if after.database.Some? then {after.database.value} else {})
    && match step
       case Call(items, refresh, result) =>
         ValidBatch(c, items) && CallStep(c, r, before, after, items, refresh, result) && Sound(c, after)
       case Settle(done) => SettleStep(c, before, after, done) && Sound(c, after)
       case Crash =>
         && before.clock <= after.clock
         && (forall s: Stream :: CrashedFile(before.files.Get(s), after.files.Get(s), before.clock, after.clock))
         && CacheDisturbed(w, after)
         && (after.ledger.Some? ==> after.ledger.value in w.ledgers)
       case Foreign(s) =>
         OnlyStream(before, after, s) && ForeignFile(c, before.files.Get(s), after.files.Get(s), before.clock, after.clock)
       case Replace(s) =>
         OnlyStream(before, after, s) && ReplacedFile(c, after.files.Get(s), before.clock, after.clock)
       case Disturb =>
         && before.clock <= after.clock && CacheDisturbed(w, after)
         && after.files == before.files && after.ledger == before.ledger
  }

  ghost predicate Run(c: Codec, r: Reducer, ws: seq<World>, steps: seq<Step>) {
    && |ws| == |steps| + 1
    && WorldSound(c, ws[0])
    && forall i {:trigger steps[i]} :: 0 <= i < |steps| ==> Next(c, r, ws[i], ws[i + 1], steps[i])
  }

  // No receipt and database that ever were there, together or not, could belie the streams as they are now.
  ghost predicate PairsSound(c: Codec, w: World) {
    && (forall r :: r in w.receipts ==> r < w.disk.clock)
    && (forall b :: b in w.databases ==> b.stamp < w.disk.clock)
    && (w.disk.receipt.Some? ==> w.disk.receipt.value in w.receipts)
    && (w.disk.database.Some? ==> w.disk.database.value in w.databases)
    && forall b :: b in w.databases && b.stamp in w.receipts ==> CacheSound(c, b.cache, w.disk.files, w.disk.clock)
  }

  ghost predicate WorldSound(c: Codec, w: World) {
    && Sound(c, w.disk) && PairsSound(c, w)
    && (w.disk.ledger.Some? ==> w.disk.ledger.value in w.ledgers)
    && forall l :: l in w.ledgers ==> l.hash != Unterminated
  }

  /******* Every world is sound *******/

  ghost predicate FilesSound(c: Codec, d: Disk) {
    forall s: Stream :: d.files.Get(s).Some? ==> FileSound(c, d.files.Get(s).value, d.clock)
  }

  // A cache that told the truth before the step tells it after.
  ghost predicate CachesLast(c: Codec, d: Disk, d': Disk) {
    forall cache :: CacheSound(c, cache, d.files, d.clock) ==> CacheSound(c, cache, d'.files, d'.clock)
  }

  lemma CrashKeepsEntry(c: Codec, e: Entry, ids: set<Text>, f: Option<File>, g: Option<File>, clock: nat, clock': nat)
    requires EntrySound(c, e, ids, f, clock) && CrashedFile(f, g, clock, clock') && clock <= clock'
    requires f.Some? ==> FileSound(c, f.value, clock)
    ensures EntrySound(c, e, ids, g, clock')
  {
    hide Rows, Ids, PrefixEnd, TailOf, LastLine, CutSafe;
    if f.Some? && g.Some? && e.observed.Some? && f.value.ino == e.observed.value.ino {
      var b, k := f.value.bytes, |g.value.bytes|;
      assert b[..k][..e.size] == b[..e.size];
      assert g.value.bytes[..k] == g.value.bytes;
      assert NamesPrefix(c, e, ids, g.value);
    }
  }

  lemma CrashKeepsFile(c: Codec, f: Option<File>, g: Option<File>, clock: nat, clock': nat)
    requires CrashedFile(f, g, clock, clock') && clock <= clock'
    requires f.Some? ==> FileSound(c, f.value, clock)
    ensures g.Some? ==> FileSound(c, g.value, clock')
  {
    hide Rows;
    if g.Some? {
      assert g.value.bytes[..|g.value.bytes|] == g.value.bytes;
    }
  }

  lemma CrashKeepsFiles(c: Codec, d: Disk, d': Disk)
    requires FilesSound(c, d) && d.clock <= d'.clock
    requires forall s: Stream :: CrashedFile(d.files.Get(s), d'.files.Get(s), d.clock, d'.clock)
    ensures FilesSound(c, d') && CachesLast(c, d, d')
  {
    hide CrashedFile, FileSound, EntrySound;
    forall s: Stream | d'.files.Get(s).Some? ensures FileSound(c, d'.files.Get(s).value, d'.clock) {
      CrashKeepsFile(c, d.files.Get(s), d'.files.Get(s), d.clock, d'.clock);
    }
    forall cache, s: Stream | CacheSound(c, cache, d.files, d.clock) && cache.meta.Get(s).Some?
      ensures EntrySound(c, cache.meta.Get(s).value, cache.ids.Get(s), d'.files.Get(s), d'.clock)
    {
      CrashKeepsEntry(c, cache.meta.Get(s).value, cache.ids.Get(s), d.files.Get(s), d'.files.Get(s), d.clock, d'.clock);
    }
  }

  // The writer's own steps; its calls leave the streams sound by their contracts.
  lemma EvolvedKeepsFiles(c: Codec, d: Disk, d': Disk)
    requires d.clock <= d'.clock && AllEvolved(d, d') && FilesSound(c, d')
    ensures CachesLast(c, d, d')
  {
    hide Evolved, FileSound, CacheSound;
    forall cache | CacheSound(c, cache, d.files, d.clock) ensures CacheSound(c, cache, d'.files, d'.clock) {
      EvolvedKeepsCache(c, cache, d.files, d'.files, d.clock, d'.clock);
    }
  }

  lemma NewInodeKeepsEntry(c: Codec, e: Entry, ids: set<Text>, f: Option<File>, g: Option<File>, clock: nat, clock': nat)
    requires EntrySound(c, e, ids, f, clock) && clock <= clock' && (g.Some? ==> clock <= g.value.ino)
    ensures EntrySound(c, e, ids, g, clock')
  {
  }

  lemma SameKeepsEntry(c: Codec, e: Entry, ids: set<Text>, f: Option<File>, clock: nat, clock': nat)
    requires EntrySound(c, e, ids, f, clock) && clock <= clock'
    ensures EntrySound(c, e, ids, f, clock')
  {
    hide NamesPrefix, Describes;
  }

  lemma OtherFilesStay(c: Codec, d: Disk, d': Disk, s: Stream)
    requires FilesSound(c, d) && OnlyStream(d, d', s)
    requires d'.files.Get(s).Some? ==> FileSound(c, d'.files.Get(s).value, d'.clock)
    ensures FilesSound(c, d')
  {
    hide CutSafe;
  }

  // A stream under a new inode is described by no entry.
  lemma ReplaceKeepsFiles(c: Codec, d: Disk, d': Disk, s: Stream)
    requires FilesSound(c, d) && OnlyStream(d, d', s) && ReplacedFile(c, d'.files.Get(s), d.clock, d'.clock)
    ensures FilesSound(c, d') && CachesLast(c, d, d')
  {
    OtherFilesStay(c, d, d', s);
    hide EntrySound, FileSound;
    forall cache, t: Stream | CacheSound(c, cache, d.files, d.clock) && cache.meta.Get(t).Some?
      ensures EntrySound(c, cache.meta.Get(t).value, cache.ids.Get(t), d'.files.Get(t), d'.clock)
    {
      if t == s {
        NewInodeKeepsEntry(c, cache.meta.Get(t).value, cache.ids.Get(t), d.files.Get(t), d'.files.Get(t), d.clock, d'.clock);
      } else {
        SameKeepsEntry(c, cache.meta.Get(t).value, cache.ids.Get(t), d.files.Get(t), d.clock, d'.clock);
      }
    }
  }

  lemma ForeignKeepsFiles(c: Codec, d: Disk, d': Disk, s: Stream)
    requires FilesSound(c, d) && OnlyStream(d, d', s) && ForeignFile(c, d.files.Get(s), d'.files.Get(s), d.clock, d'.clock)
    ensures FilesSound(c, d') && CachesLast(c, d, d')
  {
    if d.files.Get(s).Some? {
      hide CutSafe;
      OtherFilesStay(c, d, d', s);
      hide FileSound;
      assert forall t: Stream :: t != s ==> d'.files.Get(t) == d.files.Get(t);
      EvolvedKeepsFiles(c, d, d');
    } else {
      ReplaceKeepsFiles(c, d, d', s);
    }
  }

  lemma StepKeepsFiles(c: Codec, r: Reducer, w: World, w': World, step: Step)
    requires FilesSound(c, w.disk) && Next(c, r, w, w', step)
    ensures w.disk.clock <= w'.disk.clock && FilesSound(c, w'.disk) && CachesLast(c, w.disk, w'.disk)
  {
    hide BatchStep, ValidBatch, LedgerCaughtUp, CrashedFile, ForeignFile, ReplacedFile, FileSound, CacheSound, AllEvolved, CachesLast;
    var (d, d') := (w.disk, w'.disk);
    match step
    case Call(items, refresh, result) => EvolvedKeepsFiles(c, d, d');
    case Settle(done) => EvolvedKeepsFiles(c, d, d');
    case Crash => CrashKeepsFiles(c, d, d');
    case Foreign(s) => ForeignKeepsFiles(c, d, d', s);
    case Replace(s) => ReplaceKeepsFiles(c, d, d', s);
    case Disturb => SameKeepsFiles(c, d, d');
  }

  lemma SameKeepsFiles(c: Codec, d: Disk, d': Disk)
    requires FilesSound(c, d) && d'.files == d.files && d.clock <= d'.clock
    ensures FilesSound(c, d') && CachesLast(c, d, d')
  {
    hide EntrySound, CutSafe;
    forall cache, t: Stream | CacheSound(c, cache, d.files, d.clock) && cache.meta.Get(t).Some?
      ensures EntrySound(c, cache.meta.Get(t).value, cache.ids.Get(t), d'.files.Get(t), d'.clock)
    {
      SameKeepsEntry(c, cache.meta.Get(t).value, cache.ids.Get(t), d.files.Get(t), d.clock, d'.clock);
    }
  }

  // A receipt and a database that match were both there before, or are both new.
  lemma StepKeepsPairs(c: Codec, r: Reducer, w: World, w': World, step: Step)
    requires WorldSound(c, w) && Next(c, r, w, w', step)
    requires w.disk.clock <= w'.disk.clock && CachesLast(c, w.disk, w'.disk)
    ensures PairsSound(c, w')
  {
    hide BatchStep, ValidBatch, LedgerCaughtUp, CrashedFile, ForeignFile, ReplacedFile, FileSound, CacheSound, AllEvolved, Appends, IsSettled;
    forall b | b in w'.databases && b.stamp in w'.receipts ensures CacheSound(c, b.cache, w'.disk.files, w'.disk.clock) {
      if b in w.databases && b.stamp in w.receipts {
        assert CacheSound(c, b.cache, w.disk.files, w.disk.clock);
      } else {
        assert Matched(w'.disk) && b == w'.disk.database.value && (step.Call? || step.Settle?);
      }
    }
  }

  lemma StepKeepsSound(c: Codec, r: Reducer, w: World, w': World, step: Step)
    requires WorldSound(c, w) && Next(c, r, w, w', step)
    ensures WorldSound(c, w')
  {
    StepKeepsFiles(c, r, w, w', step);
    StepKeepsPairs(c, r, w, w', step);
    hide BatchStep, ValidBatch, LedgerCaughtUp, CrashedFile, ForeignFile, ReplacedFile, FileSound, CacheSound, AllEvolved, Appends, IsSettled;
    var (d, d') := (w.disk, w'.disk);
    assert Matched(d') ==> d'.database.value in w'.databases && d'.database.value.stamp in w'.receipts;
  }

  // Whatever happened before, the next index opens on a state root that its cache does not belie.
  lemma {:induction false} RunKeepsSound(c: Codec, r: Reducer, ws: seq<World>, steps: seq<Step>, i: nat)
    requires Run(c, r, ws, steps) && i < |ws|
    ensures WorldSound(c, ws[i])
  {
    hide WorldSound, Next;
    if i > 0 {
      RunKeepsSound(c, r, ws, steps, i - 1);
      assert Next(c, r, ws[i - 1], ws[i], steps[i - 1]);
      StepKeepsSound(c, r, ws[i - 1], ws[i], steps[i - 1]);
    }
  }

  /******* A record is never appended twice *******/

  lemma {:induction false} CountNone(c: Codec, rows: seq<Json>, id: Text)
    requires forall row :: row in rows ==> c.id(row) != id
    ensures Count(c, rows, id) == 0
  {
    if rows != [] {
      CountNone(c, rows[1..], id);
    }
  }

  lemma CountPrefix(c: Codec, rows: seq<Json>, prefix: seq<Json>, id: Text)
    requires prefix <= rows
    ensures Count(c, prefix, id) <= Count(c, rows, id)
  {
    assert rows == prefix + rows[|prefix|..];
    CountAppend(c, prefix, rows[|prefix|..], id);
  }

  // The last record of a batch repeats no id of the ones before it.
  lemma LastIsNew(c: Codec, known: set<Text>, items: seq<Item>, s: Stream)
    requires ValidBatch(c, items) && items != []
    ensures ValidBatch(c, items[..|items| - 1])
    ensures Count(c, Fresh(c, known, items[..|items| - 1], s), c.id(items[|items| - 1].row)) == 0
  {
    hide Count, Fresh;
    var (init, id) := (items[..|items| - 1], c.id(items[|items| - 1].row));
    FreshMembers(c, known, init, s);
    forall row | row in Fresh(c, known, init, s) ensures c.id(row) != id {
      var i :| 0 <= i < |init| && init[i] == Item(s, row);
      assert c.id(items[i].row) != id;
    }
    CountNone(c, Fresh(c, known, init, s), id);
  }

  // A batch has at most one new row for an id, and none for an id the stream holds.
  lemma {:induction false} FreshCount(c: Codec, known: set<Text>, items: seq<Item>, s: Stream, id: Text)
    requires ValidBatch(c, items)
    ensures Count(c, Fresh(c, known, items, s), id) <= 1
    ensures id in known ==> Count(c, Fresh(c, known, items, s), id) == 0
  {
    hide ValidBatch;
    if items != [] {
      var n := |items| - 1;
      LastIsNew(c, known, items, s);
      FreshCount(c, known, items[..n], s, id);
      var last := if items[n].stream == s && c.id(items[n].row) !in known then [items[n].row] else [];
      assert Fresh(c, known, items, s) == Fresh(c, known, items[..n], s) + last;
      CountAppend(c, Fresh(c, known, items[..n], s), last, id);
      assert last != [] ==> last[1..] == [];
    }
  }

  function Shows(c: Codec, w: World, s: Stream, id: Text): nat {
    Count(c, Rows(c, Bytes(w.disk.files.Get(s))), id)
  }

  function Max(a: nat, b: nat): nat {
    if a < b then b else a
  }

  lemma AppendCount(c: Codec, before: Option<File>, after: Option<File>, rows: seq<Json>, all: bool, id: Text)
    requires Appends(c, before, after, rows, all)
    ensures Count(c, Rows(c, Bytes(before)), id) <= Count(c, Rows(c, Bytes(after)), id)
    ensures Count(c, Rows(c, Bytes(after)), id) <= Count(c, Rows(c, Bytes(before)), id) + Count(c, rows, id)
  {
    hide Rows, Count;
    var k :| 0 <= k <= |rows| && Rows(c, Bytes(after)) == Rows(c, Bytes(before)) + rows[..k];
    CountAppend(c, Rows(c, Bytes(before)), rows[..k], id);
    CountPrefix(c, rows, rows[..k], id);
  }

  lemma CallCount(c: Codec, r: Reducer, d: Disk, d': Disk, items: seq<Item>, refresh: bool, result: Result, s: Stream, id: Text)
    requires ValidBatch(c, items) && CallStep(c, r, d, d', items, refresh, result) && id != []
    ensures var (old_, new_) := (Count(c, Rows(c, Bytes(d.files.Get(s))), id), Count(c, Rows(c, Bytes(d'.files.Get(s))), id));
            old_ <= new_ <= Max(1, old_)
  {
    hide Rows, Count, Ids, Fresh, Appends, IsSettled, Acknowledged, ValidBatch, LedgerCaughtUp;
    var rows := Fresh(c, Known(c, d.files.Get(s)), items, s);
    assert Appends(c, d.files.Get(s), d'.files.Get(s), rows, result.Returned? || result.persisted.Get(s) > 0);
    AppendCount(c, d.files.Get(s), d'.files.Get(s), rows, result.Returned? || result.persisted.Get(s) > 0, id);
    FreshCount(c, Known(c, d.files.Get(s)), items, s, id);
    CountIds(c, Rows(c, Bytes(d.files.Get(s))), id);
  }

  lemma CrashCount(c: Codec, f: Option<File>, g: Option<File>, clock: nat, clock': nat, id: Text)
    requires CodecOk(c) && CrashedFile(f, g, clock, clock') && (f.Some? ==> FileSound(c, f.value, clock))
    ensures Count(c, Rows(c, Bytes(g)), id) <= Count(c, Rows(c, Bytes(f)), id)
  {
    NoRows(c);
    hide Rows;
    if g.Some? {
      CountPrefix(c, Rows(c, f.value.bytes), Rows(c, g.value.bytes), id);
    }
  }

  // Nobody but the writer adds a row with this id.
  ghost predicate OnlyWriterAdds(c: Codec, ws: seq<World>, steps: seq<Step>, s: Stream, id: Text)
    requires |ws| == |steps| + 1
  {
    forall i {:trigger steps[i]} :: 0 <= i < |steps| && (steps[i] == Foreign(s) || steps[i] == Replace(s)) ==>
      Shows(c, ws[i + 1], s, id) <= Max(1, Shows(c, ws[i], s, id))
  }

  lemma StepCount(c: Codec, r: Reducer, w: World, w': World, step: Step, s: Stream, id: Text)
    requires CodecOk(c) && WorldSound(c, w) && Next(c, r, w, w', step) && id != []
    requires step != Foreign(s) && step != Replace(s)
    ensures Shows(c, w', s, id) <= Max(1, Shows(c, w, s, id))
  {
    hide Rows, Count, CallStep, CrashedFile, ForeignFile, ReplacedFile, FileSound, CacheSound, Appends, ValidBatch;
    var (f, g) := (w.disk.files.Get(s), w'.disk.files.Get(s));
    match step
    case Call(items, refresh, result) => CallCount(c, r, w.disk, w'.disk, items, refresh, result, s, id);
    case Settle(_) =>
      AppendCount(c, f, g, [], true, id);
      CountNone(c, [], id);
    case Crash => CrashCount(c, f, g, w.disk.clock, w'.disk.clock, id);
    case _ => assert f == g;
  }

  // Over any run, however often calls are killed, crash and are retried, the writer never shows a
  // second row for an id.
  lemma {:induction false} NeverTwice(c: Codec, r: Reducer, ws: seq<World>, steps: seq<Step>, s: Stream, id: Text, i: nat)
    requires CodecOk(c) && Run(c, r, ws, steps) && OnlyWriterAdds(c, ws, steps, s, id)
    requires id != [] && i < |ws| && Shows(c, ws[0], s, id) <= 1
    ensures Shows(c, ws[i], s, id) <= 1
  {
    hide WorldSound, Next, Shows;
    if i > 0 {
      NeverTwice(c, r, ws, steps, s, id, i - 1);
      RunKeepsSound(c, r, ws, steps, i - 1);
      assert Next(c, r, ws[i - 1], ws[i], steps[i - 1]);
      if steps[i - 1] != Foreign(s) && steps[i - 1] != Replace(s) {
        StepCount(c, r, ws[i - 1], ws[i], steps[i - 1], s, id);
      }
    }
  }

  /******* An acknowledged record is never lost *******/

  // What the disk is sure to hold of a stream.
  ghost function Safe(w: World, s: Stream): string {
    var f := w.disk.files.Get(s);
    if f.Some? && f.value.named && f.value.durable <= |f.value.bytes| then f.value.bytes[..f.value.durable] else ""
  }

  lemma CrashKeepsSafe(f: File, g: Option<File>, clock: nat, clock': nat)
    requires CrashedFile(Some(f), g, clock, clock') && f.named && f.durable <= |f.bytes|
    ensures g.Some? && g.value.named && g.value.durable == |g.value.bytes| && f.bytes[..f.durable] <= g.value.bytes[..g.value.durable]
  {
  }

  lemma StepKeepsSafe(c: Codec, r: Reducer, w: World, w': World, step: Step, s: Stream)
    requires WorldSound(c, w) && WorldSound(c, w') && Next(c, r, w, w', step) && step != Replace(s)
    ensures Safe(w, s) <= Safe(w', s)
  {
    hide Rows, CutSafe, CacheSound, ValidBatch, Acknowledged, IsSettled, LedgerCaughtUp, Fresh, Known;
    var (f, g) := (w.disk.files.Get(s), w'.disk.files.Get(s));
    if f.Some? && f.value.named {
      assert FileSound(c, f.value, w.disk.clock);
      assert g.Some? ==> FileSound(c, g.value, w'.disk.clock);
      match step
      case Call(items, refresh, result) =>
        AppendKeepsSafe(c, f, g, Fresh(c, Known(c, f), items, s), result.Returned? || result.persisted.Get(s) > 0);
      case Settle(_) =>
        AppendKeepsSafe(c, f, g, [], true);
      case Crash =>
        CrashKeepsSafe(f.value, g, w.disk.clock, w'.disk.clock);
      case _ =>
    }
  }

  lemma AppendKeepsSafe(c: Codec, f: Option<File>, g: Option<File>, rows: seq<Json>, all: bool)
    requires Appends(c, f, g, rows, all) && f.Some? && f.value.named
    requires f.value.durable <= |f.value.bytes| && g.value.durable <= |g.value.bytes|
    ensures g.value.named && f.value.bytes[..f.value.durable] <= g.value.bytes[..g.value.durable]
  {
  }

  // What the disk is sure to hold only grows, crashes included, until the file itself is replaced.
  lemma {:induction false} SafeOnlyGrows(c: Codec, r: Reducer, ws: seq<World>, steps: seq<Step>, s: Stream, i: nat, j: nat)
    requires Run(c, r, ws, steps) && i <= j < |ws|
    requires forall k {:trigger steps[k]} :: i <= k < j ==> steps[k] != Replace(s)
    ensures Safe(ws[i], s) <= Safe(ws[j], s)
    decreases j
  {
    hide WorldSound, Next, Safe;
    if i < j {
      SafeOnlyGrows(c, r, ws, steps, s, i, j - 1);
      RunKeepsSound(c, r, ws, steps, j - 1);
      RunKeepsSound(c, r, ws, steps, j);
      assert Next(c, r, ws[j - 1], ws[j], steps[j - 1]);
      StepKeepsSafe(c, r, ws[j - 1], ws[j], steps[j - 1], s);
    }
  }

  // The id is in a complete line that the disk is sure to hold.
  ghost predicate Held(c: Codec, w: World, s: Stream, id: Text) {
    exists n :: 0 <= n <= |Safe(w, s)| && Closed(Safe(w, s)[..n]) && id in Ids(c, Rows(c, Safe(w, s)[..n]))
  }

  lemma AcknowledgedIsHeld(c: Codec, r: Reducer, w: World, w': World, items: seq<Item>, refresh: bool, result: Result, i: nat)
    requires CodecOk(c) && Next(c, r, w, w', Call(items, refresh, result)) && result.Returned? && i < |items|
    ensures Held(c, w', items[i].stream, c.id(items[i].row))
  {
    hide Rows, Ids, PrefixEnd, Appends, CacheSound, ValidBatch, LedgerCaughtUp, Fresh, CutSafe;
    var s := items[i].stream;
    var f := w'.disk.files.Get(s);
    assert Acknowledged(c, w'.disk.files, items) && IsSettled(c, f) && FileSound(c, f.value, w'.disk.clock);
    assert c.id(items[i].row) in Known(c, f) && IsDurable(f);
    var b := f.value.bytes;
    assert Safe(w', s) == b;
    RowsOfTail(c, b);
    PrefixEndSpec(b);
  }

  lemma HeldIsShown(c: Codec, r: Reducer, w: World, s: Stream, id: Text)
    requires CodecOk(c) && id != [] && Held(c, w, s, id)
    ensures Shows(c, w, s, id) >= 1
  {
    hide Rows, Ids, Count;
    var b := Bytes(w.disk.files.Get(s));
    var n :| 0 <= n <= |Safe(w, s)| && Closed(Safe(w, s)[..n]) && id in Ids(c, Rows(c, Safe(w, s)[..n]));
    assert Safe(w, s) <= b;
    assert b == Safe(w, s)[..n] + b[n..];
    RowsAppend(c, Safe(w, s)[..n], b[n..]);
    IdsAppend(c, Rows(c, Safe(w, s)[..n]), Rows(c, b[n..]));
    CountIds(c, Rows(c, b), id);
  }

  // Once a call has returned, each of its records is in a durable complete line for ever.
  lemma NeverLost(c: Codec, r: Reducer, ws: seq<World>, steps: seq<Step>, i: nat, k: nat, j: nat)
    requires CodecOk(c) && Run(c, r, ws, steps) && i < j < |ws|
    requires steps[i].Call? && steps[i].result.Returned? && k < |steps[i].items|
    requires forall m {:trigger steps[m]} :: i < m < j ==> steps[m] != Replace(steps[i].items[k].stream)
    ensures Held(c, ws[j], steps[i].items[k].stream, c.id(steps[i].items[k].row))
  {
    hide WorldSound, Next, Safe, Rows, Ids;
    var (s, id) := (steps[i].items[k].stream, c.id(steps[i].items[k].row));
    assert Next(c, r, ws[i], ws[i + 1], steps[i]);
    AcknowledgedIsHeld(c, r, ws[i], ws[i + 1], steps[i].items, steps[i].refresh, steps[i].result, k);
    SafeOnlyGrows(c, r, ws, steps, s, i + 1, j);
    var (a, b) := (Safe(ws[i + 1], s), Safe(ws[j], s));
    var n :| 0 <= n <= |a| && Closed(a[..n]) && id in Ids(c, Rows(c, a[..n]));
    assert b[..n] == a[..n];
  }

  // An acknowledged record is shown exactly once, at every later moment of the run.
  lemma ExactlyOnce(c: Codec, r: Reducer, ws: seq<World>, steps: seq<Step>, i: nat, k: nat, j: nat)
    requires CodecOk(c) && Run(c, r, ws, steps) && i < j < |ws|
    requires steps[i].Call? && steps[i].result.Returned? && k < |steps[i].items|
    requires forall m {:trigger steps[m]} :: i < m < j ==> steps[m] != Replace(steps[i].items[k].stream)
    requires var (s, id) := (steps[i].items[k].stream, c.id(steps[i].items[k].row));
             OnlyWriterAdds(c, ws, steps, s, id) && Shows(c, ws[0], s, id) <= 1
    ensures Shows(c, ws[j], steps[i].items[k].stream, c.id(steps[i].items[k].row)) == 1
  {
    hide WorldSound, Held, Shows, OnlyWriterAdds;
    var (s, id) := (steps[i].items[k].stream, c.id(steps[i].items[k].row));
    assert Next(c, r, ws[i], ws[i + 1], steps[i]);
    NeverLost(c, r, ws, steps, i, k, j);
    HeldIsShown(c, r, ws[j], s, id);
    NeverTwice(c, r, ws, steps, s, id, j);
  }

  /******* What a settled stream shows survives a crash *******/

  lemma SettledSurvivesCrash(c: Codec, f: Option<File>, g: Option<File>, clock: nat, clock': nat)
    requires CodecOk(c) && IsSettled(c, f) && CrashedFile(f, g, clock, clock')
    requires f.Some? ==> FileSound(c, f.value, clock)
    ensures Rows(c, Bytes(g)) == Rows(c, Bytes(f))
  {
    NoRows(c);
    hide Rows, PrefixEnd, TailOf;
    if f.Some? {
      var (b, n) := (f.value.bytes, PrefixEnd(f.value.bytes));
      RowsOfTail(c, b);
      assert b[..0] == "";
      if g.Some? {
        var k := |g.value.bytes|;
        if n > 0 {
          DurablePrefixEnd(b, k);
        } else {
          PrefixEndSpec(b);
          PrefixEndUnique(b[..k], 0);
        }
        RowsOfTail(c, b[..k]);
        assert b[..k][..n] == b[..n];
      }
    }
  }

  /******* A refreshed ledger is the full replay *******/

  // The ledger of some complete prefix of what the disk is sure to hold.
  predicate LedgerOfPrefix(c: Codec, r: Reducer, l: Ledger, b: string) {
    l.offset <= |b| && Closed(b[..l.offset]) && l == Full(c, r, b[..l.offset])
  }

  ghost predicate LedgersTrue(c: Codec, r: Reducer, w: World) {
    forall l :: l in w.ledgers ==> LedgerOfPrefix(c, r, l, Safe(w, Event))
  }

  ghost predicate DistinctEvents(c: Codec, w: World) {
    forall id :: id != [] ==> Shows(c, w, Event, id) <= 1
  }

  lemma {:induction false} ReplayableCount(c: Codec, rows: seq<Json>, id: Text)
    ensures Count(c, Replayable(rows), id) <= Count(c, rows, id)
  {
    hide ValidKeys;
    if rows != [] {
      ReplayableCount(c, rows[1..], id);
      var kept := if ValidKeys(rows[0]) then [rows[0]] else [];
      CountAppend(c, kept, Replayable(rows[1..]), id);
      assert kept != [] ==> kept[1..] == [];
    }
  }

  lemma {:induction false} DistinctIdsNeverRepeat(c: Codec, events: seq<Json>, seen: set<Text>)
    requires forall id :: id != [] ==> Count(c, events, id) + (if id in seen then 1 else 0) <= 1
    ensures NoRepeats(c, events, seen)
  {
    if events != [] {
      var e := events[0];
      forall id | id != []
        ensures Count(c, events[1..], id) + (if id in seen + IdOf(c, e) then 1 else 0) <= 1
      {
        assert Count(c, events, id) == (if c.id(e) == id then 1 else 0) + Count(c, events[1..], id);
      }
      assert c.id(e) != [] ==> Count(c, events, c.id(e)) >= 1;
      DistinctIdsNeverRepeat(c, events[1..], seen + IdOf(c, e));
    }
  }

  lemma DistinctEventsNeverRepeat(c: Codec, w: World)
    requires CodecOk(c) && DistinctEvents(c, w)
    ensures NoRepeats(c, Events(c, Bytes(w.disk.files.event)), {})
  {
    hide Rows, Count, Replayable;
    var b := Bytes(w.disk.files.event);
    RowsOfTail(c, b);
    var rows := Rows(c, b[..PrefixEnd(b)]);
    forall id: Text | id != [] ensures Count(c, Events(c, b), id) <= 1 {
      ReplayableCount(c, rows, id);
      CountPrefix(c, Rows(c, b), rows, id);
      assert Shows(c, w, Event, id) <= 1;
    }
    DistinctIdsNeverRepeat(c, Events(c, b), {});
  }

  // Catching up from the ledger of a prefix is the full replay.
  lemma CaughtUpIsFull(c: Codec, r: Reducer, before: Option<Ledger>, safe: string, b: string)
    requires CodecOk(c) && safe <= b && NoRepeats(c, Events(c, b), {})
    requires before.Some? ==> LedgerOfPrefix(c, r, before.value, safe)
    ensures Replayed(c, r, before, b, false) == Full(c, r, b)
  {
    hide Full, Events, PrefixEnd, LastLine, NoRepeats, Ids, Resumed, Resumable;
    if before.Some? {
      var o := before.value.offset;
      assert b[..o] == safe[..o];
      EventsSplit(c, b, o);
      NoRepeatsAppend(c, Events(c, b[..o]), Events(c, b[o..]), {});
      assert {} + Ids(c, Events(c, b[..o])) == Ids(c, Events(c, b[..o]));
      ResumeIsFull(c, r, b, o);
    }
  }

  // The ledger a refreshing call published is the ledger of a prefix that is already durable.
  lemma PublishedLedger(c: Codec, r: Reducer, w: World, l: Ledger)
    requires CodecOk(c) && WorldSound(c, w) && IsSettled(c, w.disk.files.event)
    requires l == Full(c, r, Bytes(w.disk.files.event))
    ensures LedgerOfPrefix(c, r, l, Safe(w, Event))
  {
    hide Rows, TailOf, CacheSound, CutSafe, Dedup, Fold, Events, LastLine, PrefixEnd;
    var f := w.disk.files.Get(Event);
    assert f == w.disk.files.event && (f.Some? ==> FileSound(c, f.value, w.disk.clock));
    var (b, safe) := (Bytes(f), Safe(w, Event));
    PrefixEndSpec(b);
    FullOfPrefix(c, r, b);
    assert safe[..l.offset] == b[..l.offset];
  }

  lemma LedgerStep(c: Codec, r: Reducer, w: World, w': World, step: Step)
    requires CodecOk(c) && WorldSound(c, w) && WorldSound(c, w') && Next(c, r, w, w', step)
    requires LedgersTrue(c, r, w) && DistinctEvents(c, w') && step != Replace(Event)
    ensures LedgersTrue(c, r, w')
    ensures step.Call? && step.refresh && step.result.Returned? && step.result.status == Ok ==>
              w'.disk.ledger == Some(Full(c, r, Bytes(w'.disk.files.event)))
  {
    hide Sound, Full, Safe, Replayed, DistinctEvents, IsSettled, CrashedFile, ForeignFile, ReplacedFile, CacheDisturbed, Appends, Acknowledged;
    StepKeepsSafe(c, r, w, w', step, Event);
    var (a, b) := (Safe(w, Event), Safe(w', Event));
    forall l | LedgerOfPrefix(c, r, l, a) ensures LedgerOfPrefix(c, r, l, b) {
      assert b[..l.offset] == a[..l.offset];
    }
    if step.Call? && step.refresh && step.result.Returned? && step.result.status == Ok {
      var bytes := Bytes(w'.disk.files.event);
      SafeIsShown(c, w');
      DistinctEventsNeverRepeat(c, w');
      CaughtUpIsFull(c, r, w.disk.ledger, a, bytes);
      assert IsSettled(c, w'.disk.files.Get(Event));
      PublishedLedger(c, r, w', w'.disk.ledger.value);
    }
  }

  lemma SafeIsShown(c: Codec, w: World)
    ensures Safe(w, Event) <= Bytes(w.disk.files.event)
  {
  }

  // While no event id is shown twice and the stream is not replaced, whoever appends to it, every ledger published
  // in a run is the ledger of a durable prefix, and a call that reports its refresh done has published the full
  // replay of the stream.
  lemma {:induction false} RefreshedLedgerIsFull(c: Codec, r: Reducer, ws: seq<World>, steps: seq<Step>, i: nat)
    requires CodecOk(c) && Run(c, r, ws, steps) && i < |ws| && LedgersTrue(c, r, ws[0])
    requires forall k {:trigger ws[k]} :: 0 <= k <= i ==> DistinctEvents(c, ws[k])
    requires forall m {:trigger steps[m]} :: 0 <= m < i ==> steps[m] != Replace(Event)
    ensures LedgersTrue(c, r, ws[i])
    ensures i > 0 && steps[i - 1].Call? && steps[i - 1].refresh && steps[i - 1].result.Returned? && steps[i - 1].result.status == Ok ==>
              ws[i].disk.ledger == Some(Full(c, r, Bytes(ws[i].disk.files.event)))
  {
    hide WorldSound, Next, LedgersTrue, Full, DistinctEvents;
    if i > 0 {
      RefreshedLedgerIsFull(c, r, ws, steps, i - 1);
      RunKeepsSound(c, r, ws, steps, i - 1);
      RunKeepsSound(c, r, ws, steps, i);
      assert Next(c, r, ws[i - 1], ws[i], steps[i - 1]) && DistinctEvents(c, ws[i]);
      LedgerStep(c, r, ws[i - 1], ws[i], steps[i - 1]);
    }
  }

  // Under the same conditions every event that the call persisted is in that ledger: the ledger is the fold of as
  // many rows as it counts, and the event is exactly one of them. None that the writer accepts is skipped.
  lemma PersistedEventIsFolded(c: Codec, r: Reducer, ws: seq<World>, steps: seq<Step>, i: nat, k: nat)
    requires CodecOk(c) && Run(c, r, ws, steps) && i < |steps| && LedgersTrue(c, r, ws[0])
    requires forall m {:trigger ws[m]} :: 0 <= m <= i + 1 ==> DistinctEvents(c, ws[m])
    requires forall m {:trigger steps[m]} :: 0 <= m <= i ==> steps[m] != Replace(Event)
    requires steps[i].Call? && steps[i].refresh && steps[i].result.Returned? && steps[i].result.status == Ok
    requires k < |steps[i].items| && steps[i].items[k].stream == Event
    requires k < |steps[i].result.statuses| && steps[i].result.statuses[k] == Persisted
    ensures var (b, row, l) := (Bytes(ws[i + 1].disk.files.event), steps[i].items[k].row, ws[i + 1].disk.ledger);
            var events := Foldable(Rows(c, b[..PrefixEnd(b)]));
            && row in events && Count(c, events, c.id(row)) == 1
            && l.Some? && l.value.state == Fold(r, r.empty, events) && l.value.replayed == |events|
  {
    hide WorldSound, Next, LedgersTrue, DistinctEvents, Rows, PrefixEnd, Foldable, Full, NoRepeats, Count, Fold;
    var b, row := Bytes(ws[i + 1].disk.files.event), steps[i].items[k].row;
    var rows := Rows(c, b[..PrefixEnd(b)]);
    RefreshedLedgerIsFull(c, r, ws, steps, i + 1);
    assert Next(c, r, ws[i], ws[i + 1], steps[i]) && DistinctEvents(c, ws[i + 1]);
    PersistedIsShown(c, r, ws[i], ws[i + 1], steps[i], k);
    DistinctEventsNeverRepeat(c, ws[i + 1]);
    FullFoldsCleanRows(c, r, b);
    FoldableAre(rows, row);
    ReplayableIsFoldable(rows);
    DistinctCount(c, ws[i + 1], row);
  }

  lemma PersistedIsShown(c: Codec, r: Reducer, w: World, w': World, step: Step, k: nat)
    requires CodecOk(c) && Next(c, r, w, w', step) && step.Call? && step.result.Returned?
    requires k < |step.items| && step.items[k].stream == Event && k < |step.result.statuses| && step.result.statuses[k] == Persisted
    ensures var (b, row) := (Bytes(w'.disk.files.event), step.items[k].row);
            row in Rows(c, b[..PrefixEnd(b)]) && CleanRow(row) && c.id(row) != []
  {
    hide Rows, PrefixEnd, Sound, CacheMoved, AllEvolved, Trusted, LedgerCaughtUp, Known, Fresh, ValidKeys, CleanRow;
    var f, row, b := w.disk.files.Get(Event), step.items[k].row, Bytes(w'.disk.files.event);
    assert w'.disk.files.Get(Event) == w'.disk.files.event && IsSettled(c, w'.disk.files.Get(Event));
    assert Appends(c, f, w'.disk.files.Get(Event), Fresh(c, Known(c, f), step.items, Event), true);
    FreshMembers(c, Known(c, f), step.items, Event);
    assert step.items[k] == Item(Event, row);
    RowsOfTail(c, b);
    ValidIffClean(row);
  }

  lemma DistinctCount(c: Codec, w: World, row: Json)
    requires CodecOk(c) && DistinctEvents(c, w) && c.id(row) != []
    requires var b := Bytes(w.disk.files.event); row in Replayable(Rows(c, b[..PrefixEnd(b)]))
    ensures var b := Bytes(w.disk.files.event); Count(c, Replayable(Rows(c, b[..PrefixEnd(b)])), c.id(row)) == 1
  {
    hide Rows, Count, Replayable;
    var b := Bytes(w.disk.files.event);
    var rows := Rows(c, b[..PrefixEnd(b)]);
    RowsOfTail(c, b);
    ReplayableCount(c, rows, c.id(row));
    CountPrefix(c, Rows(c, b), rows, c.id(row));
    assert Shows(c, w, Event, c.id(row)) <= 1;
    IdsContain(c, Replayable(rows), row);
    CountIds(c, Replayable(rows), c.id(row));
  }

  // The writer itself never shows an event id twice; so it is enough that nobody else adds one that is there.
  lemma EventsStayDistinct(c: Codec, r: Reducer, ws: seq<World>, steps: seq<Step>, i: nat)
    requires CodecOk(c) && Run(c, r, ws, steps) && i < |ws| && DistinctEvents(c, ws[0])
    requires forall id: Text :: id != [] ==> OnlyWriterAdds(c, ws, steps, Event, id)
    ensures DistinctEvents(c, ws[i])
  {
    hide WorldSound, Next, Shows, Run, OnlyWriterAdds;
    forall id: Text | id != [] ensures Shows(c, ws[i], Event, id) <= 1 {
      NeverTwice(c, r, ws, steps, Event, id, i);
    }
  }

  // A new state root starts such a run.
  lemma FreshWorldStarts(c: Codec, r: Reducer)
    requires CodecOk(c)
    ensures WorldSound(c, FRESH_WORLD) && LedgersTrue(c, r, FRESH_WORLD) && DistinctEvents(c, FRESH_WORLD)
  {
    EmptyDiskIsSound(c);
    NoRows(c);
  }
}
