/**
 The files under the state root as a crash leaves them: three streams with a durable watermark, the
 exact-id cache database, and the receipt that vouches for it. `Sound` is what every writer step,
 every crash and every foreign append keeps: whenever the receipt names the database, each of its
 entries tells the truth about the stream it names.
 */
module StateRoot {
  import opened Wrappers
  import opened Json
  import opened Jsonl
  import opened Replay

  datatype Stream = Event | Metric | Outcome

  datatype PerStream<T> = PerStream(event: T, metric: T, outcome: T) {
    function Get(s: Stream): T {
      match s
      case Event => event
      case Metric => metric
      case Outcome => outcome
    }

    function Set(s: Stream, v: T): (r: PerStream<T>)
      ensures r.Get(s) == v
      ensures forall t :: t != s ==> r.Get(t) == Get(t)
    {
      match s
      case Event => this.(event := v)
      case Metric => this.(metric := v)
      case Outcome => this.(outcome := v)
    }
  }

  /******* Files *******/

  // `durable` characters have been fsynced, when the file carried `syncStamp`; `named` says that the
  // directory entry has been fsynced too. Every write moves the file to a stamp never used before.
  datatype File = File(ino: nat, bytes: string, stamp: nat, durable: nat, syncStamp: nat, named: bool)

  datatype Signature = Signature(ino: nat, size: nat, stamp: nat)

  function SignatureOf(f: Option<File>): Option<Signature> {
    match f
    case None => None
    case Some(f) => Some(Signature(f.ino, |f.bytes|, f.stamp))
  }

  function Bytes(f: Option<File>): string {
    if f.Some? then f.value.bytes else ""
  }

  /******* The derived cache *******/

  datatype Entry = Entry(size: nat, tail: Tail, hash: Fingerprint, observed: Option<Signature>)

  datatype Cache = Cache(ids: PerStream<set<Text>>, meta: PerStream<Option<Entry>>)

  const EMPTY_CACHE := Cache(PerStream({}, {}, {}), PerStream(None, None, None))

  datatype Database = Database(stamp: nat, cache: Cache)

  datatype Disk = Disk(
    files: PerStream<Option<File>>,
    database: Option<Database>,
    receipt: Option<nat>,
    journal: bool,
    ledger: Option<Ledger>,
    clock: nat)

  // The receipt names the database as it is.
  predicate Matched(d: Disk) {
    d.receipt.Some? && d.database.Some? && d.receipt.value == d.database.value.stamp
  }

  predicate Trusted(d: Disk) {
    Matched(d) && !d.journal
  }

  /******* Soundness *******/

  ghost predicate FileSound(c: Codec, f: File, clock: nat) {
    && f.ino < clock && f.stamp < clock && f.syncStamp < clock
    && f.durable <= |f.bytes|
    && CutSafe(c, f.bytes, f.durable)
  }

  // A signature that still matches describes the very bytes the entry was derived from.
  ghost predicate Describes(c: Codec, e: Entry, g: Signature, bytes: string, stamp: nat) {
    g.stamp == stamp && g.size == |bytes| ==> PrefixEnd(bytes) == e.size && TailOf(c, bytes) == e.tail
  }

  // The entry names a durable, complete prefix of its file, whose ids are exactly `ids`.
  ghost predicate NamesPrefix(c: Codec, e: Entry, ids: set<Text>, f: File) {
    && e.size <= f.durable <= |f.bytes| && (e.size > 0 ==> f.named)
    && Closed(f.bytes[..e.size])
    && ids == Ids(c, Rows(c, f.bytes[..e.size]))
    && e.hash == TailFingerprint(f.bytes, e.size)
  }

  ghost predicate EntrySound(c: Codec, e: Entry, ids: set<Text>, f: Option<File>, clock: nat) {
    && e.tail != Complete
    && match e.observed
       case None => e == Entry(0, NoTail, NoLine, None) && ids == {}
       case Some(g) =>
         && g.ino < clock && g.stamp < clock
         && (f.Some? && f.value.ino == g.ino ==>
               && NamesPrefix(c, e, ids, f.value)
               && Describes(c, e, g, f.value.bytes, f.value.stamp)
               && Describes(c, e, g, f.value.bytes[..f.value.durable], f.value.syncStamp))
  }

  ghost predicate CacheSound(c: Codec, cache: Cache, files: PerStream<Option<File>>, clock: nat) {
    forall s: Stream :: cache.meta.Get(s).Some? ==>
      EntrySound(c, cache.meta.Get(s).value, cache.ids.Get(s), files.Get(s), clock)
  }

  ghost predicate Sound(c: Codec, d: Disk) {
    && (forall s: Stream :: d.files.Get(s).Some? ==> FileSound(c, d.files.Get(s).value, d.clock))
    && (d.database.Some? ==> d.database.value.stamp < d.clock)
    && (d.receipt.Some? ==> d.receipt.value < d.clock)
    && (d.ledger.Some? ==> d.ledger.value.hash != Unterminated)
    && (Matched(d) ==> CacheSound(c, d.database.value.cache, d.files, d.clock))
  }

  // A fresh state root: no streams, no cache.
  const EMPTY_DISK := Disk(PerStream(None, None, None), None, None, false, None, 0)

  lemma EmptyDiskIsSound(c: Codec)
    ensures Sound(c, EMPTY_DISK)
  {
  }

  /******* Steps on one file *******/

  // What opening the file with O_CREAT finds.
  function Opened(f: Option<File>, clock: nat): File {
    if f.Some? then f.value else File(clock, "", clock, 0, clock, false)
  }

  function WithFile(d: Disk, s: Stream, f: File, clock: nat): Disk {
    d.(files := d.files.Set(s, Some(f)), clock := clock)
  }

  lemma OpenKeepsSound(c: Codec, d: Disk, s: Stream)
    requires Sound(c, d)
    ensures Sound(c, WithFile(d, s, Opened(d.files.Get(s), d.clock), d.clock + 1))
  {
  }

  function Grown(f: File, text: string, stamp: nat): File {
    f.(bytes := f.bytes + text, stamp := stamp)
  }

  // What the writer's own steps, and another writer's appends, do to a file: it only grows, a write moves it
  // to a new stamp, and what becomes durable is either what was or the whole file.
  ghost predicate Evolved(before: Option<File>, after: Option<File>, clock: nat, clock': nat) {
    match before
    case None => after.Some? ==> clock <= after.value.ino
    case Some(f) =>
      after.Some? &&
      var g := after.value;
      && g.ino == f.ino && f.bytes <= g.bytes && f.durable <= g.durable && (f.named ==> g.named)
      && ((g.stamp == f.stamp && g.bytes == f.bytes) || clock <= g.stamp < clock')
      && ((g.durable == f.durable && g.syncStamp == f.syncStamp) || (g.durable == |g.bytes| && g.syncStamp == g.stamp))
  }

  lemma EvolvedKeepsEntry(c: Codec, e: Entry, ids: set<Text>, f: Option<File>, g: Option<File>, clock: nat, clock': nat)
    requires EntrySound(c, e, ids, f, clock) && Evolved(f, g, clock, clock') && clock <= clock'
    requires g.Some? ==> g.value.durable <= |g.value.bytes|
    ensures EntrySound(c, e, ids, g, clock')
  {
    hide Rows, Ids, PrefixEnd, TailOf, LastLine;
    if e.observed.Some? && g.Some? && g.value.ino == e.observed.value.ino {
      var (a, b) := (f.value, g.value);
      assert b.bytes[..a.durable] == a.bytes[..a.durable];
      assert b.bytes[..e.size] == a.bytes[..e.size];
      assert NamesPrefix(c, e, ids, b);
      assert b.durable == |b.bytes| ==> b.bytes[..b.durable] == b.bytes;
    }
  }

  // So a cache that told the truth about the streams goes on telling it.
  lemma EvolvedKeepsCache(c: Codec, cache: Cache, files: PerStream<Option<File>>, files': PerStream<Option<File>>, clock: nat, clock': nat)
    requires CacheSound(c, cache, files, clock) && clock <= clock'
    requires forall s: Stream :: Evolved(files.Get(s), files'.Get(s), clock, clock')
    requires forall s: Stream :: files'.Get(s).Some? ==> FileSound(c, files'.Get(s).value, clock')
    ensures CacheSound(c, cache, files', clock')
  {
    hide EntrySound, Evolved, CutSafe;
    forall s: Stream | cache.meta.Get(s).Some?
      ensures EntrySound(c, cache.meta.Get(s).value, cache.ids.Get(s), files'.Get(s), clock')
    {
      EvolvedKeepsEntry(c, cache.meta.Get(s).value, cache.ids.Get(s), files.Get(s), files'.Get(s), clock, clock');
    }
  }

  // An append that got as far as `n` characters.
  lemma AppendKeepsSound(c: Codec, d: Disk, s: Stream, rows: seq<Json>, n: nat, stamp: nat, clock: nat)
    requires CodecOk(c) && Sound(c, d) && Accepted(c, rows)
    requires d.files.Get(s).Some?
    requires n <= |Appended(c, TailOf(c, d.files.Get(s).value.bytes), rows)|
    requires d.clock <= stamp < clock
    ensures var f := d.files.Get(s).value;
            Sound(c, WithFile(d, s, Grown(f, Appended(c, TailOf(c, f.bytes), rows)[..n], stamp), clock))
  {
    var f := d.files.Get(s).value;
    var text := Appended(c, TailOf(c, f.bytes), rows)[..n];
    AppendKeepsCutSafe(c, f.bytes, f.durable, rows, n);
    GrowthKeepsSound(c, d, s, text, stamp, clock);
  }

  lemma GrowthKeepsSound(c: Codec, d: Disk, s: Stream, text: string, stamp: nat, clock: nat)
    requires Sound(c, d) && d.files.Get(s).Some?
    requires CutSafe(c, d.files.Get(s).value.bytes + text, d.files.Get(s).value.durable)
    requires d.clock <= stamp < clock
    ensures Sound(c, WithFile(d, s, Grown(d.files.Get(s).value, text, stamp), clock))
  {
    var f := d.files.Get(s).value;
    var d' := WithFile(d, s, Grown(f, text, stamp), clock);
    hide CutSafe, CacheSound;
    if Matched(d') {
      EvolvedKeepsCache(c, d.database.value.cache, d.files, d'.files, d.clock, clock);
    }
  }

  lemma FsyncKeepsSound(c: Codec, d: Disk, s: Stream, named: bool)
    requires Sound(c, d) && d.files.Get(s).Some?
    requires d.files.Get(s).value.named ==> named
    ensures var f := d.files.Get(s).value;
            Sound(c, WithFile(d, s, f.(durable := |f.bytes|, syncStamp := f.stamp, named := named), d.clock))
  {
    var f := d.files.Get(s).value;
    var f' := f.(durable := |f.bytes|, syncStamp := f.stamp, named := named);
    var d' := WithFile(d, s, f', d.clock);
    assert f.bytes[..|f.bytes|] == f.bytes;
    hide CacheSound;
    if Matched(d') {
      EvolvedKeepsCache(c, d.database.value.cache, d.files, d'.files, d.clock, d.clock);
    }
  }
}
