/**
 The books and the bytes. `Billing` reasons about the rows of the metric stream, `WriterRuns` about its bytes
 under kills and crashes, `IngestLedger` about checkpoints that name a prefix of it. Here they meet: what the
 writer does to the bytes is what billing says it does to the rows, so that over whole runs of killed, crashed
 and retried writer calls the stream never bills a call twice; and a checkpoint whose metrics prefix is intact
 vouches for what resuming from it assumes.
 */
module IngestRuns {
  import opened Wrappers
  import opened Json
  import opened Jsonl
  import opened Replay
  import opened StateRoot
  import opened RecordIndex
  import opened RecordBatch
  import opened WriterRuns
  import Usage
  import Billing
  import IngestLedger

  /******* The rows in the bytes *******/

  // The session rows that the metric stream shows.
  function Metered(c: Codec, read: Usage.Reading, w: World): seq<Usage.Row> {
    Billing.Parsed(read, Rows(c, Bytes(w.disk.files.Get(Metric))))
  }

  // The metric rows of a batch.
  function Batch(c: Codec, items: seq<Item>): seq<Json> {
    Fresh(c, {}, items, Metric)
  }

  // The batch holds exactly these records, each under its call id.
  ghost predicate Holds(c: Codec, read: Usage.Reading, batch: seq<Json>, records: seq<Usage.Row>) {
    |batch| == |records| && forall i :: 0 <= i < |batch| ==> read(batch[i]) == Some(records[i]) && records[i].callId == Some(c.id(batch[i]))
  }

  // Session rows go by their call id.
  ghost predicate Keyed(c: Codec, read: Usage.Reading, rows: seq<Json>) {
    forall v :: v in rows && read(v).Some? ==> read(v).value.callId == Some(c.id(v))
  }

  // The ids of these rows are not those of rows that are no session rows.
  ghost predicate Apart(c: Codec, read: Usage.Reading, rows: seq<Json>, batch: seq<Json>) {
    forall v, b :: v in rows && read(v).None? && b in batch ==> c.id(v) != c.id(b)
  }

  lemma {:induction false} ParsedAppend(read: Usage.Reading, a: seq<Json>, b: seq<Json>)
    ensures Billing.Parsed(read, a + b) == Billing.Parsed(read, a) + Billing.Parsed(read, b)
    decreases |b|
  {
    if b == [] {
      assert a + b == a;
    } else {
      var n := |b| - 1;
      assert (a + b)[..|a + b| - 1] == a + b[..n];
      ParsedAppend(read, a, b[..n]);
    }
  }

  lemma {:induction false} ParsedMember(read: Usage.Reading, rows: seq<Json>, v: Json)
    requires v in rows && read(v).Some?
    ensures read(v).value in Billing.Parsed(read, rows)
  {
    var n := |rows| - 1;
    if rows[n] != v {
      assert v in rows[..n];
      ParsedMember(read, rows[..n], v);
    }
  }

  lemma {:induction false} ParsedBatch(c: Codec, read: Usage.Reading, batch: seq<Json>, records: seq<Usage.Row>, k: nat)
    requires Holds(c, read, batch, records) && k <= |batch|
    ensures Billing.Parsed(read, batch[..k]) == records[..k]
  {
    if k > 0 {
      ParsedBatch(c, read, batch, records, k - 1);
      assert batch[..k][..k - 1] == batch[..k - 1];
    }
  }

  lemma {:induction false} ParsedOrigin(read: Usage.Reading, rows: seq<Json>, r: Usage.Row)
    requires r in Billing.Parsed(read, rows)
    ensures exists v :: v in rows && read(v) == Some(r)
  {
    var n := |rows| - 1;
    if r in Billing.Parsed(read, rows[..n]) {
      ParsedOrigin(read, rows[..n], r);
      var v :| v in rows[..n] && read(v) == Some(r);
      assert v in rows;
    } else {
      assert rows[n] in rows && read(rows[n]) == Some(r);
    }
  }

  // The rows of a batch whose ids are not known.
  function Filtered(c: Codec, known: set<Text>, batch: seq<Json>): seq<Json> {
    if batch == [] then []
    else
      var n := |batch| - 1;
      Filtered(c, known, batch[..n]) + (if c.id(batch[n]) in known then [] else [batch[n]])
  }

  lemma FilteredLast(c: Codec, known: set<Text>, batch: seq<Json>, v: Json)
    ensures Filtered(c, known, batch + [v]) == Filtered(c, known, batch) + (if c.id(v) in known then [] else [v])
  {
    assert (batch + [v])[..|batch|] == batch;
  }

  lemma {:induction false} FreshIsFiltered(c: Codec, known: set<Text>, items: seq<Item>, s: Stream)
    ensures Fresh(c, known, items, s) == Filtered(c, known, Fresh(c, {}, items, s))
  {
    if items != [] {
      var n := |items| - 1;
      FreshIsFiltered(c, known, items[..n], s);
      var batch := Fresh(c, {}, items[..n], s);
      hide Filtered;
      if items[n].stream == s {
        FilteredLast(c, known, batch, items[n].row);
      } else {
        assert batch + [] == batch;
      }
    }
  }

  lemma {:induction false} KnownHasARow(c: Codec, rows: seq<Json>, id: Text)
    requires id in Ids(c, rows)
    ensures id != [] && exists v :: v in rows && c.id(v) == id
  {
    if id !in IdOf(c, rows[0]) {
      KnownHasARow(c, rows[1..], id);
      var v :| v in rows[1..] && c.id(v) == id;
      assert v in rows;
    } else {
      assert rows[0] in rows;
    }
  }

  /******* One call of the writer *******/

  // What ingest decided to bill, on the stream as it stands: rows that pay for calls nothing has paid for.
  ghost predicate Decided(c: Codec, read: Usage.Reading, h: Billing.Hashing, runtime: Text, w: World, items: seq<Item>, seen: set<Billing.Call>,
                          paid: seq<set<Billing.Call>>, records: seq<Usage.Row>, sets: seq<set<Billing.Call>>) {
    && Holds(c, read, Batch(c, items), records)
    && Billing.BooksOk(h, runtime, Metered(c, read, w), paid) && Billing.Union(paid) <= seen
    && Billing.Owing(h, runtime, Metered(c, read, w), paid, records, sets, seen)
    && Apart(c, read, Rows(c, Bytes(w.disk.files.Get(Metric))), Batch(c, items))
  }

  // It is what the ingest of a biller whose rows are the stream's owes, put into a batch.
  lemma OwedIsDecided(c: Codec, read: Usage.Reading, b: Billing.Biller, w: World, items: seq<Item>, records: seq<Usage.Row>,
                      sets: seq<set<Billing.Call>>)
    requires b.Valid() && b.rows == Metered(c, read, w)
    requires Billing.Owing(b.hash, b.runtime, b.rows, b.paid, records, sets, b.seen)
    requires Holds(c, read, Batch(c, items), records) && Apart(c, read, Rows(c, Bytes(w.disk.files.Get(Metric))), Batch(c, items))
    ensures Decided(c, read, b.hash, b.runtime, w, items, b.seen, b.paid, records, sets)
  {
    hide Billing.Owing, Billing.BooksOk, Billing.Union, Holds, Apart;
  }

  // The stream holds the id of a row of the batch exactly when one of its session rows has that record's id.
  lemma KnownIffTaken(c: Codec, read: Usage.Reading, stream: seq<Json>, b: Json, batch: seq<Json>)
    requires Keyed(c, read, stream) && Apart(c, read, stream, batch) && b in batch && c.id(b) != []
    ensures c.id(b) in Ids(c, stream) <==> Billing.IsTaken(Billing.Parsed(read, stream), Some(c.id(b)))
  {
    hide Ids, Billing.Parsed;
    if c.id(b) in Ids(c, stream) {
      KnownHasARow(c, stream, c.id(b));
      var v :| v in stream && c.id(v) == c.id(b);
      ParsedMember(read, stream, v);
    }
    if Billing.IsTaken(Billing.Parsed(read, stream), Some(c.id(b))) {
      var r :| r in Billing.Parsed(read, stream) && r.callId == Some(c.id(b));
      ParsedOrigin(read, stream, r);
      var v :| v in stream && read(v) == Some(r);
      IdsContain(c, stream, v);
    }
  }

  // So the writer appends exactly the records that are not recorded.
  lemma {:induction false} FilteredHolds(c: Codec, read: Usage.Reading, known: set<Text>, rows: seq<Usage.Row>, batch: seq<Json>,
                                         records: seq<Usage.Row>)
    requires Holds(c, read, batch, records)
    requires forall b :: b in batch ==> (c.id(b) in known <==> Billing.IsTaken(rows, Some(c.id(b))))
    ensures Holds(c, read, Filtered(c, known, batch), Billing.Unrecorded(rows, records))
    decreases |batch|
  {
    hide Billing.IsTaken;
    if batch != [] {
      var n := |batch| - 1;
      assert batch[n] in batch;
      FilteredHolds(c, read, known, rows, batch[..n], records[..n]);
    }
  }

  lemma {:induction false} FreshHaveIds(c: Codec, items: seq<Item>, s: Stream)
    requires ValidBatch(c, items)
    ensures forall v :: v in Fresh(c, {}, items, s) ==> c.id(v) != []
  {
    FreshMembers(c, {}, items, s);
  }

  // However far the call gets, the session rows it adds are a prefix of the records that no row has the id of, and
  // the books stay right; if it returns, they are all there, and everything owed is paid exactly when none was
  // skipped. This is what billing takes the writer to do.
  lemma CallAppendsRecords(c: Codec, r: Reducer, read: Usage.Reading, h: Billing.Hashing, runtime: Text, w: World, w': World, items: seq<Item>,
                           refresh: bool, result: Result, seen: set<Billing.Call>,
                           paid: seq<set<Billing.Call>>, records: seq<Usage.Row>, sets: seq<set<Billing.Call>>) returns (k: nat)
    requires Keyed(c, read, Rows(c, Bytes(w.disk.files.Get(Metric))))
    requires Next(c, r, w, w', Step.Call(items, refresh, result)) && Decided(c, read, h, runtime, w, items, seen, paid, records, sets)
    ensures |sets| == |records|
    ensures var (more, theirs) := (Billing.Unrecorded(Metered(c, read, w), records), Billing.UnrecordedSets(Metered(c, read, w), records, sets));
            && k <= |more| && (result.Returned? ==> k == |more|)
            && Metered(c, read, w') == Metered(c, read, w) + more[..k]
            && Billing.BooksOk(h, runtime, Metered(c, read, w'), paid + theirs[..k]) && Billing.Union(paid + theirs[..k]) <= seen
            && (result.Returned? ==>
                  (Billing.Union(sets) <= Billing.Union(paid + theirs[..k]) <==> Billing.NoneTaken(Metered(c, read, w), records)))
    ensures Keyed(c, read, Rows(c, Bytes(w'.disk.files.Get(Metric))))
  {
    hide Rows, Ids, Fresh, Billing.BooksOk, Billing.Union, Billing.Parsed, IsSettled, Acknowledged, LedgerCaughtUp, Sound, AllEvolved, CacheMoved,
      Billing.Owing, Billing.Unrecorded, Billing.UnrecordedSets, Billing.NoneTaken, Billing.IsTaken, Filtered, ValidBatch;
    var (f, g) := (w.disk.files.Get(Metric), w'.disk.files.Get(Metric));
    var (stream, rows, batch) := (Rows(c, Bytes(f)), Metered(c, read, w), Batch(c, items));
    FreshHaveIds(c, items, Metric);
    forall b | b in batch ensures c.id(b) in Known(c, f) <==> Billing.IsTaken(rows, Some(c.id(b))) {
      KnownIffTaken(c, read, stream, b, batch);
    }
    FreshIsFiltered(c, Known(c, f), items, Metric);
    FilteredHolds(c, read, Known(c, f), rows, batch, records);
    var fresh_ := Filtered(c, Known(c, f), batch);
    assert Appends(c, f, g, fresh_, result.Returned? || result.persisted.Get(Metric) > 0);
    assert fresh_[..|fresh_|] == fresh_;
    k :| 0 <= k <= |fresh_| && Rows(c, Bytes(g)) == stream + fresh_[..k] && (result.Returned? ==> k == |fresh_|);
    ParsedAppend(read, stream, fresh_[..k]);
    ParsedBatch(c, read, fresh_, Billing.Unrecorded(rows, records), k);
    BooksAfter(h, runtime, rows, paid, records, sets, seen, k);
    StayKeyed(c, read, stream, fresh_, Billing.Unrecorded(rows, records), k);
  }

  lemma BooksAfter(h: Billing.Hashing, runtime: Text, rows: seq<Usage.Row>, paid: seq<set<Billing.Call>>, records: seq<Usage.Row>,
                   sets: seq<set<Billing.Call>>, seen: set<Billing.Call>, k: nat)
    requires Billing.BooksOk(h, runtime, rows, paid) && Billing.Union(paid) <= seen
    requires Billing.Owing(h, runtime, rows, paid, records, sets, seen) && k <= |Billing.Unrecorded(rows, records)|
    ensures |sets| == |records|
    ensures var (more, theirs) := (Billing.Unrecorded(rows, records), Billing.UnrecordedSets(rows, records, sets));
            && Billing.BooksOk(h, runtime, rows + more[..k], paid + theirs[..k]) && Billing.Union(paid + theirs[..k]) <= seen
            && (k == |more| ==> (Billing.Union(sets) <= Billing.Union(paid + theirs[..k]) <==> Billing.NoneTaken(rows, records)))
  {
    hide Billing.BooksOk, Billing.Union, Billing.Owing, Billing.Unrecorded, Billing.UnrecordedSets, Billing.NoneTaken, Billing.Handled, Billing.Chained;
    Billing.BooksLength(h, runtime, rows, paid);
    Billing.OwingFacts(h, runtime, rows, paid, records, sets, seen);
    var (more, theirs) := (Billing.Unrecorded(rows, records), Billing.UnrecordedSets(rows, records, sets));
    Billing.HandledKeepsBooks(h, runtime, rows, paid, records, sets, seen);
    Billing.HandledMeans(h, runtime, rows, paid, more, theirs, sets);
    Billing.AllPaid(h, runtime, rows, paid, records, sets, seen);
    BooksPart(h, runtime, rows, more, paid, theirs, k);
    assert theirs[..|theirs|] == theirs;
  }

  lemma StayKeyed(c: Codec, read: Usage.Reading, stream: seq<Json>, batch: seq<Json>, records: seq<Usage.Row>, k: nat)
    requires Keyed(c, read, stream) && Holds(c, read, batch, records) && k <= |batch|
    ensures Keyed(c, read, stream + batch[..k])
  {
    forall v | v in stream + batch[..k] && read(v).Some? ensures read(v).value.callId == Some(c.id(v)) {
      if v in batch[..k] {
        var i :| 0 <= i < |batch| && batch[i] == v;
      }
    }
  }

  lemma BooksPart(h: Billing.Hashing, runtime: Text, rows: seq<Usage.Row>, records: seq<Usage.Row>, paid: seq<set<Billing.Call>>,
                  sets: seq<set<Billing.Call>>, k: nat)
    requires |paid| == |rows| && |sets| == |records| && k <= |records| && Billing.BooksOk(h, runtime, rows + records, paid + sets)
    ensures Billing.BooksOk(h, runtime, rows + records[..k], paid + sets[..k]) && Billing.Union(paid + sets[..k]) <= Billing.Union(paid + sets)
  {
    hide Billing.BooksOk, Billing.Union;
    assert (rows + records)[..|rows| + k] == rows + records[..k] && (paid + sets)[..|rows| + k] == paid + sets[..k];
    Billing.BooksPrefix(h, runtime, rows + records, paid + sets, |rows| + k);
    Billing.UnionPrefix(paid + sets, |rows| + k);
  }

  /******* Whole runs *******/

  // The stream's session rows are books: each pays for calls that no other pays for, and that a log has shown.
  ghost predicate Booked(c: Codec, read: Usage.Reading, h: Billing.Hashing, runtime: Text, w: World, seen: set<Billing.Call>) {
    && Keyed(c, read, Rows(c, Bytes(w.disk.files.Get(Metric))))
    && exists paid :: Billing.BooksOk(h, runtime, Metered(c, read, w), paid) && Billing.Union(paid) <= seen
  }

  // A run in which every batch of session rows is one that ingest decided on. Other writers add no session rows,
  // and a metric stream that is replaced keeps some of them, in any order.
  ghost predicate Billed(c: Codec, read: Usage.Reading, h: Billing.Hashing, runtime: Text, w: World, w': World, step: Step, seen: set<Billing.Call>) {
    match step
    case Call(items, _, _) => Batch(c, items) == [] || exists paid, records, sets :: Decided(c, read, h, runtime, w, items, seen, paid, records, sets)
    case Foreign(s) => s == Metric ==> Metered(c, read, w') == Metered(c, read, w) && Keyed(c, read, Rows(c, Bytes(w'.disk.files.Get(Metric))))
    case Replace(s) => s == Metric ==> Kept(c, read, w, w') && Keyed(c, read, Rows(c, Bytes(w'.disk.files.Get(Metric))))
    case _ => true
  }

  ghost predicate Kept(c: Codec, read: Usage.Reading, w: World, w': World) {
    exists kept :: Billing.IsPick(kept, |Metered(c, read, w)|) && Metered(c, read, w') == Billing.Picked(Metered(c, read, w), kept)
  }

  lemma KeptRowsStayBooked(c: Codec, read: Usage.Reading, h: Billing.Hashing, runtime: Text, w: World, w': World, seen: set<Billing.Call>)
    requires Booked(c, read, h, runtime, w, seen) && Kept(c, read, w, w') && Keyed(c, read, Rows(c, Bytes(w'.disk.files.Get(Metric))))
    ensures Booked(c, read, h, runtime, w', seen)
  {
    hide Rows, Billing.BooksOk, Billing.Union, Billing.Parsed, Billing.Picked, Keyed;
    var paid :| Billing.BooksOk(h, runtime, Metered(c, read, w), paid) && Billing.Union(paid) <= seen;
    var kept :| Billing.IsPick(kept, |Metered(c, read, w)|) && Metered(c, read, w') == Billing.Picked(Metered(c, read, w), kept);
    Billing.BooksPick(h, runtime, Metered(c, read, w), paid, kept);
    assert Billing.BooksOk(h, runtime, Metered(c, read, w'), Billing.Picked(paid, kept));
  }

  lemma FewerRowsStayBooked(c: Codec, read: Usage.Reading, h: Billing.Hashing, runtime: Text, w: World, w': World, seen: set<Billing.Call>)
    requires Booked(c, read, h, runtime, w, seen)
    requires Rows(c, Bytes(w'.disk.files.Get(Metric))) <= Rows(c, Bytes(w.disk.files.Get(Metric)))
    ensures Booked(c, read, h, runtime, w', seen)
  {
    hide Rows, Billing.BooksOk, Billing.Union, Billing.Parsed;
    var (a, b) := (Rows(c, Bytes(w'.disk.files.Get(Metric))), Rows(c, Bytes(w.disk.files.Get(Metric))));
    assert b == a + b[|a|..];
    ParsedAppend(read, a, b[|a|..]);
    var paid :| Billing.BooksOk(h, runtime, Metered(c, read, w), paid) && Billing.Union(paid) <= seen;
    var n := |Metered(c, read, w')|;
    Billing.BooksPrefix(h, runtime, Metered(c, read, w), paid, n);
    Billing.UnionPrefix(paid, n);
    assert Metered(c, read, w)[..n] == Metered(c, read, w');
  }

  lemma CrashShowsAPrefix(c: Codec, f: Option<File>, g: Option<File>, clock: nat, clock': nat)
    requires CodecOk(c) && CrashedFile(f, g, clock, clock') && (f.Some? ==> FileSound(c, f.value, clock))
    ensures Rows(c, Bytes(g)) <= Rows(c, Bytes(f))
  {
    NoRows(c);
    hide Rows;
  }

  lemma StepKeepsBooks(c: Codec, r: Reducer, read: Usage.Reading, h: Billing.Hashing, runtime: Text, w: World, w': World, step: Step,
                       seen: set<Billing.Call>)
    requires CodecOk(c) && WorldSound(c, w) && Next(c, r, w, w', step)
    requires Billed(c, read, h, runtime, w, w', step, seen) && Booked(c, read, h, runtime, w, seen)
    ensures Booked(c, read, h, runtime, w', seen)
  {
    hide Rows, Ids, Fresh, Billing.HashOk, Billing.Consistent, Billing.BooksOk, Billing.Union, Billing.Parsed, Known, IsSettled, Acknowledged,
      LedgerCaughtUp, AllEvolved, CacheMoved, CrashedFile, FileSound, CacheSound, PairsSound, Decided;
    var (f, g) := (w.disk.files.Get(Metric), w'.disk.files.Get(Metric));
    match step
    case Call(items, refresh, result) =>
      if Batch(c, items) != [] {
        var paid, records, sets :| Decided(c, read, h, runtime, w, items, seen, paid, records, sets);
        var k := CallAppendsRecords(c, r, read, h, runtime, w, w', items, refresh, result, seen, paid, records, sets);
        assert Billing.BooksOk(h, runtime, Metered(c, read, w'), paid + Billing.UnrecordedSets(Metered(c, read, w), records, sets)[..k]);
      } else {
        FreshIsFiltered(c, Known(c, f), items, Metric);
        SameRows(c, f, g, result.Returned? || result.persisted.Get(Metric) > 0);
        FewerRowsStayBooked(c, read, h, runtime, w, w', seen);
      }
    case Settle(_) =>
      SameRows(c, f, g, true);
      FewerRowsStayBooked(c, read, h, runtime, w, w', seen);
    case Crash =>
      CrashShowsAPrefix(c, f, g, w.disk.clock, w'.disk.clock);
      FewerRowsStayBooked(c, read, h, runtime, w, w', seen);
    case Foreign(s) =>
      if s != Metric {
        assert g == f;
      }
    case Replace(s) =>
      if s == Metric {
        KeptRowsStayBooked(c, read, h, runtime, w, w', seen);
      } else {
        assert g == f;
      }
    case Disturb => assert g == f;
  }

  lemma SameRows(c: Codec, f: Option<File>, g: Option<File>, all: bool)
    requires Appends(c, f, g, [], all)
    ensures Rows(c, Bytes(g)) <= Rows(c, Bytes(f))
  {
    hide Rows;
    var none: seq<Json> := [];
    var k :| 0 <= k <= |none| && Rows(c, Bytes(g)) == Rows(c, Bytes(f)) + none[..k];
    assert none[..k] == [];
  }

  // A new state root starts such a run.
  lemma FreshWorldIsBooked(c: Codec, read: Usage.Reading, h: Billing.Hashing, runtime: Text, seen: set<Billing.Call>)
    requires CodecOk(c)
    ensures Booked(c, read, h, runtime, FRESH_WORLD, seen)
  {
    NoRows(c);
    hide Rows;
    assert Billing.BooksOk(h, runtime, Metered(c, read, FRESH_WORLD), []);
  }

  // Over any such run, wherever calls are killed, crash and are retried, the stream bills no call twice.
  lemma {:induction false} RunKeepsBooks(c: Codec, r: Reducer, read: Usage.Reading, h: Billing.Hashing, runtime: Text,
                                         ws: seq<World>, steps: seq<Step>, seen: set<Billing.Call>, i: nat)
    requires CodecOk(c) && Run(c, r, ws, steps) && i < |ws|
    requires forall n {:trigger steps[n]} :: 0 <= n < |steps| ==> Billed(c, read, h, runtime, ws[n], ws[n + 1], steps[n], seen)
    requires Booked(c, read, h, runtime, ws[0], seen)
    ensures Booked(c, read, h, runtime, ws[i], seen)
  {
    hide WorldSound, Next, Booked, Billed, Billing.HashOk, Billing.Consistent;
    if i > 0 {
      RunKeepsBooks(c, r, read, h, runtime, ws, steps, seen, i - 1);
      RunKeepsSound(c, r, ws, steps, i - 1);
      assert Next(c, r, ws[i - 1], ws[i], steps[i - 1]);
      StepKeepsBooks(c, r, read, h, runtime, ws[i - 1], ws[i], steps[i - 1], seen);
    }
  }

  // So what the bytes record for a session and model never exceeds what the logs have shown.
  lemma RecordedNeverExceedsOverRuns(c: Codec, r: Reducer, read: Usage.Reading, h: Billing.Hashing, runtime: Text, ws: seq<World>, steps: seq<Step>,
                                     seen: set<Billing.Call>, i: nat, session: Text, model: Text)
    requires CodecOk(c) && Run(c, r, ws, steps) && i < |ws|
    requires forall n {:trigger steps[n]} :: 0 <= n < |steps| ==> Billed(c, read, h, runtime, ws[n], ws[n + 1], steps[n], seen)
    requires Booked(c, read, h, runtime, ws[0], seen)
    ensures var recorded := Usage.Sum(read, Usage.BLANK, Rows(c, Bytes(ws[i].disk.files.Get(Metric))), Usage.Key(runtime, session));
            Usage.AtMost(Usage.Of(recorded.models, model), Billing.SumSet(Billing.Under(seen, session, model)))
  {
    hide Run, Billed, Billing.HashOk, Billing.Consistent, Billing.BooksOk, Billing.Union, Billing.SumSet, Billing.Totalled, Billing.Parsed,
      Usage.AtMost, Usage.Sum, Rows, Keyed;
    RunKeepsBooks(c, r, read, h, runtime, ws, steps, seen, i);
    var rows := Rows(c, Bytes(ws[i].disk.files.Get(Metric)));
    var paid :| Billing.BooksOk(h, runtime, Billing.Parsed(read, rows), paid) && Billing.Union(paid) <= seen;
    Billing.LedgerHoldsTheBooks(read, rows, Usage.Key(runtime, session));
    Billing.BooksAddUp(h, runtime, Billing.Parsed(read, rows), paid, session, model);
    Billing.SumSetMonotone(Billing.Under(Billing.Union(paid), session, model), Billing.Under(seen, session, model));
  }

  /******* Checkpoints and the ledger *******/

  // A ledger that has caught up with a settled stream holds, for each session, what billing reads off the rows.
  lemma CaughtUpLedgerIsTheBooks(ledger: IngestLedger.IngestLedger, file: Option<IngestLedger.Metrics>, k: Usage.Key)
    requires ledger.Valid() && ledger.Complete(file) && ledger.Tracked(k) && ledger.staged == []
    requires TailOf(ledger.codec, IngestLedger.Contents(file)) != Complete
    ensures ledger.StateOf(k) == Billing.Totalled(Billing.Parsed(ledger.read, Rows(ledger.codec, IngestLedger.Contents(file))), k)
  {
    var b := IngestLedger.Contents(file);
    var lines := Rows(ledger.codec, b[..PrefixEnd(b)]);
    RowsOfTail(ledger.codec, b);
    NoTailRow(ledger.codec, b);
    hide Rows, Usage.Sum, Billing.Totalled, Billing.Parsed, PrefixEnd, TailOf;
    assert lines + [] + [] == lines && ledger.Stands(file, k);
    Billing.LedgerHoldsTheBooks(ledger.read, lines, k);
  }

  lemma NoTailRow(c: Codec, b: string)
    requires TailOf(c, b) != Complete
    ensures IngestLedger.TailRow(c, b) == []
  {
  }

  // When the metrics prefix a checkpoint names is intact, the rows it was saved with are a prefix of the rows
  // there are now, and what it records of a session is what those rows add up to: what resuming a log assumes.
  lemma IntactPrefixIsSeeded(c: Codec, read: Usage.Reading, recorded: map<Usage.Key, Usage.State>, a: IngestLedger.Anchor,
                             saved: Option<IngestLedger.Metrics>, now: Option<IngestLedger.Metrics>)
    requires CodecOk(c) && IngestLedger.Vouches(c, read, recorded, a, saved) && IngestLedger.Intact(saved, a)
    requires saved.Some? && now.Some? && saved.value.id == now.value.id ==> saved.value.bytes <= now.value.bytes
    requires now.Some? && IngestLedger.Intact(now, a)
    ensures a.offset <= |IngestLedger.Contents(saved)|
    ensures var metrics := Billing.Parsed(read, Rows(c, IngestLedger.Contents(saved)[..a.offset]));
            && metrics <= Billing.Parsed(read, Rows(c, IngestLedger.Contents(now)))
            && forall k :: k in recorded ==> recorded[k] == Billing.Totalled(metrics, k)
  {
    hide Rows, LastLine, Usage.Sum, Billing.Totalled, Billing.Parsed, PrefixEnd;
    var (b, b') := (IngestLedger.Contents(saved), IngestLedger.Contents(now));
    IngestLedger.AnchorCloses(c, saved, a);
    assert b'[..a.offset] == b[..a.offset];
    assert b' == b'[..a.offset] + b'[a.offset..];
    RowsAppend(c, b'[..a.offset], b'[a.offset..]);
    ParsedAppend(read, Rows(c, b'[..a.offset]), Rows(c, b'[a.offset..]));
    forall k | k in recorded ensures recorded[k] == Billing.Totalled(Billing.Parsed(read, Rows(c, b[..a.offset])), k) {
      Billing.LedgerHoldsTheBooks(read, Rows(c, b[..a.offset]), k);
    }
  }

  lemma UnidentifiedGrows(read: Usage.Reading, s: Usage.State, rows: seq<Json>, k: Usage.Key, model: Text)
    ensures Usage.AtMost(Usage.Of(s.unidentified, model), Usage.Of(Usage.Sum(read, s, rows, k).unidentified, model))
  {
    hide Usage.Sum;
    Usage.SumGrows(read, s, rows, k);
  }

  // While a checkpoint's metrics prefix is intact, no total it recorded has shrunk, so that a prefix of the log
  // that matches its totals-only history makes up the difference.
  lemma HistoryNeverShrinks(c: Codec, read: Usage.Reading, recorded: map<Usage.Key, Usage.State>, a: IngestLedger.Anchor,
                            now: Option<IngestLedger.Metrics>, k: Usage.Key, model: Text)
    requires CodecOk(c) && IngestLedger.Vouches(c, read, recorded, a, now) && IngestLedger.Intact(now, a) && k in recorded
    ensures var state := Usage.Sum(read, Usage.BLANK, Rows(c, IngestLedger.Contents(now)), k);
            Usage.AtMost(Usage.Of(recorded[k].unidentified, model), Usage.Of(state.unidentified, model))
  {
    hide Rows, LastLine, Usage.Sum, PrefixEnd, Usage.AtMost;
    var (b, o) := (IngestLedger.Contents(now), a.offset);
    IngestLedger.AnchorCloses(c, now, a);
    assert b == b[..o] + b[o..];
    RowsAppend(c, b[..o], b[o..]);
    Usage.SumAppend(read, Usage.BLANK, Rows(c, b[..o]), Rows(c, b[o..]), k);
    UnidentifiedGrows(read, Usage.Sum(read, Usage.BLANK, Rows(c, b[..o]), k), Rows(c, b[o..]), k, model);
  }
}
