/**
 The ledger derived from the event stream. A resumed replay folds only the lines after its
 checkpoint; a full replay starts from byte 0 and drops repeated ids. The two agree exactly when no
 later event repeats an id, and then any chunking of the appends leads to the same ledger.
 */
module Replay {
  import opened Wrappers
  import opened Json
  import opened Jsonl

  // `ledger.json`: the folded document and the checkpoint that says how far it got.
  datatype Ledger = Ledger(state: Json, offset: nat, hash: Fingerprint, replayed: nat)

  // `reduce_event` over a document, from the empty one. Nothing here depends on what it does.
  datatype Reducer = Reducer(empty: Json, step: (Json, Json) -> Json)

  const KEY_FIELDS := [Ascii("run_id"), Ascii("task_id"), Ascii("decision_id"), Ascii("workstream_id"), Ascii("resource")]

  // An identifier field must be a string or null; a line that breaks this is skipped.
  predicate ValidKeys(row: Json) {
    row.Obj? ==>
      forall i :: 0 <= i < |KEY_FIELDS| ==>
        match Lookup(row.members, KEY_FIELDS[i])
        case Some(v) => v.Null? || v.Str?
        case None => true
  }

  function Replayable(rows: seq<Json>): seq<Json> {
    if rows == [] then [] else (if ValidKeys(rows[0]) then [rows[0]] else []) + Replayable(rows[1..])
  }

  lemma ReplayableFirst(first: Json, rest: seq<Json>)
    ensures Replayable([first] + rest) == (if ValidKeys(first) then [first] else []) + Replayable(rest)
  {
    hide ValidKeys;
    assert ([first] + rest)[1..] == rest;
  }

  lemma {:induction false} ReplayableAppend(a: seq<Json>, b: seq<Json>)
    ensures Replayable(a + b) == Replayable(a) + Replayable(b)
    decreases |a|
  {
    if a == [] {
      assert a + b == b;
    } else {
      hide Replayable, ValidKeys;
      var (first, rest) := (a[0], a[1..]);
      ReplayableAppend(rest, b);
      ReplayableFirst(first, rest);
      ReplayableFirst(first, rest + b);
      assert a == [first] + rest && a + b == [first] + (rest + b);
      Associative(if ValidKeys(first) then [first] else [], Replayable(rest), Replayable(b));
    }
  }

  lemma Associative(a: seq<Json>, b: seq<Json>, c: seq<Json>)
    ensures a + (b + c) == a + b + c
  {
  }

  // The events a replay may fold: the replayable rows of the complete lines.
  function Events(c: Codec, b: string): seq<Json> {
    Replayable(Rows(c, b[..PrefixEnd(b)]))
  }

  function Fold(r: Reducer, state: Json, events: seq<Json>): Json
    decreases |events|
  {
    if events == [] then state else Fold(r, r.step(state, events[0]), events[1..])
  }

  lemma {:induction false} FoldAppend(r: Reducer, state: Json, a: seq<Json>, b: seq<Json>)
    ensures Fold(r, state, a + b) == Fold(r, Fold(r, state, a), b)
    decreases |a|
  {
    if a == [] {
      assert a + b == b;
    } else {
      FoldAppend(r, r.step(state, a[0]), a[1..], b);
      assert (a + b)[1..] == a[1..] + b;
    }
  }

  // First occurrence of every id; events without one are all kept.
  function Dedup(c: Codec, events: seq<Json>, seen: set<Text>): seq<Json> {
    if events == [] then []
    else if c.id(events[0]) != [] && c.id(events[0]) in seen then Dedup(c, events[1..], seen)
    else [events[0]] + Dedup(c, events[1..], seen + IdOf(c, events[0]))
  }

  // No event repeats an id that came before it.
  predicate NoRepeats(c: Codec, events: seq<Json>, seen: set<Text>) {
    events != [] ==>
      (c.id(events[0]) == [] || c.id(events[0]) !in seen) && NoRepeats(c, events[1..], seen + IdOf(c, events[0]))
  }

  lemma {:induction false} DedupAppend(c: Codec, a: seq<Json>, b: seq<Json>, seen: set<Text>)
    ensures Dedup(c, a + b, seen) == Dedup(c, a, seen) + Dedup(c, b, seen + Ids(c, a))
  {
    if a == [] {
      assert a + b == b && seen + Ids(c, a) == seen;
    } else {
      assert (a + b)[1..] == a[1..] + b;
      if c.id(a[0]) != [] && c.id(a[0]) in seen {
        DedupAppend(c, a[1..], b, seen);
        assert seen + Ids(c, a) == seen + Ids(c, a[1..]);
      } else {
        DedupAppend(c, a[1..], b, seen + IdOf(c, a[0]));
        assert seen + Ids(c, a) == seen + IdOf(c, a[0]) + Ids(c, a[1..]);
      }
    }
  }

  // Deduplication removes something exactly when something is repeated.
  lemma {:induction false} DedupRemovesRepeats(c: Codec, events: seq<Json>, seen: set<Text>)
    ensures |Dedup(c, events, seen)| <= |events|
    ensures |Dedup(c, events, seen)| == |events| <==> NoRepeats(c, events, seen)
    ensures NoRepeats(c, events, seen) ==> Dedup(c, events, seen) == events
  {
    if events != [] {
      if c.id(events[0]) != [] && c.id(events[0]) in seen {
        DedupRemovesRepeats(c, events[1..], seen);
      } else {
        DedupRemovesRepeats(c, events[1..], seen + IdOf(c, events[0]));
      }
    }
  }

  lemma {:induction false} NoRepeatsAppend(c: Codec, a: seq<Json>, b: seq<Json>, seen: set<Text>)
    ensures NoRepeats(c, a + b, seen) <==> NoRepeats(c, a, seen) && NoRepeats(c, b, seen + Ids(c, a))
  {
    if a == [] {
      assert a + b == b && seen + Ids(c, a) == seen;
    } else {
      assert (a + b)[1..] == a[1..] + b;
      NoRepeatsAppend(c, a[1..], b, seen + IdOf(c, a[0]));
      assert seen + Ids(c, a) == seen + IdOf(c, a[0]) + Ids(c, a[1..]);
    }
  }

  /******* The two replays *******/

  function Full(c: Codec, r: Reducer, b: string): Ledger {
    var events := Dedup(c, Events(c, b), {});
    Ledger(Fold(r, r.empty, events), PrefixEnd(b), TailFingerprint(b, PrefixEnd(b)), |events|)
  }

  // A checkpoint is resumed when the stream still ends a line of the same text at its offset.
  predicate Resumable(l: Ledger, b: string) {
    l.offset <= |b| && TailFingerprint(b, l.offset) == l.hash
  }

  function Resumed(c: Codec, r: Reducer, l: Ledger, b: string): Ledger
    requires l.offset <= |b|
  {
    var events := Events(c, b[l.offset..]);
    Ledger(Fold(r, l.state, events), PrefixEnd(b), TailFingerprint(b, PrefixEnd(b)), l.replayed + |events|)
  }

  function Replayed(c: Codec, r: Reducer, l: Option<Ledger>, b: string, full: bool): Ledger {
    if !full && l.Some? && Resumable(l.value, b) then Resumed(c, r, l.value, b) else Full(c, r, b)
  }

  // `_replay_into`: reduce every complete line from `offset`, dropping repeats if asked to.
  method ReplayInto(c: Codec, r: Reducer, b: string, offset: nat, start: Json, replayed: nat, dedup: bool)
    returns (state: Json, end: nat, count: nat)
    requires CodecOk(c) && offset <= |b|
    ensures var events := Events(c, b[offset..]);
            var kept := if dedup then Dedup(c, events, {}) else events;
            state == Fold(r, start, kept) && count == replayed + |kept|
    ensures end == offset + PrefixEnd(b[offset..])
  {
    hide Rows, Ids, LineEnd, PrefixEnd, ValidKeys, Replayable, Dedup, Fold;
    var seen: set<Text> := {};
    ghost var text, done := b[offset..], [];
    state, end, count := start, offset, replayed;
    ReplayStarts(c, r, start);
    assert text[..0] == "";
    while end < |b| && LineEnd(b[end..]) < |b| - end
      invariant offset <= end <= |b|
      invariant Closed(text[..end - offset])
      invariant done == Replayable(Rows(c, text[..end - offset]))
      invariant dedup ==> seen == Ids(c, done)
      invariant var kept := if dedup then Dedup(c, done, {}) else done;
                state == Fold(r, start, kept) && count == replayed + |kept|
    {
      var n := LineEnd(b[end..]);
      var record := c.parse(b[end..][..n]);
      LineReplayed(c, text, end - offset, n);
      assert b[end..] == text[end - offset..];
      if record.Some? && ValidKeys(record.value) {
        var event := record.value;
        EventReplayed(c, r, start, done, event, dedup);
        if !(dedup && c.id(event) != [] && c.id(event) in seen) {
          state, count := r.step(state, event), count + 1;
        }
        seen := seen + IdOf(c, event);
        done := done + [event];
      }
      end := end + n + 1;
    }
    ReplayEnds(c, text, end - offset);
  }

  lemma ReplayStarts(c: Codec, r: Reducer, start: Json)
    requires CodecOk(c)
    ensures Replayable(Rows(c, "")) == [] && Ids(c, []) == {} && Dedup(c, [], {}) == [] && Fold(r, start, []) == start
  {
  }

  function EventOf(c: Codec, line: string): seq<Json> {
    match c.parse(line)
    case Some(v) => if ValidKeys(v) then [v] else []
    case None => []
  }

  lemma LineReplayed(c: Codec, b: string, end: nat, n: nat)
    requires CodecOk(c) && end < |b| && Closed(b[..end]) && n == LineEnd(b[end..]) < |b| - end
    ensures Closed(b[..end + n + 1])
    ensures Replayable(Rows(c, b[..end + n + 1])) ==
            Replayable(Rows(c, b[..end])) + EventOf(c, b[end..][..n])
  {
    hide Rows, LineEnd;
    var line := b[end..][..n];
    LineEndSpec(b[end..]);
    assert b[end..][n] == '\n' == b[end + n];
    assert b[..end + n + 1] == b[..end] + (line + "\n");
    RowsOfLine(c, line);
    RowsAppend(c, b[..end], line + "\n");
    ReplayableAppend(Rows(c, b[..end]), Visible(c, line));
  }

  lemma EventReplayed(c: Codec, r: Reducer, start: Json, done: seq<Json>, event: Json, dedup: bool)
    ensures Ids(c, done + [event]) == Ids(c, done) + IdOf(c, event)
    ensures var kept := if dedup then Dedup(c, done, {}) else done;
            var kept' := if dedup then Dedup(c, done + [event], {}) else done + [event];
            if dedup && c.id(event) != [] && c.id(event) in Ids(c, done)
            then kept' == kept
            else kept' == kept + [event] && Fold(r, start, kept') == r.step(Fold(r, start, kept), event)
  {
    IdsAppend(c, done, [event]);
    assert Ids(c, [event]) == IdOf(c, event) + Ids(c, []);
    DedupAppend(c, done, [event], {});
    assert {} + Ids(c, done) == Ids(c, done);
    FoldAppend(r, start, if dedup then Dedup(c, done, {}) else done, [event]);
    assert [event][1..] == [];
  }

  lemma ReplayEnds(c: Codec, b: string, end: nat)
    requires end <= |b| && Closed(b[..end])
    requires end == |b| || LineEnd(b[end..]) == |b| - end
    ensures PrefixEnd(b) == end
  {
    if end < |b| {
      LineEndSpec(b[end..]);
      assert forall i :: end <= i < |b| ==> b[i] == b[end..][i - end];
    }
    PrefixEndUnique(b, end);
  }

  // Bring the ledger up to the complete prefix of the stream.
  method ReplayLedger(c: Codec, r: Reducer, b: string, ledger: Option<Ledger>, full: bool) returns (l: Ledger)
    requires CodecOk(c)
    requires ledger.Some? ==> ledger.value.hash != Unterminated
    ensures l == Replayed(c, r, ledger, b, full)
    ensures l.offset == PrefixEnd(b) && l.hash != Unterminated
  {
    PrefixEndSpec(b);
    FingerprintCloses(b, PrefixEnd(b));
    if ledger.Some? && Resumable(ledger.value, b) {
      FingerprintCloses(b, ledger.value.offset);
    }
    hide Rows, Events, PrefixEnd, LastLine;
    var state, end, count;
    if !full && ledger.Some? && Resumable(ledger.value, b) {
      var o := ledger.value.offset;
      state, end, count := ReplayInto(c, r, b, o, ledger.value.state, ledger.value.replayed, false);
      SuffixPrefixEnd(b, o);
    } else {
      state, end, count := ReplayInto(c, r, b, 0, r.empty, 0, true);
      assert b[0..] == b;
    }
    l := Ledger(state, end, TailFingerprint(b, end), count);
  }

  lemma SuffixPrefixEnd(b: string, offset: nat)
    requires offset <= |b| && Closed(b[..offset])
    ensures PrefixEnd(b) == offset + PrefixEnd(b[offset..])
  {
    var n := PrefixEnd(b[offset..]);
    PrefixEndSpec(b[offset..]);
    assert b[..offset + n] == b[..offset] + b[offset..][..n];
    assert forall i :: offset + n <= i < |b| ==> b[i] == b[offset..][i - offset];
    PrefixEndUnique(b, offset + n);
  }

  // A prefix has a line's fingerprint exactly when it ends with a newline, or is empty.
  lemma FingerprintCloses(b: string, offset: nat)
    requires offset <= |b|
    ensures TailFingerprint(b, offset) == Unterminated <==> !Closed(b[..offset])
  {
  }

  function Suffix(s: string, n: nat): string {
    if |s| <= n then s else s[|s| - n..]
  }

  // As much of a line as the fingerprint sees.
  function Window(line: string): string {
    Suffix(line, FINGERPRINT_BYTES - 1)
  }

  lemma ChunkIsSuffix(whole: string)
    ensures var prefix := whole + "\n";
            var chunk := if |prefix| > FINGERPRINT_BYTES then prefix[|prefix| - FINGERPRINT_BYTES..] else prefix;
            chunk == Suffix(whole, FINGERPRINT_BYTES - 1) + "\n"
  {
  }

  lemma FingerprintOfBody(whole: string)
    ensures var body := Suffix(whole, FINGERPRINT_BYTES - 1);
            TailFingerprint(whole + "\n", |whole| + 1) == LineHash(body[PrefixEnd(body)..])
  {
    hide PrefixEnd, Suffix;
    ChunkIsSuffix(whole);
    var prefix, body := whole + "\n", Suffix(whole, FINGERPRINT_BYTES - 1);
    assert prefix[..|prefix|] == prefix && (body + "\n")[..|body|] == body;
  }

  lemma SuffixOfLine(b: string, line: string, n: nat)
    requires Closed(b)
    ensures var k := if |line| >= n then 0 else |Suffix(b, n - |line|)|;
            k <= |Suffix(b + line, n)| && Suffix(b + line, n)[k..] == Suffix(line, n) && Closed(Suffix(b + line, n)[..k])
  {
    var whole := b + line;
    if |line| >= n {
      assert Suffix(whole, n) == Suffix(line, n);
    } else {
      assert Suffix(whole, n) == Suffix(b, n - |line|) + line;
    }
  }

  lemma FingerprintIsLastLine(b: string, line: string)
    requires Closed(b) && '\n' !in line
    ensures TailFingerprint(b + line + "\n", |b + line + "\n"|) == LineHash(Window(line))
  {
    hide PrefixEnd, Suffix, LastLine;
    var n := FINGERPRINT_BYTES - 1;
    var body, k := Suffix(b + line, n), if |line| >= n then 0 else |Suffix(b, n - |line|)|;
    FingerprintOfBody(b + line);
    SuffixOfLine(b, line, n);
    NoLineBreak(line, n);
    assert forall i :: k <= i < |body| ==> body[i] == Suffix(line, n)[i - k];
    PrefixEndUnique(body, k);
  }

  lemma NoLineBreak(line: string, n: nat)
    requires '\n' !in line
    ensures '\n' !in Suffix(line, n)
  {
  }

  // A ledger is resumed on a stream of which as much had been read exactly when the line that ends there is the one
  // it ended with, as far as the fingerprint sees; after any other rewrite everything is replayed.
  lemma ResumedIffSameLine(c: Codec, r: Reducer, a: string, line: string, b: string, other: string, rest: string)
    requires CodecOk(c) && Closed(a) && Closed(b) && '\n' !in line && '\n' !in other && |a| + |line| == |b| + |other|
    ensures Resumable(Full(c, r, a + line + "\n"), b + other + "\n" + rest) <==> Window(line) == Window(other)
  {
    hide Events, Dedup, Fold, PrefixEnd, LastLine;
    var before, after := a + line + "\n", b + other + "\n";
    assert (after + rest)[..|after|] == after && after[..|after|] == after;
    ClosedPrefixEnd(before);
    FingerprintIsLastLine(a, line);
    FingerprintIsLastLine(b, other);
  }

  /******* Incremental replay against full replay *******/

  lemma ClosedPrefixEnd(b: string)
    requires Closed(b)
    ensures PrefixEnd(b) == |b|
  {
  }

  lemma EventsSplit(c: Codec, b: string, o: nat)
    requires CodecOk(c) && o <= |b| && Closed(b[..o])
    ensures Events(c, b) == Events(c, b[..o]) + Events(c, b[o..])
    ensures PrefixEnd(b[..o]) == o && PrefixEnd(b) == o + PrefixEnd(b[o..])
  {
    hide Rows, PrefixEnd, Replayable, Closed;
    var n := PrefixEnd(b[o..]);
    SuffixPrefixEnd(b, o);
    ClosedPrefixEnd(b[..o]);
    assert b[..o][..o] == b[..o];
    assert b[..PrefixEnd(b)] == b[..o] + b[o..][..n];
    RowsAppend(c, b[..o], b[o..][..n]);
    ReplayableAppend(Rows(c, b[..o]), Rows(c, b[o..][..n]));
  }

  // Resuming the ledger of a prefix gives the ledger of the whole stream if and only if none of the
  // events after the checkpoint repeats an id from before it or from among themselves.
  lemma ResumeIsFull(c: Codec, r: Reducer, b: string, o: nat)
    requires CodecOk(c) && o <= |b| && Closed(b[..o])
    ensures Resumable(Full(c, r, b[..o]), b)
    ensures Resumed(c, r, Full(c, r, b[..o]), b) == Full(c, r, b) <==>
            NoRepeats(c, Events(c, b[o..]), Ids(c, Events(c, b[..o])))
  {
    hide Events, PrefixEnd, LastLine, Dedup, Fold, NoRepeats, Ids;
    var old_, new_ := Events(c, b[..o]), Events(c, b[o..]);
    var seen := Ids(c, old_);
    EventsSplit(c, b, o);
    assert b[..o][..o] == b[..o];
    DedupAppend(c, old_, new_, {});
    assert {} + seen == seen;
    DedupRemovesRepeats(c, new_, seen);
    FoldAppend(r, r.empty, Dedup(c, old_, {}), Dedup(c, new_, seen));
  }

  // An event that is appended twice: resuming between the two folds it once more than the full replay.
  lemma RepeatIsFoldedTwice(c: Codec, r: Reducer, v: Json)
    requires CodecOk(c) && c.accepts(v) && ValidKeys(v) && c.id(v) != []
    ensures var line := c.encode(v) + "\n";
            Resumed(c, r, Full(c, r, line), line + line) != Full(c, r, line + line)
  {
    var (line, o) := (c.encode(v) + "\n", |c.encode(v)| + 1);
    OneEvent(c, v);
    assert (line + line)[..o] == line && (line + line)[o..] == line;
    hide Events, Resumed, Full, PrefixEnd;
    ResumeIsFull(c, r, line + line, o);
    assert Ids(c, [v]) == IdOf(c, v) + Ids(c, [v][1..]);
  }

  lemma OneEvent(c: Codec, v: Json)
    requires CodecOk(c) && c.accepts(v) && ValidKeys(v)
    ensures Events(c, c.encode(v) + "\n") == [v] && Closed(c.encode(v) + "\n")
  {
    hide Rows, PrefixEnd, ValidKeys;
    var line := c.encode(v) + "\n";
    assert CodecOkFor(c, v);
    ClosedPrefixEnd(line);
    assert line[..|line|] == line;
    RowsOfLine(c, c.encode(v));
    assert Visible(c, c.encode(v)) == [v];
    var none := [v][1..];
    assert none == [] && Replayable(none) == [];
    assert Replayable([v]) == [v] + Replayable(none) == [v];
  }

  // Such an event: an object with nothing but a record id.
  lemma SomeEventRepeats(r: Reducer)
    ensures exists v :: JSON_CODEC.accepts(v) && ValidKeys(v) && JSON_CODEC.id(v) != []
                        && var line := JSON_CODEC.encode(v) + "\n";
                           Resumed(JSON_CODEC, r, Full(JSON_CODEC, r, line), line + line) != Full(JSON_CODEC, r, line + line)
  {
    var v := Obj(Member(Ascii("record_id"), Str(Ascii("a")), NoMembers));
    JsonCodecOk();
    OnlyAnId(v);
    hide ValidKeys, Resumed, Full;
    RepeatIsFoldedTwice(JSON_CODEC, r, v);
  }

  lemma OnlyAnId(v: Json)
    requires v == Obj(Member(Ascii("record_id"), Str(Ascii("a")), NoMembers))
    ensures JSON_CODEC.accepts(v) && ValidKeys(v) && JSON_CODEC.id(v) != []
  {
    forall i | 0 <= i < |KEY_FIELDS| ensures Lookup(v.members, KEY_FIELDS[i]).None? {
      assert KEY_FIELDS[i] != Ascii("record_id") by {
        assert Ascii("record_id")[2] == 'c' as int;
        assert |Ascii("record_id")| == 9;
      }
    }
    assert Lookup(NoMembers, Ascii("record_id")) == None;
    assert Lookup(v.members, Ascii("record_id")) == Some(Str(Ascii("a"))) && |Ascii("a")| == 1;
  }

  /******* Which lines are folded *******/

  // The last member of this name, if there is one, is null or a string.
  predicate Clean(row: Json, field: string)
    requires forall i :: 0 <= i < |field| ==> field[i] < 128 as char
  {
    row.Obj? ==>
      var ps := Pairs(row.members);
      forall i :: 0 <= i < |ps| && ps[i].0 == Ascii(field) && IsLast(ps, i) ==> ps[i].1 == Null || ps[i].1.Str?
  }

  // Each of the five identifier members is absent, null or a string.
  predicate CleanRow(row: Json) {
    Clean(row, "run_id") && Clean(row, "task_id") && Clean(row, "decision_id") && Clean(row, "workstream_id") && Clean(row, "resource")
  }

  lemma ValidIffClean(row: Json)
    ensures ValidKeys(row) <==> CleanRow(row)
  {
    hide Clean;
    if row.Obj? {
      KeyIsClean(row, "run_id");
      KeyIsClean(row, "task_id");
      KeyIsClean(row, "decision_id");
      KeyIsClean(row, "workstream_id");
      KeyIsClean(row, "resource");
      assert KEY_FIELDS[0] == Ascii("run_id") && KEY_FIELDS[1] == Ascii("task_id") && KEY_FIELDS[2] == Ascii("decision_id")
             && KEY_FIELDS[3] == Ascii("workstream_id") && KEY_FIELDS[4] == Ascii("resource");
    } else {
      CleanUnlessObject(row);
    }
  }

  lemma CleanUnlessObject(row: Json)
    ensures !row.Obj? ==> CleanRow(row)
  {
  }

  lemma KeyIsClean(row: Json, field: string)
    requires row.Obj? && forall i :: 0 <= i < |field| ==> field[i] < 128 as char
    ensures Clean(row, field) <==>
            match Lookup(row.members, Ascii(field))
            case Some(v) => v.Null? || v.Str?
            case None => true
  {
    hide Ascii, Lookup;
    var ps, key := Pairs(row.members), Ascii(field);
    LookupIsLast(row.members, key);
    if Lookup(row.members, key).Some? {
      var i :| 0 <= i < |ps| && ps[i] == (key, Lookup(row.members, key).value) && IsLast(ps, i);
      forall j | 0 <= j < |ps| && ps[j].0 == key && IsLast(ps, j) ensures j == i {
        LastIsUnique(ps, i, j);
      }
    }
  }

  lemma {:induction false} IdSeen(c: Codec, rows: seq<Json>, id: Text)
    requires id != []
    ensures id in Ids(c, Replayable(rows)) <==> exists i :: 0 <= i < |rows| && CleanRow(rows[i]) && c.id(rows[i]) == id
  {
    hide CleanRow, ValidKeys;
    if rows != [] {
      var rest := rows[1..];
      IdSeen(c, rest, id);
      ValidIffClean(rows[0]);
      IdsAppend(c, if ValidKeys(rows[0]) then [rows[0]] else [], Replayable(rest));
      OneId(c, rows[0]);
      if i :| 0 <= i < |rest| && CleanRow(rest[i]) && c.id(rest[i]) == id {
        assert rows[i + 1] == rest[i];
      }
      if i :| 0 < i < |rows| && CleanRow(rows[i]) && c.id(rows[i]) == id {
        assert rest[i - 1] == rows[i];
      }
    }
  }

  lemma OneId(c: Codec, row: Json)
    ensures Ids(c, [row]) == IdOf(c, row) && Ids(c, []) == {}
  {
    assert [row][1..] == [];
  }

  // What one more line does to the full replay: an object whose identifiers are clean, and whose id no clean
  // row had before, is folded once and counted once; any other line leaves the state and the count alone.
  lemma LineIsFolded(c: Codec, r: Reducer, b: string, line: string)
    requires CodecOk(c) && Closed(b) && '\n' !in line
    ensures var (before, after, v, rows) := (Full(c, r, b), Full(c, r, b + line + "\n"), c.parse(line), Rows(c, b));
            && after.offset == |b + line + "\n"|
            && if v.Some? && CleanRow(v.value)
                  && (c.id(v.value) == [] || forall i :: 0 <= i < |rows| && CleanRow(rows[i]) ==> c.id(rows[i]) != c.id(v.value))
               then after.state == r.step(before.state, v.value) && after.replayed == before.replayed + 1
               else after.state == before.state && after.replayed == before.replayed
  {
    hide Rows, Events, Dedup, Fold, PrefixEnd, LastLine, CleanRow, ValidKeys, Ids;
    var v := c.parse(line);
    var before, more := Events(c, b), EventOf(c, line);
    LineEvents(c, b, line);
    DedupAppend(c, before, more, {});
    assert {} + Ids(c, before) == Ids(c, before);
    FoldAppend(r, r.empty, Dedup(c, before, {}), Dedup(c, more, Ids(c, before)));
    OneDedup(c, r, more, Ids(c, before), Fold(r, r.empty, Dedup(c, before, {})));
    if v.Some? {
      ValidIffClean(v.value);
      if c.id(v.value) != [] {
        IdSeen(c, Rows(c, b), c.id(v.value));
      }
    }
  }

  // Resuming at the end of the lines before it folds a clean one whatever its id.
  lemma LineIsResumed(c: Codec, r: Reducer, b: string, line: string, l: Ledger)
    requires CodecOk(c) && Closed(b) && '\n' !in line && l.offset == |b|
    ensures var (after, v) := (Resumed(c, r, l, b + line + "\n"), c.parse(line));
            if v.Some? && CleanRow(v.value) then after.state == r.step(l.state, v.value) && after.replayed == l.replayed + 1
            else after.state == l.state && after.replayed == l.replayed
  {
    hide Rows, Events, Fold, PrefixEnd, LastLine, CleanRow, ValidKeys;
    var text, v := b + line + "\n", c.parse(line);
    LineEvents(c, b, line);
    assert text[l.offset..] == line + "\n";
    OneFold(r, l.state, EventOf(c, line));
    if v.Some? {
      ValidIffClean(v.value);
    }
  }

  lemma OneFold(r: Reducer, state: Json, events: seq<Json>)
    requires |events| <= 1
    ensures Fold(r, state, events) == if events == [] then state else r.step(state, events[0])
  {
  }

  lemma OneDedup(c: Codec, r: Reducer, events: seq<Json>, seen: set<Text>, state: Json)
    requires |events| <= 1
    ensures var kept := if events != [] && c.id(events[0]) != [] && c.id(events[0]) in seen then [] else events;
            Dedup(c, events, seen) == kept && Fold(r, state, kept) == if kept == [] then state else r.step(state, kept[0])
  {
    if events != [] {
      assert events[1..] == [] && [events[0]] + [] == events;
    }
  }

  lemma LineEvents(c: Codec, b: string, line: string)
    requires CodecOk(c) && Closed(b) && '\n' !in line
    ensures Events(c, b + line + "\n") == Events(c, b) + EventOf(c, line) && Events(c, line + "\n") == EventOf(c, line)
    ensures Events(c, b) == Replayable(Rows(c, b))
    ensures PrefixEnd(b + line + "\n") == |b + line + "\n"|
  {
    hide Rows, PrefixEnd, Replayable, ValidKeys;
    var tail := line + "\n";
    assert Closed(tail) && Closed(b + tail) && b + tail == b + line + "\n";
    ClosedPrefixEnd(b);
    ClosedPrefixEnd(tail);
    ClosedPrefixEnd(b + tail);
    assert b[..|b|] == b && tail[..|tail|] == tail && (b + tail)[..|b + tail|] == b + tail;
    RowsAppend(c, b, tail);
    RowsOfLine(c, line);
    ReplayableAppend(Rows(c, b), Visible(c, line));
    VisibleEvents(c, line);
  }

  lemma VisibleEvents(c: Codec, line: string)
    ensures Replayable(Visible(c, line)) == EventOf(c, line)
  {
    hide ValidKeys;
    var v := c.parse(line);
    if v.Some? {
      ReplayableFirst(v.value, []);
      assert [v.value] + [] == [v.value];
    }
  }

  // The rows that are folded when no id repeats: those with clean identifiers.
  function Foldable(rows: seq<Json>): seq<Json> {
    if rows == [] then []
    else Foldable(rows[..|rows| - 1]) + if CleanRow(rows[|rows| - 1]) then [rows[|rows| - 1]] else []
  }

  lemma {:induction false} ReplayableIsFoldable(rows: seq<Json>)
    ensures Replayable(rows) == Foldable(rows)
  {
    hide ValidKeys, CleanRow;
    if rows != [] {
      var init, last := rows[..|rows| - 1], rows[|rows| - 1];
      ReplayableIsFoldable(init);
      assert rows == init + [last];
      ReplayableAppend(init, [last]);
      ReplayableFirst(last, []);
      assert [last] + [] == [last];
      ValidIffClean(last);
    }
  }

  lemma {:induction false} FoldableAre(rows: seq<Json>, row: Json)
    ensures row in Foldable(rows) <==> row in rows && CleanRow(row)
  {
    hide CleanRow;
    if rows != [] {
      var init, last := rows[..|rows| - 1], rows[|rows| - 1];
      FoldableAre(init, row);
      assert rows == init + [last];
    }
  }

  // With no repeated id, the full replay folds each clean row of the complete lines, in order and once.
  lemma FullFoldsCleanRows(c: Codec, r: Reducer, b: string)
    requires NoRepeats(c, Events(c, b), {})
    ensures var events := Foldable(Rows(c, b[..PrefixEnd(b)]));
            Full(c, r, b).state == Fold(r, r.empty, events) && Full(c, r, b).replayed == |events|
  {
    hide Rows, PrefixEnd, Fold, Foldable;
    ReplayableIsFoldable(Rows(c, b[..PrefixEnd(b)]));
    DedupRemovesRepeats(c, Events(c, b), {});
  }

  // The ledger after catching up with each snapshot of a growing stream in turn.
  function CatchUp(c: Codec, r: Reducer, l: Ledger, snapshots: seq<string>): Ledger
    decreases |snapshots|
  {
    if snapshots == [] then l
    else CatchUp(c, r, Replayed(c, r, Some(l), snapshots[0], false), snapshots[1..])
  }

  predicate Growing(b: string, snapshots: seq<string>)
    decreases |snapshots|
  {
    snapshots != [] ==> b <= snapshots[0] && Growing(snapshots[0], snapshots[1..])
  }

  function LastOf(b: string, snapshots: seq<string>): string {
    if snapshots == [] then b else snapshots[|snapshots| - 1]
  }

  lemma {:induction false} GrowingReaches(b: string, snapshots: seq<string>)
    requires Growing(b, snapshots)
    ensures b <= LastOf(b, snapshots)
    decreases |snapshots|
  {
    if snapshots != [] {
      GrowingReaches(snapshots[0], snapshots[1..]);
      assert LastOf(snapshots[0], snapshots[1..]) == LastOf(b, snapshots);
    }
  }

  // However the appends are chunked, the ledger ends as a replay of the whole stream from byte 0,
  // provided the stream it ends on repeats no id.
  lemma {:induction false} CatchUpIsFull(c: Codec, r: Reducer, b: string, snapshots: seq<string>)
    requires CodecOk(c) && Growing(b, snapshots)
    requires NoRepeats(c, Events(c, LastOf(b, snapshots)), {})
    ensures CatchUp(c, r, Full(c, r, b), snapshots) == Full(c, r, LastOf(b, snapshots))
    decreases |snapshots|
  {
    hide Events, PrefixEnd, LastLine, Full, NoRepeats, Ids, Resumed;
    if snapshots != [] {
      var next := snapshots[0];
      GrowingReaches(next, snapshots[1..]);
      assert LastOf(next, snapshots[1..]) == LastOf(b, snapshots);
      OneCatchUp(c, r, b, next, LastOf(b, snapshots));
      CatchUpIsFull(c, r, next, snapshots[1..]);
    }
  }

  lemma OneCatchUp(c: Codec, r: Reducer, b: string, next: string, last: string)
    requires CodecOk(c) && b <= next <= last && NoRepeats(c, Events(c, last), {})
    ensures Replayed(c, r, Some(Full(c, r, b)), next, false) == Full(c, r, next)
  {
    hide Events, LastLine, Dedup, Fold, NoRepeats, Ids, PrefixEnd, Resumed;
    var o, e := PrefixEnd(b), PrefixEnd(next);
    PrefixEndSpec(b);
    PrefixEndSpec(next);
    FullOfPrefix(c, r, b);
    assert next[..o] == b[..o] && last[..e] == next[..e];
    EventsSplit(c, next, o);
    EventsSplit(c, last, e);
    EventsOfPrefix(c, next);
    NoRepeatsAppend(c, Events(c, last[..e]), Events(c, last[e..]), {});
    NoRepeatsAppend(c, Events(c, next[..o]), Events(c, next[o..]), {});
    assert {} + Ids(c, Events(c, next[..o])) == Ids(c, Events(c, next[..o]));
    ResumeIsFull(c, r, next, o);
  }

  lemma EventsOfPrefix(c: Codec, b: string)
    requires CodecOk(c)
    ensures PrefixEnd(b[..PrefixEnd(b)]) == PrefixEnd(b) && Events(c, b[..PrefixEnd(b)]) == Events(c, b)
  {
    var n := PrefixEnd(b);
    PrefixEndSpec(b);
    assert b[..n][..n] == b[..n];
    PrefixEndUnique(b[..n], n);
  }

  lemma FullOfPrefix(c: Codec, r: Reducer, b: string)
    requires CodecOk(c)
    ensures Full(c, r, b[..PrefixEnd(b)]) == Full(c, r, b)
  {
    EventsOfPrefix(c, b);
    assert b[..PrefixEnd(b)][..PrefixEnd(b)] == b[..PrefixEnd(b)];
  }
}
