/**
 An append-only JSONL stream, byte by byte. A stream shows the rows of its complete lines and, when
 its last line is a whole object that lacks only the newline, that row too. Everything a torn append
 can leave behind is a cut of the payload, and a cut only ever shows a prefix of the appended rows.
 */
module Jsonl {
  import opened Wrappers
  import opened Json

  // The printer, the parser, the objects they are used on and the ids those carry. `JSON_CODEC` is the
  // one in use; the theorems need no more of a codec than `CodecOk`.
  datatype Codec = Codec(
    encode: Json -> string,
    parse: string -> Option<Json>,
    accepts: Json -> bool,
    id: Json -> Text)

  ghost predicate CodecOk(c: Codec) {
    && c.parse("").None?
    && (forall v {:trigger c.accepts(v)} :: c.accepts(v) ==> CodecOkFor(c, v))
  }

  ghost predicate CodecOkFor(c: Codec, v: Json) {
    && c.parse(c.encode(v)) == Some(v)
    && '\n' !in c.encode(v)
    && (forall k {:trigger c.encode(v)[..k]} :: 0 <= k < |c.encode(v)| ==> c.parse(c.encode(v)[..k]).None?)
  }

  const JSON_CODEC := Codec(v => Print(v), s => ParseObject(s), (v: Json) => v.Obj? && WellFormed(v), v => RecordId(v))

  lemma JsonCodecOk()
    ensures CodecOk(JSON_CODEC)
  {
    forall v | JSON_CODEC.accepts(v)
      ensures JSON_CODEC.parse(JSON_CODEC.encode(v)) == Some(v)
      ensures '\n' !in JSON_CODEC.encode(v)
    {
      ObjectRoundTrip(v);
      PrintIsPrintable(v);
    }
    forall v, k | JSON_CODEC.accepts(v) && 0 <= k < |JSON_CODEC.encode(v)|
      ensures JSON_CODEC.parse(JSON_CODEC.encode(v)[..k]).None?
    {
      NoStrictPrefix(v, k);
    }
  }

  /******* Record ids *******/

  function Ascii(s: string): Text
    requires forall i :: 0 <= i < |s| ==> s[i] < 128 as char
  {
    seq(|s|, i requires 0 <= i < |s| => s[i] as int)
  }

  // A repeated key keeps its last value, as a Python dict does.
  function Lookup(m: Members, key: Text): Option<Json> {
    match m
    case NoMembers => None
    case Member(k, v, rest) =>
      var later := Lookup(rest, key);
      if later.Some? then later else if k == key then Some(v) else None
  }

  // The row's id, or the empty text when it has none that could be indexed.
  function RecordId(row: Json): Text {
    if !row.Obj? then []
    else
      match Lookup(row.members, Ascii("record_id"))
      case Some(Str(s)) => s
      case _ => []
  }

  // Only a non-empty id is ever indexed.
  function IdOf(c: Codec, row: Json): set<Text> {
    if c.id(row) == [] then {} else {c.id(row)}
  }

  function Ids(c: Codec, rows: seq<Json>): set<Text> {
    if rows == [] then {} else IdOf(c, rows[0]) + Ids(c, rows[1..])
  }

  function Count(c: Codec, rows: seq<Json>, id: Text): nat {
    if rows == [] then 0 else (if c.id(rows[0]) == id then 1 else 0) + Count(c, rows[1..], id)
  }

  lemma {:induction false} CountAppend(c: Codec, a: seq<Json>, b: seq<Json>, id: Text)
    ensures Count(c, a + b, id) == Count(c, a, id) + Count(c, b, id)
  {
    if a == [] {
      assert a + b == b;
    } else {
      CountAppend(c, a[1..], b, id);
      assert (a + b)[1..] == a[1..] + b;
    }
  }

  lemma {:induction false} CountIds(c: Codec, rows: seq<Json>, id: Text)
    requires id != []
    ensures Count(c, rows, id) > 0 <==> id in Ids(c, rows)
  {
    if rows != [] {
      CountIds(c, rows[1..], id);
    }
  }

  lemma {:induction false} IdsAppend(c: Codec, a: seq<Json>, b: seq<Json>)
    ensures Ids(c, a + b) == Ids(c, a) + Ids(c, b)
  {
    if a == [] {
      assert a + b == b;
    } else {
      IdsAppend(c, a[1..], b);
      assert (a + b)[1..] == a[1..] + b;
    }
  }

  // The members of an object in the order they are written.
  function Pairs(m: Members): seq<(Text, Json)> {
    match m
    case NoMembers => []
    case Member(k, v, rest) => [(k, v)] + Pairs(rest)
  }

  // The i-th member is the last one of its name, so it is the one that counts.
  predicate IsLast(ps: seq<(Text, Json)>, i: nat)
    requires i < |ps|
  {
    forall j :: i < j < |ps| ==> ps[j].0 != ps[i].0
  }

  lemma {:induction false} LookupIsLast(m: Members, key: Text)
    ensures Lookup(m, key).None? ==> forall p :: p in Pairs(m) ==> p.0 != key
    ensures Lookup(m, key).Some? ==> exists i :: 0 <= i < |Pairs(m)| && Pairs(m)[i] == (key, Lookup(m, key).value) && IsLast(Pairs(m), i)
  {
    if m.Member? {
      LookupIsLast(m.rest, key);
      var ps, later := Pairs(m), Pairs(m.rest);
      assert forall i :: 0 < i < |ps| ==> ps[i] == later[i - 1];
      if Lookup(m.rest, key).Some? {
        var i :| 0 <= i < |later| && later[i] == (key, Lookup(m.rest, key).value) && IsLast(later, i);
        assert ps[i + 1] == (key, Lookup(m.rest, key).value) && IsLast(ps, i + 1);
      } else {
        assert forall i :: 0 < i < |ps| ==> ps[i] in later;
        assert m.key == key ==> ps[0] == (key, m.value) && IsLast(ps, 0);
      }
    }
  }

  lemma LastIsUnique(ps: seq<(Text, Json)>, i: nat, j: nat)
    requires i < |ps| && j < |ps| && ps[i].0 == ps[j].0 && IsLast(ps, i) && IsLast(ps, j)
    ensures i == j
  {
  }

  // The row is an object whose last `record_id` is this string.
  predicate HasRecordId(row: Json, id: Text) {
    row.Obj? &&
    var ps := Pairs(row.members);
    exists i :: 0 <= i < |ps| && ps[i] == (Ascii("record_id"), Str(id)) && IsLast(ps, i)
  }

  lemma RecordIdIsTheLast(row: Json, id: Text)
    requires id != []
    ensures RecordId(row) == id <==> HasRecordId(row, id)
  {
    if row.Obj? {
      var ps, key, v := Pairs(row.members), Ascii("record_id"), Lookup(row.members, Ascii("record_id"));
      LookupIsLast(row.members, key);
      if v.Some? {
        var i :| 0 <= i < |ps| && ps[i] == (key, v.value) && IsLast(ps, i);
        assert v.value == Str(id) ==> HasRecordId(row, id);
        if HasRecordId(row, id) {
          var j :| 0 <= j < |ps| && ps[j] == (key, Str(id)) && IsLast(ps, j);
          LastIsUnique(ps, i, j);
        }
      }
    }
  }

  predicate Carries(rows: seq<Json>, id: Text) {
    exists i :: 0 <= i < |rows| && HasRecordId(rows[i], id)
  }

  // An id counts as held exactly when some row's last `record_id` is that very string.
  lemma {:induction false} HeldIffShown(rows: seq<Json>, id: Text)
    requires id != []
    ensures id in Ids(JSON_CODEC, rows) <==> Carries(rows, id)
  {
    hide HasRecordId, RecordId;
    if rows != [] {
      var rest := rows[1..];
      HeldIffShown(rest, id);
      RecordIdIsTheLast(rows[0], id);
      if i :| 0 <= i < |rest| && HasRecordId(rest[i], id) {
        assert rows[i + 1] == rest[i];
      }
      if i :| 0 < i < |rows| && HasRecordId(rows[i], id) {
        assert rest[i - 1] == rows[i];
      }
    }
  }

  /******* Lines *******/

  function LineEnd(b: string): (n: nat)
    ensures n <= |b|
  {
    if b == "" || b[0] == '\n' then 0 else 1 + LineEnd(b[1..])
  }

  lemma {:induction false} LineEndSpec(b: string)
    ensures forall i :: 0 <= i < LineEnd(b) ==> b[i] != '\n'
    ensures LineEnd(b) < |b| ==> b[LineEnd(b)] == '\n'
  {
    if b != "" && b[0] != '\n' {
      LineEndSpec(b[1..]);
      assert forall i :: 1 <= i < |b| ==> b[i] == b[1..][i - 1];
    }
  }

  lemma LineEndUnique(b: string, n: nat)
    requires n <= |b|
    requires forall i :: 0 <= i < n ==> b[i] != '\n'
    requires n < |b| ==> b[n] == '\n'
    ensures LineEnd(b) == n
  {
    LineEndSpec(b);
  }

  function Visible(c: Codec, line: string): seq<Json> {
    match c.parse(line)
    case Some(v) => [v]
    case None => []
  }

  function Rows(c: Codec, b: string): seq<Json>
    decreases |b|
  {
    var n := LineEnd(b);
    if n == |b| then Visible(c, b) else Visible(c, b[..n]) + Rows(c, b[n + 1..])
  }

  lemma NoRows(c: Codec)
    requires CodecOk(c)
    ensures Rows(c, "") == [] && Ids(c, []) == {}
  {
  }

  predicate Closed(b: string) {
    b == "" || b[|b| - 1] == '\n'
  }

  // The end of the complete lines.
  function PrefixEnd(b: string): (n: nat)
    ensures n <= |b|
  {
    if Closed(b) then |b| else PrefixEnd(b[..|b| - 1])
  }

  lemma {:induction false} PrefixEndSpec(b: string)
    ensures Closed(b[..PrefixEnd(b)])
    ensures forall i :: PrefixEnd(b) <= i < |b| ==> b[i] != '\n'
  {
    if Closed(b) {
      assert b[..|b|] == b;
    } else {
      PrefixEndSpec(b[..|b| - 1]);
      assert b[..|b| - 1][..PrefixEnd(b)] == b[..PrefixEnd(b)];
      assert forall i :: 0 <= i < |b| - 1 ==> b[i] == b[..|b| - 1][i];
    }
  }

  lemma PrefixEndUnique(b: string, n: nat)
    requires n <= |b| && Closed(b[..n])
    requires forall i :: n <= i < |b| ==> b[i] != '\n'
    ensures PrefixEnd(b) == n
  {
    PrefixEndSpec(b);
  }

  datatype Tail = NoTail | Complete | Fragment

  function TailOf(c: Codec, b: string): Tail {
    var n := PrefixEnd(b);
    if n == |b| then NoTail else if c.parse(b[n..]).Some? then Complete else Fragment
  }

  lemma RowsStep(c: Codec, b: string, n: nat)
    requires n <= |b| && (forall i :: 0 <= i < n ==> b[i] != '\n') && (n < |b| ==> b[n] == '\n')
    ensures Rows(c, b) == if n == |b| then Visible(c, b) else Visible(c, b[..n]) + Rows(c, b[n + 1..])
  {
    hide LineEnd;
    LineEndUnique(b, n);
  }

  lemma {:induction false} RowsAppend(c: Codec, a: string, b: string)
    requires CodecOk(c) && Closed(a)
    ensures Rows(c, a + b) == Rows(c, a) + Rows(c, b)
    decreases |a|
  {
    hide Rows, LineEnd, CodecOk, Visible;
    NoRows(c);
    if a == "" {
      assert a + b == b;
    } else {
      var n := LineEnd(a);
      LineEndSpec(a);
      assert n < |a|;
      RowsStep(c, a, n);
      RowsStep(c, a + b, n);
      assert (a + b)[..n] == a[..n] && (a + b)[n + 1..] == a[n + 1..] + b;
      RowsAppend(c, a[n + 1..], b);
      var (first, rest) := (Visible(c, a[..n]), Rows(c, a[n + 1..]));
      assert first + (rest + Rows(c, b)) == first + rest + Rows(c, b);
    }
  }

  // Ending a tail with a newline changes nothing a reader sees, whether or not the tail is a row.
  lemma {:induction false} RowsTerminate(c: Codec, b: string)
    requires CodecOk(c)
    ensures Rows(c, b + "\n") == Rows(c, b)
    decreases |b|
  {
    hide Rows, LineEnd, CodecOk, Visible;
    NoRows(c);
    var n := LineEnd(b);
    LineEndSpec(b);
    RowsStep(c, b, n);
    RowsStep(c, b + "\n", n);
    assert (b + "\n")[..n] == b[..n];
    if n == |b| {
      assert (b + "\n")[n + 1..] == "" && b[..n] == b;
      assert Visible(c, b) + [] == Visible(c, b);
    } else {
      assert (b + "\n")[n + 1..] == b[n + 1..] + "\n";
      RowsTerminate(c, b[n + 1..]);
    }
  }

  lemma RowsOfLine(c: Codec, line: string)
    requires CodecOk(c) && '\n' !in line
    ensures Rows(c, line) == Visible(c, line)
    ensures Rows(c, line + "\n") == Visible(c, line)
  {
    LineEndUnique(line, |line|);
    RowsTerminate(c, line);
  }

  // The tail contributes a row exactly when it is a complete object.
  lemma RowsOfTail(c: Codec, b: string)
    requires CodecOk(c)
    ensures Rows(c, b) == Rows(c, b[..PrefixEnd(b)]) + Visible(c, b[PrefixEnd(b)..])
    ensures TailOf(c, b) != Complete ==> Rows(c, b) == Rows(c, b[..PrefixEnd(b)])
  {
    var n := PrefixEnd(b);
    PrefixEndSpec(b);
    assert b == b[..n] + b[n..];
    RowsAppend(c, b[..n], b[n..]);
    RowsOfLine(c, b[n..]);
  }

  /******* The identity of a prefix *******/

  const FINGERPRINT_BYTES := 4096

  // The hash of the last complete line before the offset, seen through a bounded window.
  datatype Fingerprint = NoLine | Unterminated | LineHash(line: string)

  function TailFingerprint(b: string, offset: nat): Fingerprint
    requires offset <= |b|
  {
    if offset == 0 then NoLine else LastLine(b[..offset])
  }

  function LastLine(prefix: string): Fingerprint
    requires prefix != ""
  {
    var chunk := if |prefix| > FINGERPRINT_BYTES then prefix[|prefix| - FINGERPRINT_BYTES..] else prefix;
    if chunk[|chunk| - 1] != '\n' then Unterminated
    else
      var body := chunk[..|chunk| - 1];
      LineHash(body[PrefixEnd(body)..])
  }

  /******* Appends *******/

  function Payload(c: Codec, rows: seq<Json>): string {
    if rows == [] then "" else c.encode(rows[0]) + "\n" + Payload(c, rows[1..])
  }

  predicate Accepted(c: Codec, rows: seq<Json>) {
    forall r :: r in rows ==> c.accepts(r)
  }

  // How many of the rows the first `n` characters of their payload show.
  function Shown(c: Codec, rows: seq<Json>, n: nat): (k: nat)
    ensures k <= |rows|
  {
    if rows == [] then 0
    else
      var p := |c.encode(rows[0])|;
      if n < p then 0 else if n == p then 1 else 1 + Shown(c, rows[1..], n - p - 1)
  }

  lemma {:induction false} ShownMonotone(c: Codec, rows: seq<Json>, m: nat, n: nat)
    requires m <= n
    ensures Shown(c, rows, m) <= Shown(c, rows, n)
  {
    if rows != [] {
      var p := |c.encode(rows[0])|;
      if m > p {
        ShownMonotone(c, rows[1..], m - p - 1, n - p - 1);
      }
    }
  }

  // The first row of a payload is shown once all of it is there, with or without its newline.
  lemma FirstRowCut(c: Codec, row: Json, n: nat)
    requires CodecOk(c) && c.accepts(row) && n <= |c.encode(row)|
    ensures Rows(c, c.encode(row)[..n]) == if n == |c.encode(row)| then [row] else []
    ensures Rows(c, c.encode(row) + "\n") == [row]
  {
    hide Rows;
    var p := c.encode(row);
    assert CodecOkFor(c, row);
    assert p[..|p|] == p;
    RowsOfLine(c, p[..n]);
    RowsOfLine(c, p);
  }

  lemma PayloadSteps(c: Codec, rows: seq<Json>, n: nat)
    requires rows != [] && n <= |Payload(c, rows)|
    ensures var (p, rest) := (c.encode(rows[0]), Payload(c, rows[1..]));
            && |Payload(c, rows)| == |p| + 1 + |rest|
            && (n <= |p| ==> Payload(c, rows)[..n] == p[..n])
            && (n > |p| ==> Payload(c, rows)[..n] == (p + "\n") + rest[..n - |p| - 1])
  {
    var (p, rest) := (c.encode(rows[0]), Payload(c, rows[1..]));
    assert Payload(c, rows) == p + "\n" + rest;
  }

  lemma ShownSteps(c: Codec, rows: seq<Json>, n: nat)
    requires rows != []
    ensures var p := |c.encode(rows[0])|;
            Shown(c, rows, n) == if n < p then 0 else if n == p then 1 else 1 + Shown(c, rows[1..], n - p - 1)
  {
  }

  lemma FirstAndRest(rows: seq<Json>, k: nat)
    requires rows != [] && k < |rows|
    ensures [rows[0]] + rows[1..][..k] == rows[..k + 1] && rows[0] in rows && forall r :: r in rows[1..] ==> r in rows
  {
  }

  lemma NoPayload(c: Codec)
    requires CodecOk(c)
    ensures Payload(c, []) == "" && Rows(c, "") == [] && Shown(c, [], 0) == 0
  {
    NoRows(c);
  }

  // However much of a payload reached the file, a reader sees a prefix of its rows.
  lemma {:induction false} PayloadCut(c: Codec, rows: seq<Json>, n: nat)
    requires CodecOk(c) && Accepted(c, rows) && n <= |Payload(c, rows)|
    ensures Rows(c, Payload(c, rows)[..n]) == rows[..Shown(c, rows, n)]
    ensures n == |Payload(c, rows)| ==> Shown(c, rows, n) == |rows|
    decreases |rows|
  {
    hide Rows, Shown, CodecOk, Payload;
    if rows == [] {
      NoPayload(c);
      assert Payload(c, rows)[..n] == "";
    } else {
      PayloadSteps(c, rows, n);
      ShownSteps(c, rows, n);
      FirstAndRest(rows, 0);
      var p := |c.encode(rows[0])|;
      FirstRowCut(c, rows[0], if n <= p then n else p);
      if n > p {
        PayloadCut(c, rows[1..], n - p - 1);
        RowsAppend(c, c.encode(rows[0]) + "\n", Payload(c, rows[1..])[..n - p - 1]);
        FirstAndRest(rows, Shown(c, rows[1..], n - p - 1));
      }
    }
  }

  lemma {:induction false} PayloadCloses(c: Codec, rows: seq<Json>)
    ensures Closed(Payload(c, rows))
  {
    if rows != [] {
      PayloadCloses(c, rows[1..]);
    }
  }

  // What `_append_stream` writes after a stream whose tail it knows.
  function Appended(c: Codec, tail: Tail, rows: seq<Json>): string {
    (if tail != NoTail && (rows != [] || tail == Complete) then "\n" else "") + Payload(c, rows)
  }

  function AppendShown(c: Codec, tail: Tail, rows: seq<Json>, n: nat): (k: nat)
    ensures k <= |rows|
  {
    if tail == NoTail then Shown(c, rows, n) else if n == 0 then 0 else Shown(c, rows, n - 1)
  }

  lemma AppendCut(c: Codec, b: string, rows: seq<Json>, n: nat)
    requires CodecOk(c) && Accepted(c, rows)
    requires n <= |Appended(c, TailOf(c, b), rows)|
    ensures Rows(c, b + Appended(c, TailOf(c, b), rows)[..n])
            == Rows(c, b) + rows[..AppendShown(c, TailOf(c, b), rows, n)]
    ensures n == |Appended(c, TailOf(c, b), rows)| ==> AppendShown(c, TailOf(c, b), rows, n) == |rows|
  {
    hide Rows, PrefixEnd, Shown;
    PrefixEndSpec(b);
    var tail := TailOf(c, b);
    var text := Appended(c, tail, rows);
    if tail == NoTail {
      assert text == Payload(c, rows) && b[..|b|] == b;
      PayloadCut(c, rows, n);
      RowsAppend(c, b, text[..n]);
    } else if n == 0 {
      assert b + text[..n] == b;
    } else {
      assert b + text[..n] == (b + "\n") + Payload(c, rows)[..n - 1];
      PayloadCut(c, rows, n - 1);
      RowsTerminate(c, b);
      RowsAppend(c, b + "\n", Payload(c, rows)[..n - 1]);
    }
  }

  // A finished append that wrote rows, or ended a complete object, leaves a closed stream; one with
  // nothing to write leaves the stream and its tail as they were.
  lemma AppendEnds(c: Codec, b: string, rows: seq<Json>)
    requires CodecOk(c)
    ensures var b' := b + Appended(c, TailOf(c, b), rows);
            if TailOf(c, b) == Fragment && rows == [] then b' == b else PrefixEnd(b') == |b'| && TailOf(c, b') == NoTail
  {
    var text := Appended(c, TailOf(c, b), rows);
    PayloadCloses(c, rows);
    if TailOf(c, b) == Fragment && rows == [] {
      assert b + text == b;
    } else {
      assert b[..|b|] == b;
      assert Closed(b + text);
      assert (b + text)[..|b + text|] == b + text;
      PrefixEndUnique(b + text, |b + text|);
    }
  }

  /******* What a crash can show *******/

  // Losing any part of the bytes after `durable` shows a prefix of the rows that were visible.
  ghost predicate CutSafe(c: Codec, b: string, durable: nat) {
    forall k :: durable <= k <= |b| ==> Rows(c, b[..k]) <= Rows(c, b)
  }

  lemma AppendKeepsCutSafe(c: Codec, b: string, durable: nat, rows: seq<Json>, n: nat)
    requires CodecOk(c) && Accepted(c, rows) && CutSafe(c, b, durable) && durable <= |b|
    requires n <= |Appended(c, TailOf(c, b), rows)|
    ensures CutSafe(c, b + Appended(c, TailOf(c, b), rows)[..n], durable)
  {
    hide Rows, TailOf, PrefixEnd, Shown;
    var text := Appended(c, TailOf(c, b), rows);
    var b' := b + text[..n];
    AppendCut(c, b, rows, n);
    forall k | durable <= k <= |b'| ensures Rows(c, b'[..k]) <= Rows(c, b') {
      if k <= |b| {
        assert b'[..k] == b[..k];
      } else {
        var m := k - |b|;
        assert b'[..k] == b + text[..m];
        AppendCut(c, b, rows, m);
        if TailOf(c, b) == NoTail {
          ShownMonotone(c, rows, m, n);
        } else {
          ShownMonotone(c, rows, m - 1, n - 1);
        }
      }
    }
  }
}
