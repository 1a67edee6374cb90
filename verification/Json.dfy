/**
 The JSON text that the streams hold: the grammar of RFC 8259, the printer behind `encode_jsonl`
 and the parser behind `json.loads`. Two facts are what the rest of the model needs: printing and
 parsing round-trip, and an object's text has no strict prefix that is itself an object, so that a
 torn append can never be mistaken for a record.
 */
module Json {
  import opened Wrappers

  // A string is a sequence of UTF-16 code units, so that a lone surrogate is representable.
  type Unit = n: int | 0 <= n < 0x10000
  type Text = seq<Unit>

  datatype Json =
    | Null
    | Bool(b: bool)
    | Num(lexeme: string)
    | Str(s: Text)
    | Arr(elems: Elems)
    | Obj(members: Members)

  datatype Elems = NoElems | Elem(head: Json, tail: Elems)

  datatype Members = NoMembers | Member(key: Text, value: Json, rest: Members)

  /******* Lexical rules *******/

  predicate IsSpace(c: char) {
    c == ' ' || c == '\t' || c == '\n' || c == '\r'
  }

  function SkipSpace(s: string): (r: string)
    ensures |r| <= |s|
  {
    if s != "" && IsSpace(s[0]) then SkipSpace(s[1..]) else s
  }

  predicate IsDigit(c: char) {
    '0' <= c <= '9'
  }

  predicate IsNumberChar(c: char) {
    IsDigit(c) || c == '-' || c == '+' || c == '.' || c == 'e' || c == 'E'
  }

  function NumberRun(s: string): (n: nat)
    ensures n <= |s|
    ensures forall i :: 0 <= i < n ==> IsNumberChar(s[i])
  {
    if s != "" && IsNumberChar(s[0]) then 1 + NumberRun(s[1..]) else 0
  }

  function Digits(s: string): (n: nat)
    ensures n <= |s|
  {
    if s != "" && IsDigit(s[0]) then 1 + Digits(s[1..]) else 0
  }

  predicate IsExponent(s: string) {
    s == "" ||
    ((s[0] == 'e' || s[0] == 'E') &&
     var t := if |s| > 1 && (s[1] == '+' || s[1] == '-') then s[2..] else s[1..];
     1 <= Digits(t) == |t|)
  }

  predicate IsFraction(s: string) {
    if s != "" && s[0] == '.' then
      var n := Digits(s[1..]);
      1 <= n && IsExponent(s[1 + n..])
    else
      IsExponent(s)
  }

  // number = [ "-" ] int [ frac ] [ exp ], with no leading zero (section 6 of RFC 8259)
  predicate IsNumber(s: string) {
    var t := if s != "" && s[0] == '-' then s[1..] else s;
    var n := Digits(t);
    1 <= n && (t[0] == '0' ==> n == 1) && IsFraction(t[n..]) && NumberRun(s) == |s|
  }

  function Units(c: char): Text {
    var n := c as int;
    if n < 0x10000 then [n] else [0xD800 + (n - 0x10000) / 0x400, 0xDC00 + (n - 0x10000) % 0x400]
  }

  function HexDigit(n: int): char
    requires 0 <= n < 16
  {
    if n < 10 then '0' + n as char else 'a' + (n - 10) as char
  }

  function HexValue(c: char): (r: Option<int>)
    ensures r.Some? ==> 0 <= r.value < 16
  {
    if '0' <= c <= '9' then Some(c as int - '0' as int)
    else if 'a' <= c <= 'f' then Some(c as int - 'a' as int + 10)
    else if 'A' <= c <= 'F' then Some(c as int - 'A' as int + 10)
    else None
  }

  function Hex4(u: Unit): (s: string)
    ensures |s| == 4
  {
    [HexDigit(u / 0x1000), HexDigit(u / 0x100 % 16), HexDigit(u / 16 % 16), HexDigit(u % 16)]
  }

  function FromHex4(s: string): Option<Unit>
    requires |s| == 4
  {
    var a :- HexValue(s[0]);
    var b :- HexValue(s[1]);
    var c :- HexValue(s[2]);
    var d :- HexValue(s[3]);
    Some(((a * 16 + b) * 16 + c) * 16 + d)
  }

  function ShortEscape(c: char): Option<Unit> {
    if c == '"' then Some(0x22)
    else if c == '\\' then Some(0x5C)
    else if c == '/' then Some(0x2F)
    else if c == 'b' then Some(8)
    else if c == 'f' then Some(12)
    else if c == 'n' then Some(10)
    else if c == 'r' then Some(13)
    else if c == 't' then Some(9)
    else None
  }

  /******* Parser *******/

  // The characters of a string after its opening quote, up to and including the closing one.
  function ParseChars(s: string): (r: Option<(Text, string)>)
    ensures r.Some? ==> |r.value.1| < |s|
  {
    if s == "" || s[0] < ' ' then None
    else if s[0] == '"' then Some(([], s[1..]))
    else if s[0] != '\\' then
      var (t, rest) :- ParseChars(s[1..]);
      Some((Units(s[0]) + t, rest))
    else if |s| >= 6 && s[1] == 'u' then
      var u :- FromHex4(s[2..6]);
      var (t, rest) :- ParseChars(s[6..]);
      Some(([u] + t, rest))
    else if |s| >= 2 then
      var u :- ShortEscape(s[1]);
      var (t, rest) :- ParseChars(s[2..]);
      Some(([u] + t, rest))
    else None
  }

  function ParseNumber(s: string): (r: Option<(Json, string)>)
    ensures r.Some? ==> |r.value.1| < |s|
  {
    var n := NumberRun(s);
    if IsNumber(s[..n]) then Some((Num(s[..n]), s[n..])) else None
  }

  function ParseValue(s: string): (r: Option<(Json, string)>)
    ensures r.Some? ==> |r.value.1| < |s|
    decreases |s|, 1
  {
    if s == "" then None
    else if s[0] == '"' then
      var (t, rest) :- ParseChars(s[1..]);
      Some((Str(t), rest))
    else if s[0] == '{' then
      var body := SkipSpace(s[1..]);
      if body != "" && body[0] == '}' then Some((Obj(NoMembers), body[1..]))
      else
        var (m, rest) :- ParseMembers(body);
        Some((Obj(m), rest))
    else if s[0] == '[' then
      var body := SkipSpace(s[1..]);
      if body != "" && body[0] == ']' then Some((Arr(NoElems), body[1..]))
      else
        var (e, rest) :- ParseElems(body);
        Some((Arr(e), rest))
    else if "true" <= s then Some((Bool(true), s[4..]))
    else if "false" <= s then Some((Bool(false), s[5..]))
    else if "null" <= s then Some((Null, s[4..]))
    else ParseNumber(s)
  }

  // One or more members and the closing brace.
  function ParseMembers(s: string): (r: Option<(Members, string)>)
    ensures r.Some? ==> |r.value.1| < |s|
    decreases |s|, 0
  {
    if s == "" || s[0] != '"' then None
    else
      var (key, afterKey) :- ParseChars(s[1..]);
      var colon := SkipSpace(afterKey);
      if colon == "" || colon[0] != ':' then None
      else
        var (value, afterValue) :- ParseValue(SkipSpace(colon[1..]));
        var next := SkipSpace(afterValue);
        if next == "" then None
        else if next[0] == '}' then Some((Member(key, value, NoMembers), next[1..]))
        else if next[0] == ',' then
          var (rest, after) :- ParseMembers(SkipSpace(next[1..]));
          Some((Member(key, value, rest), after))
        else None
  }

  // One or more elements and the closing bracket.
  function ParseElems(s: string): (r: Option<(Elems, string)>)
    ensures r.Some? ==> |r.value.1| < |s|
    decreases |s|, 2
  {
    var (value, afterValue) :- ParseValue(s);
    var next := SkipSpace(afterValue);
    if next == "" then None
    else if next[0] == ']' then Some((Elem(value, NoElems), next[1..]))
    else if next[0] == ',' then
      var (rest, after) :- ParseElems(SkipSpace(next[1..]));
      Some((Elem(value, rest), after))
    else None
  }

  // What a reader of a stream keeps of one line: its object, or nothing at all.
  function ParseObject(s: string): Option<Json> {
    var (v, rest) :- ParseValue(SkipSpace(s));
    if v.Obj? && SkipSpace(rest) == "" then Some(v) else None
  }

  /******* Printer *******/

  function PrintUnit(u: Unit): (s: string)
    ensures s != ""
    ensures forall i :: 0 <= i < |s| ==> ' ' <= s[i] <= '~'
  {
    if u == 0x22 then "\\\""
    else if u == 0x5C then "\\\\"
    else if u == 8 then "\\b"
    else if u == 12 then "\\f"
    else if u == 10 then "\\n"
    else if u == 13 then "\\r"
    else if u == 9 then "\\t"
    else if 0x20 <= u <= 0x7E then [u as char]
    else "\\u" + Hex4(u)
  }

  function PrintUnits(t: Text): (s: string)
    ensures forall i :: 0 <= i < |s| ==> ' ' <= s[i] <= '~'
  {
    if t == [] then "" else PrintUnit(t[0]) + PrintUnits(t[1..])
  }

  function PrintString(t: Text): (s: string)
    ensures forall i :: 0 <= i < |s| ==> ' ' <= s[i] <= '~'
  {
    "\"" + PrintUnits(t) + "\""
  }

  function Print(v: Json): string {
    match v
    case Null => "null"
    case Bool(b) => if b then "true" else "false"
    case Num(lexeme) => lexeme
    case Str(s) => PrintString(s)
    case Arr(elems) => "[" + PrintElems(elems) + "]"
    case Obj(members) => "{" + PrintMembers(members) + "}"
  }

  function PrintElems(e: Elems): string {
    match e
    case NoElems => ""
    case Elem(v, rest) => Print(v) + (if rest.NoElems? then "" else ", " + PrintElems(rest))
  }

  function PrintMembers(m: Members): string {
    match m
    case NoMembers => ""
    case Member(k, v, rest) =>
      PrintString(k) + ": " + Print(v) + (if rest.NoMembers? then "" else ", " + PrintMembers(rest))
  }

  // Every number carries a lexeme the grammar accepts.
  predicate WellFormed(v: Json) {
    match v
    case Num(lexeme) => IsNumber(lexeme)
    case Arr(elems) => WellFormedElems(elems)
    case Obj(members) => WellFormedMembers(members)
    case _ => true
  }

  predicate WellFormedElems(e: Elems) {
    e.Elem? ==> WellFormed(e.head) && WellFormedElems(e.tail)
  }

  predicate WellFormedMembers(m: Members) {
    m.Member? ==> WellFormed(m.value) && WellFormedMembers(m.rest)
  }

  /******* Printed text holds no line break *******/

  predicate Printable(s: string) {
    forall i :: 0 <= i < |s| ==> ' ' <= s[i] <= '~'
  }

  lemma {:induction false} PrintIsPrintable(v: Json)
    requires WellFormed(v)
    ensures Printable(Print(v))
    decreases v
  {
    hide PrintElems, PrintMembers, WellFormedElems, WellFormedMembers;
    match v
    case Arr(elems) => PrintElemsIsPrintable(elems);
    case Obj(members) => PrintMembersIsPrintable(members);
    case Num(lexeme) => NumbersArePrintable(lexeme);
    case _ =>
  }

  lemma NumbersArePrintable(lexeme: string)
    requires IsNumber(lexeme)
    ensures Printable(lexeme)
  {
    assert forall i :: 0 <= i < |lexeme| ==> IsNumberChar(lexeme[i]);
  }

  lemma {:induction false} PrintElemsIsPrintable(e: Elems)
    requires WellFormedElems(e)
    ensures Printable(PrintElems(e))
    decreases e
  {
    if e.Elem? {
      PrintIsPrintable(e.head);
      PrintElemsIsPrintable(e.tail);
    }
  }

  lemma {:induction false} PrintMembersIsPrintable(m: Members)
    requires WellFormedMembers(m)
    ensures Printable(PrintMembers(m))
    decreases m
  {
    if m.Member? {
      PrintIsPrintable(m.value);
      PrintMembersIsPrintable(m.rest);
    }
  }

  /******* Round trip *******/

  lemma HexDigitRoundTrip(n: int)
    requires 0 <= n < 16
    ensures HexValue(HexDigit(n)) == Some(n)
  {
  }

  lemma Nibbles(u: Unit)
    ensures 0 <= u / 0x1000 < 16
    ensures u == ((u / 0x1000 * 16 + u / 0x100 % 16) * 16 + u / 16 % 16) * 16 + u % 16
  {
    var q1 := u / 16;
    var q2 := q1 / 16;
    assert q2 == u / 0x100 && q2 / 16 == u / 0x1000;
    assert q1 == q2 * 16 + q1 % 16 && q2 == q2 / 16 * 16 + q2 % 16;
  }

  lemma HexRoundTrip(u: Unit)
    ensures FromHex4(Hex4(u)) == Some(u)
  {
    hide HexDigit, HexValue;
    Nibbles(u);
    HexDigitRoundTrip(u / 0x1000);
    HexDigitRoundTrip(u / 0x100 % 16);
    HexDigitRoundTrip(u / 16 % 16);
    HexDigitRoundTrip(u % 16);
  }

  // One step of the parser over each way a unit is written.

  lemma PlainStep(c: char, w: string)
    requires ' ' <= c && c != '"' && c != '\\' && ParseChars(w).Some?
    ensures ParseChars([c] + w) == Some((Units(c) + ParseChars(w).value.0, ParseChars(w).value.1))
  {
    hide FromHex4, ShortEscape, Units;
    assert ([c] + w)[1..] == w;
  }

  lemma ShortStep(c: char, w: string)
    requires ShortEscape(c).Some? && ParseChars(w).Some?
    ensures ParseChars(['\\', c] + w) == Some(([ShortEscape(c).value] + ParseChars(w).value.0, ParseChars(w).value.1))
  {
    NoShortU();
    hide FromHex4, ShortEscape, Units;
    assert (['\\', c] + w)[2..] == w;
  }

  lemma NoShortU()
    ensures ShortEscape('u').None?
  {
  }

  lemma HexStep(h: string, w: string)
    requires |h| == 4 && FromHex4(h).Some? && ParseChars(w).Some?
    ensures ParseChars("\\u" + h + w) == Some(([FromHex4(h).value] + ParseChars(w).value.0, ParseChars(w).value.1))
  {
    hide FromHex4, ShortEscape, Units;
    var s := "\\u" + h + w;
    assert s[2..6] == h && s[6..] == w;
  }

  // How a unit is written: a short escape, itself, or four hexadecimal digits.

  predicate IsShort(u: Unit) {
    u == 0x22 || u == 0x5C || (8 <= u <= 13 && u != 11)
  }

  lemma ShortText(u: Unit)
    requires IsShort(u)
    ensures PrintUnit(u) == ['\\', PrintUnit(u)[1]] && ShortEscape(PrintUnit(u)[1]) == Some(u)
  {
  }

  lemma PlainText(u: Unit)
    requires !IsShort(u) && 0x20 <= u <= 0x7E
    ensures PrintUnit(u) == [u as char] && Units(u as char) == [u] && ' ' <= u as char && u as char != '"' && u as char != '\\'
  {
  }

  lemma HexText(u: Unit)
    requires !IsShort(u) && !(0x20 <= u <= 0x7E)
    ensures PrintUnit(u) == "\\u" + Hex4(u)
  {
    hide Hex4;
  }

  lemma ParsePrintedUnit(u: Unit, w: string)
    requires ParseChars(w).Some?
    ensures ParseChars(PrintUnit(u) + w) == Some(([u] + ParseChars(w).value.0, ParseChars(w).value.1))
  {
    hide ParseChars, FromHex4, Hex4, PrintUnit, ShortEscape, Units;
    if IsShort(u) {
      ShortText(u);
      ShortStep(PrintUnit(u)[1], w);
    } else if 0x20 <= u <= 0x7E {
      PlainText(u);
      PlainStep(u as char, w);
    } else {
      HexText(u);
      HexRoundTrip(u);
      HexStep(Hex4(u), w);
    }
  }

  lemma {:induction false} ParsePrintedUnits(t: Text, w: string)
    ensures ParseChars(PrintUnits(t) + "\"" + w) == Some((t, w))
  {
    hide PrintUnit, FromHex4, ShortEscape, Units;
    if t == [] {
      assert PrintUnits(t) + "\"" + w == "\"" + w;
    } else {
      hide ParseChars;
      ParsePrintedUnits(t[1..], w);
      ParsePrintedUnit(t[0], PrintUnits(t[1..]) + "\"" + w);
      assert PrintUnits(t) + "\"" + w == PrintUnit(t[0]) + (PrintUnits(t[1..]) + "\"" + w);
      assert [t[0]] + t[1..] == t;
    }
  }

  predicate Stops(v: Json, w: string) {
    v.Num? && w != "" ==> !IsNumberChar(w[0])
  }

  lemma {:induction false} NumberRunOf(n: string, w: string)
    requires NumberRun(n) == |n| && (w != "" ==> !IsNumberChar(w[0]))
    ensures NumberRun(n + w) == |n|
  {
    if n == "" {
      assert n + w == w;
    } else {
      NumberRunOf(n[1..], w);
      assert (n + w)[1..] == n[1..] + w;
    }
  }

  lemma ParsePrintedNumber(n: string, w: string)
    requires IsNumber(n) && Stops(Num(n), w)
    ensures ParseValue(n + w) == Some((Num(n), w))
  {
    NumberRunOf(n, w);
    assert (n + w)[..|n|] == n && (n + w)[|n|..] == w;
    assert IsNumberChar((n + w)[0]);
  }

  // Printed values start with a visible character that opens no other production.
  lemma PrintStarts(v: Json, w: string)
    requires WellFormed(v)
    ensures Print(v) != "" && !IsSpace(Print(v)[0]) && Print(v)[0] != ']' && Print(v)[0] != '}'
    ensures SkipSpace(Print(v) + w) == Print(v) + w
  {
    if v.Num? {
      assert IsNumberChar(v.lexeme[0]);
    }
    assert (Print(v) + w)[0] == Print(v)[0];
  }

  // One step of the parser over each bracketed form and each separator.

  lemma ArrayStep(body: string)
    requires body != "" && !IsSpace(body[0]) && body[0] != ']'
    ensures ParseElems(body).Some? ==>
              ParseValue("[" + body) == Some((Arr(ParseElems(body).value.0), ParseElems(body).value.1))
  {
    assert ("[" + body)[1..] == body;
  }

  lemma ObjectStep(body: string)
    requires body != "" && body[0] == '"'
    ensures ParseMembers(body).Some? ==>
              ParseValue("{" + body) == Some((Obj(ParseMembers(body).value.0), ParseMembers(body).value.1))
  {
    assert ("{" + body)[1..] == body;
  }

  lemma EmptyArrayStep(w: string)
    ensures ParseValue("[" + ("" + ("]" + w))) == Some((Arr(NoElems), w))
  {
    var body := "" + ("]" + w);
    assert ("[" + body)[1..] == body && body[0] == ']' && body[1..] == w;
  }

  lemma EmptyObjectStep(w: string)
    ensures ParseValue("{" + ("" + ("}" + w))) == Some((Obj(NoMembers), w))
  {
    var body := "" + ("}" + w);
    assert ("{" + body)[1..] == body && body[0] == '}' && body[1..] == w;
  }

  lemma SpaceStep(s: string)
    requires s != "" && !IsSpace(s[0])
    ensures SkipSpace(" " + s) == s
  {
    assert (" " + s)[1..] == s;
  }

  lemma ElemsStep(value: Json, text: string, next: string)
    requires next != "" && !IsSpace(next[0])
    requires ParseValue(text + (", " + next)) == Some((value, ", " + next))
    ensures ParseElems(next).Some? ==>
              ParseElems(text + (", " + next)) == Some((Elem(value, ParseElems(next).value.0), ParseElems(next).value.1))
  {
    SpaceStep(next);
    assert (", " + next)[1..] == " " + next;
  }

  lemma LastElemStep(value: Json, text: string, w: string)
    requires ParseValue(text + ("]" + w)) == Some((value, "]" + w))
    ensures ParseElems(text + ("]" + w)) == Some((Elem(value, NoElems), w))
  {
    assert ("]" + w)[1..] == w;
  }

  // A key, a colon and a value, then either another member or the brace.
  lemma MemberStep(key: Text, value: Json, text: string, after: string)
    requires text != "" && !IsSpace(text[0])
    requires ParseValue(text + after) == Some((value, after))
    ensures after != "" && after[0] == '}' ==>
              ParseMembers(PrintString(key) + (": " + (text + after))) == Some((Member(key, value, NoMembers), after[1..]))
    ensures after != "" && after[0] == ',' && ParseMembers(SkipSpace(after[1..])).Some? ==>
              var rest := ParseMembers(SkipSpace(after[1..])).value;
              ParseMembers(PrintString(key) + (": " + (text + after))) == Some((Member(key, value, rest.0), rest.1))
  {
    hide PrintString, ParseChars, ParseValue, ParseMembers, SkipSpace, Print;
    var s := PrintString(key) + (": " + (text + after));
    var colon := ": " + (text + after);
    assert (text + after)[0] == text[0];
    KeyStep(key, text + after);
    NoSpace(colon);
    if after != "" && (after[0] == '}' || after[0] == ',') {
      NoSpace(after);
      MembersUnfold(s, key, value, colon, after);
    }
  }

  lemma NoSpace(s: string)
    requires s != "" && !IsSpace(s[0])
    ensures SkipSpace(s) == s
  {
  }

  // What the parser of members does with a key, its value and what comes next.
  lemma MembersUnfold(s: string, key: Text, value: Json, colon: string, next: string)
    requires s != "" && s[0] == '"' && ParseChars(s[1..]) == Some((key, colon)) && SkipSpace(colon) == colon
    requires colon != "" && colon[0] == ':' && ParseValue(SkipSpace(colon[1..])) == Some((value, next)) && SkipSpace(next) == next
    requires next != "" && (next[0] == '}' || next[0] == ',')
    ensures next[0] == '}' ==> ParseMembers(s) == Some((Member(key, value, NoMembers), next[1..]))
    ensures next[0] == ',' && ParseMembers(SkipSpace(next[1..])).Some? ==>
              var rest := ParseMembers(SkipSpace(next[1..])).value; ParseMembers(s) == Some((Member(key, value, rest.0), rest.1))
  {
    hide ParseChars, ParseValue, SkipSpace;
  }

  function AfterMember(m: Members, w: string): string
    requires m.Member?
  {
    if m.rest.NoMembers? then "}" + w else ", " + (PrintMembers(m.rest) + ("}" + w))
  }

  lemma Regroup(a: string, b: string, c: string, d: string, e: string)
    ensures a + b + c + d + e == a + (b + (c + (d + e)))
  {
  }

  lemma MembersText(m: Members, w: string)
    requires m.Member?
    ensures PrintMembers(m) + ("}" + w) == PrintString(m.key) + (": " + (Print(m.value) + AfterMember(m, w)))
  {
    var more := if m.rest.NoMembers? then "" else ", " + PrintMembers(m.rest);
    assert AfterMember(m, w) == more + ("}" + w);
    Regroup(PrintString(m.key), ": ", Print(m.value), more, "}" + w);
  }

  // A member's key and colon lead the parser to its value.
  lemma KeyStep(key: Text, value: string)
    requires value != "" && !IsSpace(value[0])
    ensures var s := PrintString(key) + (": " + value);
            s[0] == '"' && ParseChars(s[1..]) == Some((key, ": " + value)) &&
            SkipSpace((": " + value)[1..]) == value
  {
    var s := PrintString(key) + (": " + value);
    assert s[1..] == PrintUnits(key) + "\"" + (": " + value);
    ParsePrintedUnits(key, ": " + value);
    SpaceStep(value);
    assert (": " + value)[1..] == " " + value;
  }

  lemma LiteralStep(v: Json, w: string)
    requires v.Null? || v.Bool?
    ensures ParseValue(Print(v) + w) == Some((v, w))
  {
    var s := Print(v) + w;
    assert Print(v) <= s && s[|Print(v)|..] == w;
  }

  lemma StringStep(body: string)
    requires ParseChars(body).Some?
    ensures ParseValue("\"" + body) == Some((Str(ParseChars(body).value.0), ParseChars(body).value.1))
  {
    assert ("\"" + body)[1..] == body;
  }

  lemma ParsePrintedString(t: Text, w: string)
    ensures ParseValue(Print(Str(t)) + w) == Some((Str(t), w))
  {
    hide ParseValue, ParseChars, PrintUnits;
    ParsePrintedUnits(t, w);
    StringStep(PrintUnits(t) + "\"" + w);
    assert Print(Str(t)) + w == "\"" + (PrintUnits(t) + "\"" + w);
  }

  lemma {:induction false} ParsePrinted(v: Json, w: string)
    requires WellFormed(v) && Stops(v, w)
    ensures ParseValue(Print(v) + w) == Some((v, w))
    decreases v
  {
    hide ParseValue, ParseChars, IsNumber;
    match v
    case Arr(e) => ParsePrintedArray(e, w);
    case Obj(m) => ParsePrintedObject(m, w);
    case Num(n) => ParsePrintedNumber(n, w);
    case Str(t) => ParsePrintedString(t, w);
    case _ => LiteralStep(v, w);
  }

  lemma {:induction false} ParsePrintedArray(e: Elems, w: string)
    requires WellFormedElems(e)
    ensures ParseValue(Print(Arr(e)) + w) == Some((Arr(e), w))
    decreases e, 1
  {
    hide ParseValue, ParseElems, Print;
    var body := PrintElems(e) + ("]" + w);
    ArrayText(e, w);
    if e.NoElems? {
      EmptyArrayStep(w);
    } else {
      ParsePrintedElems(e, w);
      PrintStarts(e.head, "");
      ArrayStep(body);
    }
  }

  lemma {:induction false} ParsePrintedObject(m: Members, w: string)
    requires WellFormedMembers(m)
    ensures ParseValue(Print(Obj(m)) + w) == Some((Obj(m), w))
    decreases m, 1
  {
    hide ParseValue, ParseMembers, Print;
    var body := PrintMembers(m) + ("}" + w);
    ObjectText(m, w);
    if m.NoMembers? {
      EmptyObjectStep(w);
    } else {
      ParsePrintedMembers(m, w);
      ObjectStep(body);
    }
  }

  lemma ArrayText(e: Elems, w: string)
    ensures Print(Arr(e)) + w == "[" + (PrintElems(e) + ("]" + w))
  {
    hide PrintElems;
    AppendTwice("[", PrintElems(e), "]", w);
  }

  lemma ObjectText(m: Members, w: string)
    ensures Print(Obj(m)) + w == "{" + (PrintMembers(m) + ("}" + w))
  {
    hide PrintMembers;
    AppendTwice("{", PrintMembers(m), "}", w);
  }

  lemma AppendTwice(a: string, b: string, c: string, d: string)
    ensures a + b + c + d == a + (b + (c + d))
  {
  }

  function AfterElem(e: Elems, w: string): string
    requires e.Elem?
  {
    if e.tail.NoElems? then "]" + w else ", " + (PrintElems(e.tail) + ("]" + w))
  }

  lemma ElemsText(e: Elems, w: string)
    requires e.Elem?
    ensures PrintElems(e) + ("]" + w) == Print(e.head) + AfterElem(e, w)
  {
  }

  lemma {:induction false} ParsePrintedElems(e: Elems, w: string)
    requires WellFormedElems(e) && e.Elem?
    ensures Print(e.head) != "" && (PrintElems(e) + ("]" + w))[0] == Print(e.head)[0]
    ensures ParseElems(PrintElems(e) + ("]" + w)) == Some((e, w))
    decreases e, 0
  {
    PrintStarts(e.head, "");
    ElemsText(e, w);
    ParsePrinted(e.head, AfterElem(e, w));
    if e.tail.NoElems? {
      LastElemStep(e.head, Print(e.head), w);
    } else {
      PrintStarts(e.tail.head, "");
      ParsePrintedElems(e.tail, w);
      ElemsStep(e.head, Print(e.head), PrintElems(e.tail) + ("]" + w));
    }
  }

  lemma StringStarts(t: Text)
    ensures PrintString(t) != "" && PrintString(t)[0] == '"'
  {
  }

  lemma {:induction false} ParsePrintedMembers(m: Members, w: string)
    requires WellFormedMembers(m) && m.Member?
    ensures (PrintMembers(m) + ("}" + w))[0] == '"'
    ensures ParseMembers(PrintMembers(m) + ("}" + w)) == Some((m, w))
    decreases m, 0
  {
    hide Print, ParseValue, ParseMembers, IsNumber, PrintString, PrintMembers, SkipSpace;
    var after := AfterMember(m, w);
    StringStarts(m.key);
    PrintStarts(m.value, "");
    ParsePrinted(m.value, after);
    MembersText(m, w);
    if m.rest.NoMembers? {
      assert after[1..] == w;
    } else {
      var next := PrintMembers(m.rest) + ("}" + w);
      ParsePrintedMembers(m.rest, w);
      SpaceStep(next);
      assert after[1..] == " " + next;
    }
    MemberStep(m.key, m.value, Print(m.value), after);
  }

  // `json.loads(json.dumps(o))` is `o`, for every object.
  lemma ObjectRoundTrip(v: Json)
    requires WellFormed(v) && v.Obj?
    ensures ParseObject(Print(v)) == Some(v)
  {
    ParsePrinted(v, "");
    assert Print(v) + "" == Print(v);
    PrintStarts(v, "");
  }

  /******* No strict prefix of an object is an object *******/

  // Text appended after a value that the parser has finished does not change what it read.

  lemma {:induction false} SkipSpaceExtends(p: string, x: string)
    requires SkipSpace(p) != ""
    ensures SkipSpace(p + x) == SkipSpace(p) + x
  {
    if IsSpace(p[0]) {
      SkipSpaceExtends(p[1..], x);
      assert (p + x)[1..] == p[1..] + x;
    }
  }

  predicate CharsGoOn(p: string, x: string) {
    ParseChars(p).Some? ==> ParseChars(p + x) == Some((ParseChars(p).value.0, ParseChars(p).value.1 + x))
  }

  lemma QuoteExtends(p: string, x: string)
    requires p == "" || p[0] == '"'
    ensures CharsGoOn(p, x)
  {
    hide FromHex4, ShortEscape, Units;
    if p != "" {
      assert (p + x)[1..] == p[1..] + x;
    }
  }

  lemma PlainExtends(p: string, x: string)
    requires p != "" && p[0] != '"' && p[0] != '\\' && CharsGoOn(p[1..], x)
    ensures CharsGoOn(p, x)
  {
    hide FromHex4, ShortEscape, Units;
    assert (p + x)[1..] == p[1..] + x;
  }

  lemma HexExtends(p: string, x: string)
    requires |p| >= 6 && p[0] == '\\' && p[1] == 'u' && CharsGoOn(p[6..], x)
    ensures CharsGoOn(p, x)
  {
    hide FromHex4, ShortEscape, Units;
    assert (p + x)[6..] == p[6..] + x;
    assert (p + x)[2..6] == p[2..6];
  }

  lemma EscapeExtends(p: string, x: string)
    requires p != "" && p[0] == '\\' && (|p| < 6 || p[1] != 'u') && (|p| >= 2 ==> CharsGoOn(p[2..], x))
    ensures CharsGoOn(p, x)
  {
    NoShortU();
    hide FromHex4, ShortEscape, Units;
    if |p| >= 2 {
      assert (p + x)[2..] == p[2..] + x;
    }
  }

  lemma {:induction false} CharsExtend(p: string, x: string)
    ensures CharsGoOn(p, x)
    decreases |p|
  {
    hide CharsGoOn;
    if p == "" || p[0] == '"' {
      QuoteExtends(p, x);
    } else if p[0] != '\\' {
      CharsExtend(p[1..], x);
      PlainExtends(p, x);
    } else if |p| >= 6 && p[1] == 'u' {
      CharsExtend(p[6..], x);
      HexExtends(p, x);
    } else {
      if |p| >= 2 {
        CharsExtend(p[2..], x);
      }
      EscapeExtends(p, x);
    }
  }

  lemma NumberExtends(p: string, x: string)
    requires ParseNumber(p).Some? && ParseNumber(p).value.1 != ""
    ensures ParseNumber(p + x) == Some((ParseNumber(p).value.0, ParseNumber(p).value.1 + x))
  {
    hide IsNumber;
    var n := NumberRun(p);
    NumberRunExtends(p, x);
    assert (p + x)[..n] == p[..n] && (p + x)[n..] == p[n..] + x;
  }

  lemma {:induction false} NumberRunExtends(p: string, x: string)
    requires NumberRun(p) < |p|
    ensures NumberRun(p + x) == NumberRun(p)
  {
    if IsNumberChar(p[0]) {
      NumberRunExtends(p[1..], x);
      assert (p + x)[1..] == p[1..] + x;
    }
  }

  lemma {:induction false} ValueExtends(p: string, x: string)
    requires ParseValue(p).Some?
    requires ParseValue(p).value.0.Num? ==> ParseValue(p).value.1 != ""
    ensures ParseValue(p + x) == Some((ParseValue(p).value.0, ParseValue(p).value.1 + x))
    decreases |p|, 1
  {
    assert (p + x)[0] == p[0] && (p + x)[1..] == p[1..] + x;
    if p[0] == '"' {
      CharsExtend(p[1..], x);
    } else if p[0] == '{' {
      ObjectExtends(p, x);
    } else if p[0] == '[' {
      ArrayExtends(p, x);
    } else {
      ScalarExtends(p, x);
    }
  }

  lemma ScalarExtends(p: string, x: string)
    requires p != "" && p[0] != '"' && p[0] != '{' && p[0] != '['
    requires ParseValue(p).Some?
    requires ParseValue(p).value.0.Num? ==> ParseValue(p).value.1 != ""
    ensures ParseValue(p + x) == Some((ParseValue(p).value.0, ParseValue(p).value.1 + x))
  {
    hide IsNumber, ParseChars, ParseMembers, ParseElems;
    var s := p + x;
    if "true" <= p {
      assert "true" <= s && s[4..] == p[4..] + x;
    } else if "false" <= p {
      assert "false" <= s && s[5..] == p[5..] + x;
    } else if "null" <= p {
      assert "null" <= s && s[4..] == p[4..] + x;
    } else {
      assert ParseValue(p) == ParseNumber(p);
      assert IsNumberChar(p[0]) && s[0] == p[0];
      NumberExtends(p, x);
    }
  }

  lemma {:induction false} ObjectExtends(p: string, x: string)
    requires p != "" && p[0] == '{' && ParseValue(p).Some?
    ensures ParseValue(p + x) == Some((ParseValue(p).value.0, ParseValue(p).value.1 + x))
    decreases |p|, 0
  {
    hide ParseChars, ParseNumber, ParseMembers, ParseElems;
    var body := SkipSpace(p[1..]);
    SkipSpaceExtends(p[1..], x);
    assert (p + x)[1..] == p[1..] + x && (body + x)[1..] == body[1..] + x;
    if body[0] != '}' {
      MembersExtend(body, x);
    }
  }

  lemma {:induction false} ArrayExtends(p: string, x: string)
    requires p != "" && p[0] == '[' && ParseValue(p).Some?
    ensures ParseValue(p + x) == Some((ParseValue(p).value.0, ParseValue(p).value.1 + x))
    decreases |p|, 0
  {
    hide ParseChars, ParseNumber, ParseMembers, ParseElems;
    var body := SkipSpace(p[1..]);
    SkipSpaceExtends(p[1..], x);
    assert (p + x)[1..] == p[1..] + x && (body + x)[1..] == body[1..] + x;
    if body[0] != ']' {
      ElemsExtend(body, x);
    }
  }

  lemma {:induction false} MembersExtend(p: string, x: string)
    requires ParseMembers(p).Some?
    ensures ParseMembers(p + x) == Some((ParseMembers(p).value.0, ParseMembers(p).value.1 + x))
    decreases |p|, 0
  {
    hide ParseValue, ParseChars;
    assert (p + x)[0] == p[0] && (p + x)[1..] == p[1..] + x;
    CharsExtend(p[1..], x);
    var afterKey := ParseChars(p[1..]).value.1;
    var colon := SkipSpace(afterKey);
    SkipSpaceExtends(afterKey, x);
    assert (colon + x)[1..] == colon[1..] + x;
    var start := SkipSpace(colon[1..]);
    SkipSpaceExtends(colon[1..], x);
    MemberValueExtends(start, x);
    var next := SkipSpace(ParseValue(start).value.1);
    if next[0] == ',' {
      MembersExtend(SkipSpace(next[1..]), x);
    }
  }

  // The value of a member, then the separator or brace that ends it.
  lemma {:induction false} MemberValueExtends(p: string, x: string)
    requires ParseValue(p).Some? && SkipSpace(ParseValue(p).value.1) != ""
    ensures ParseValue(p + x) == Some((ParseValue(p).value.0, ParseValue(p).value.1 + x))
    ensures var next := SkipSpace(ParseValue(p).value.1);
            && SkipSpace(ParseValue(p).value.1 + x) == next + x
            && (next + x)[1..] == next[1..] + x
            && (SkipSpace(next[1..]) != "" ==> SkipSpace(next[1..] + x) == SkipSpace(next[1..]) + x)
    decreases |p|, 2
  {
    ValueExtends(p, x);
    var next := SkipSpace(ParseValue(p).value.1);
    SkipSpaceExtends(ParseValue(p).value.1, x);
    assert (next + x)[1..] == next[1..] + x;
    if SkipSpace(next[1..]) != "" {
      SkipSpaceExtends(next[1..], x);
    }
  }

  lemma {:induction false} ElemsExtend(p: string, x: string)
    requires ParseElems(p).Some?
    ensures ParseElems(p + x) == Some((ParseElems(p).value.0, ParseElems(p).value.1 + x))
    decreases |p|, 3
  {
    MemberValueExtends(p, x);
    var next := SkipSpace(ParseValue(p).value.1);
    if next[0] == ',' {
      ElemsExtend(SkipSpace(next[1..]), x);
    }
  }

  // A text that ends with the value it holds has no strict prefix holding an object.
  lemma NoStrictPrefix(v: Json, k: nat)
    requires WellFormed(v) && v.Obj?
    requires k < |Print(v)|
    ensures ParseObject(Print(v)[..k]).None?
  {
    var p, x := Print(v)[..k], Print(v)[k..];
    if ParseObject(p).Some? {
      assert p != "" && p[0] == '{';
      ValueExtends(p, x);
      assert p + x == Print(v) == Print(v) + "";
      ParsePrinted(v, "");
      assert false;
    }
  }
}
