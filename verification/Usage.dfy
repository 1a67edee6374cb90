/**
 What one ingested metric row says, and what a session's rows add up to. Adding rows commutes, so the
 ledger may meet them in any order: staged before or after what other writers append.
 */
module Usage {
  import opened Wrappers
  import opened Json

  datatype Totals = Totals(input: nat, cached: nat, cacheWrite: nat, output: nat, reasoning: nat, total: nat, calls: nat)

  const ZERO := Totals(0, 0, 0, 0, 0, 0, 0)

  function Plus(a: Totals, b: Totals): Totals {
    Totals(a.input + b.input, a.cached + b.cached, a.cacheWrite + b.cacheWrite, a.output + b.output,
           a.reasoning + b.reasoning, a.total + b.total, a.calls + b.calls)
  }

  datatype Key = Key(runtime: Text, session: Text)

  datatype Granularity = Call | Session

  // A `session_ingest` row. Its totals carry the calls it covers: one, unless it says otherwise.
  datatype Row = Row(
    key: Key,
    model: Text,
    totals: Totals,
    coversCalls: Option<nat>,
    callId: Option<Text>,
    coveredIds: Option<seq<Text>>,
    granularity: Granularity)

  // What `str.strip` strips.
  predicate IsSpace(u: Unit) {
    || u == 32 || 9 <= u <= 13 || 28 <= u <= 31 || u == 0x85 || u == 0xA0 || u == 0x1680 || 0x2000 <= u <= 0x200A
    || u == 0x2028 || u == 0x2029 || u == 0x202F || u == 0x205F || u == 0x3000
  }

  predicate IsBlank(t: Text) {
    forall i :: 0 <= i < |t| ==> IsSpace(t[i])
  }

  predicate AllDistinct(ids: seq<Text>) {
    forall i, j :: 0 <= i < j < |ids| ==> ids[i] != ids[j]
  }

  // The source calls that a row identifies, if it identifies any.
  function Identified(r: Row): Option<set<Text>> {
    if r.granularity == Call && r.callId.Some? && !IsBlank(r.callId.value) then Some({r.callId.value})
    else if r.granularity == Session && r.coveredIds.Some? && r.coversCalls.Some? && r.coversCalls.value > 0
            && (forall i :: 0 <= i < |r.coveredIds.value| ==> !IsBlank(r.coveredIds.value[i]))
            && AllDistinct(r.coveredIds.value) && |r.coveredIds.value| == r.coversCalls.value
    then Some(set id | id in r.coveredIds.value)
    else None
  }

  datatype State = State(
    models: map<Text, Totals>,
    callIds: set<Text>,
    covered: set<Text>,
    unidentified: map<Text, Totals>,
    granularities: set<Granularity>)

  const BLANK := State(map[], {}, {}, map[], {})

  function Of(m: map<Text, Totals>, model: Text): Totals {
    if model in m then m[model] else ZERO
  }

  function Bump(m: map<Text, Totals>, model: Text, t: Totals): map<Text, Totals> {
    m[model := Plus(Of(m, model), t)]
  }

  // A missing or empty call id is not recorded.
  function CallIds(r: Row): set<Text> {
    if r.callId.Some? && r.callId.value != [] then {r.callId.value} else {}
  }

  // `_apply_state`
  function Apply(s: State, r: Row): State {
    var ids := Identified(r);
    State(
      Bump(s.models, r.model, r.totals),
      s.callIds + CallIds(r),
      if ids.Some? then s.covered + ids.value else s.covered,
      if ids.Some? then s.unidentified else Bump(s.unidentified, r.model, r.totals),
      s.granularities + {r.granularity})
  }

  // How a JSON row is read: None for anything that is not a session ingest row.
  type Reading = Json -> Option<Row>

  function ApplyTo(read: Reading, s: State, row: Json, key: Key): State {
    var r := read(row);
    if r.Some? && r.value.key == key then Apply(s, r.value) else s
  }

  // A session's state after these rows.
  function Sum(read: Reading, s: State, rows: seq<Json>, key: Key): State
    decreases |rows|
  {
    if rows == [] then s else Sum(read, ApplyTo(read, s, rows[0], key), rows[1..], key)
  }

  /******* Order does not matter *******/

  lemma BumpCommutes(m: map<Text, Totals>, a: Text, t: Totals, b: Text, u: Totals)
    ensures Bump(Bump(m, a, t), b, u) == Bump(Bump(m, b, u), a, t)
  {
  }

  lemma ApplyCommutes(s: State, a: Row, b: Row)
    ensures Apply(Apply(s, a), b) == Apply(Apply(s, b), a)
  {
    hide Identified, Bump;
    BumpCommutes(s.models, a.model, a.totals, b.model, b.totals);
    BumpCommutes(s.unidentified, a.model, a.totals, b.model, b.totals);
  }

  lemma ApplyToCommutes(read: Reading, s: State, a: Json, b: Json, key: Key)
    ensures ApplyTo(read, ApplyTo(read, s, a, key), b, key) == ApplyTo(read, ApplyTo(read, s, b, key), a, key)
  {
    hide Apply;
    if read(a).Some? && read(b).Some? {
      ApplyCommutes(s, read(a).value, read(b).value);
    }
  }

  lemma {:induction false} SumAppend(read: Reading, s: State, a: seq<Json>, b: seq<Json>, key: Key)
    ensures Sum(read, s, a + b, key) == Sum(read, Sum(read, s, a, key), b, key)
    decreases |a|
  {
    hide ApplyTo;
    if a == [] {
      assert a + b == b;
    } else {
      assert (a + b)[1..] == a[1..] + b;
      SumAppend(read, ApplyTo(read, s, a[0], key), a[1..], b, key);
    }
  }

  lemma {:induction false} SumOne(read: Reading, s: State, row: Json, rows: seq<Json>, key: Key)
    ensures Sum(read, ApplyTo(read, s, row, key), rows, key) == ApplyTo(read, Sum(read, s, rows, key), row, key)
    decreases |rows|
  {
    hide ApplyTo;
    if rows != [] {
      ApplyToCommutes(read, s, row, rows[0], key);
      SumOne(read, ApplyTo(read, s, rows[0], key), row, rows[1..], key);
    }
  }

  // Two batches of rows add up to the same in either order.
  lemma {:induction false} SumCommutes(read: Reading, s: State, a: seq<Json>, b: seq<Json>, key: Key)
    ensures Sum(read, s, a + b, key) == Sum(read, s, b + a, key)
    decreases |a|
  {
    hide ApplyTo;
    SumAppend(read, s, b, a, key);
    if a == [] {
      assert a + b == b && b + a == b;
    } else {
      assert (a + b)[1..] == a[1..] + b;
      var s1 := ApplyTo(read, s, a[0], key);
      SumCommutes(read, s1, a[1..], b, key);
      SumAppend(read, s1, b, a[1..], key);
      SumOne(read, s, a[0], b, key);
      assert Sum(read, Sum(read, s, b, key), a, key) == Sum(read, ApplyTo(read, Sum(read, s, b, key), a[0], key), a[1..], key);
    }
  }

  /******* What a row changes *******/

  // A row leaves a state as it is exactly when it adds nothing that is not there already.
  predicate Absorbed(s: State, r: Row) {
    var ids := Identified(r);
    && r.totals == ZERO && r.model in s.models && CallIds(r) <= s.callIds && r.granularity in s.granularities
    && (if ids.Some? then ids.value <= s.covered else r.model in s.unidentified)
  }

  lemma AbsorbedIffUnchanged(s: State, r: Row)
    ensures Apply(s, r) == s <==> Absorbed(s, r)
  {
    hide Identified;
    if Apply(s, r) == s {
      assert r.model in Bump(s.models, r.model, r.totals) && r.granularity in s.granularities + {r.granularity};
      assert Plus(Of(s.models, r.model), r.totals) == Of(s.models, r.model);
      assert CallIds(r) <= s.callIds + CallIds(r);
    }
    if Absorbed(s, r) {
      assert Bump(s.models, r.model, r.totals) == s.models;
      if Identified(r).None? {
        assert Bump(s.unidentified, r.model, r.totals) == s.unidentified;
      }
    }
  }

  // Adding rows only ever adds.
  predicate AtMost(a: Totals, b: Totals) {
    a.input <= b.input && a.cached <= b.cached && a.cacheWrite <= b.cacheWrite && a.output <= b.output
    && a.reasoning <= b.reasoning && a.total <= b.total && a.calls <= b.calls
  }

  predicate Includes(a: map<Text, Totals>, b: map<Text, Totals>) {
    forall m :: m in a ==> m in b && AtMost(a[m], b[m])
  }

  predicate Within(a: State, b: State) {
    Includes(a.models, b.models) && a.callIds <= b.callIds && a.covered <= b.covered && Includes(a.unidentified, b.unidentified)
    && a.granularities <= b.granularities
  }

  lemma WithinBothWays(a: State, b: State)
    requires Within(a, b) && Within(b, a)
    ensures a == b
  {
    assert a.models == b.models && a.unidentified == b.unidentified;
  }

  lemma {:induction false} SumGrows(read: Reading, s: State, rows: seq<Json>, key: Key)
    ensures Within(s, Sum(read, s, rows, key))
    decreases |rows|
  {
    hide Identified;
    if rows != [] {
      var s1 := ApplyTo(read, s, rows[0], key);
      assert Within(s, s1);
      SumGrows(read, s1, rows[1..], key);
    }
  }

  /******* What a state says of its rows *******/

  datatype Part = Input | Cached | CacheWrite | Output | Reasoning | Total | Calls

  function PartOf(t: Totals, p: Part): nat {
    match p
    case Input => t.input
    case Cached => t.cached
    case CacheWrite => t.cacheWrite
    case Output => t.output
    case Reasoning => t.reasoning
    case Total => t.total
    case Calls => t.calls
  }

  // A usable source call id has a character that is not white space.
  predicate HasInk(id: Text) {
    exists i :: 0 <= i < |id| && !IsSpace(id[i])
  }

  // As many usable ids as the row covers calls, no two alike.
  predicate NamesEach(ids: seq<Text>, covers: Option<nat>) {
    ids != [] && covers == Some(|ids|) && |set id | id in ids| == |ids| && forall id :: id in ids ==> HasInk(id)
  }

  // The row names this source call: its own, or one of those it covers.
  predicate Names(r: Row, id: Text) {
    match r.granularity
    case Call => r.callId == Some(id) && HasInk(id)
    case Session => r.coveredIds.Some? && id in r.coveredIds.value && NamesEach(r.coveredIds.value, r.coversCalls)
  }

  predicate NamesNone(r: Row) {
    match r.granularity
    case Call => r.callId.None? || !HasInk(r.callId.value)
    case Session => r.coveredIds.None? || !NamesEach(r.coveredIds.value, r.coversCalls)
  }

  predicate IsOf(read: Reading, row: Json, key: Key) {
    read(row).Some? && read(row).value.key == key
  }

  // One part of the totals added up over the rows of a session and a model: all of them, or those that
  // name no source call.
  function Column(read: Reading, rows: seq<Json>, key: Key, model: Text, p: Part, nameless: bool): nat {
    if rows == [] then 0
    else
      var rest := Column(read, rows[1..], key, model, p, nameless);
      if IsOf(read, rows[0], key) && read(rows[0]).value.model == model && (nameless ==> NamesNone(read(rows[0]).value))
      then PartOf(read(rows[0]).value.totals, p) + rest else rest
  }

  // What a row says beside its totals.
  datatype Fact = OfModel(model: Text) | Nameless(model: Text) | WithId(id: Text) | Covers(id: Text) | Grained(g: Granularity)

  predicate Says(r: Row, f: Fact) {
    match f
    case OfModel(model) => r.model == model
    case Nameless(model) => r.model == model && NamesNone(r)
    case WithId(id) => r.callId == Some(id) && id != []
    case Covers(id) => Names(r, id)
    case Grained(g) => r.granularity == g
  }

  predicate Records(s: State, f: Fact) {
    match f
    case OfModel(model) => model in s.models
    case Nameless(model) => model in s.unidentified
    case WithId(id) => id in s.callIds
    case Covers(id) => id in s.covered
    case Grained(g) => g in s.granularities
  }

  ghost predicate SomeRowSays(read: Reading, rows: seq<Json>, key: Key, f: Fact) {
    exists i :: 0 <= i < |rows| && IsOf(read, rows[i], key) && Says(read(rows[i]).value, f)
  }

  lemma IdentifiedIffNamed(r: Row)
    ensures Identified(r).None? <==> NamesNone(r)
    ensures Identified(r).Some? ==> forall id :: id in Identified(r).value <==> Names(r, id)
  {
    hide IsBlank, HasInk, AllDistinct;
    assert forall id :: IsBlank(id) <==> !HasInk(id) by {
      BlankHasNoInk();
    }
    if r.granularity == Session && r.coveredIds.Some? {
      var ids := r.coveredIds.value;
      DistinctIffFull(ids);
      assert (forall id :: id in ids ==> HasInk(id)) <==> forall i :: 0 <= i < |ids| ==> !IsBlank(ids[i]);
    }
  }

  lemma BlankHasNoInk()
    ensures forall id :: IsBlank(id) <==> !HasInk(id)
  {
    hide IsSpace;
  }

  lemma {:induction false} DistinctIffFull(ids: seq<Text>)
    ensures AllDistinct(ids) <==> |set id | id in ids| == |ids|
    ensures |set id | id in ids| <= |ids|
  {
    hide AllDistinct;
    if ids == [] {
      NoIdsAreDistinct();
    } else {
      var init, last := ids[..|ids| - 1], ids[|ids| - 1];
      DistinctIffFull(init);
      OneMoreId(init, last);
      assert ids == init + [last];
      assert (set id | id in ids) == (set id | id in init) + {last};
      if last in init {
        assert (set id | id in ids) == set id | id in init;
      }
    }
  }

  lemma NoIdsAreDistinct()
    ensures AllDistinct([])
  {
  }

  lemma OneMoreId(init: seq<Text>, last: Text)
    ensures AllDistinct(init + [last]) <==> AllDistinct(init) && last !in init
  {
    var ids := init + [last];
    assert forall i :: 0 <= i < |init| ==> ids[i] == init[i];
    assert ids[|init|] == last;
  }

  lemma PartsAddUp(a: Totals, b: Totals, p: Part)
    ensures PartOf(Plus(a, b), p) == PartOf(a, p) + PartOf(b, p)
  {
  }

  lemma ApplyAdds(s: State, r: Row, model: Text, p: Part)
    ensures var added := if r.model == model then PartOf(r.totals, p) else 0;
            && PartOf(Of(Apply(s, r).models, model), p) == PartOf(Of(s.models, model), p) + added
            && PartOf(Of(Apply(s, r).unidentified, model), p) ==
               PartOf(Of(s.unidentified, model), p) + if NamesNone(r) then added else 0
  {
    hide Identified, NamesNone, PartOf, Plus;
    IdentifiedIffNamed(r);
    PartsAddUp(Of(s.models, model), r.totals, p);
    PartsAddUp(Of(s.unidentified, model), r.totals, p);
  }

  lemma ApplyRecords(s: State, r: Row, f: Fact)
    ensures Records(Apply(s, r), f) <==> Records(s, f) || Says(r, f)
  {
    hide Identified, NamesNone, Names;
    IdentifiedIffNamed(r);
    if f.Covers? && NamesNone(r) {
      NamelessNamesNothing(r, f.id);
    }
  }

  lemma NamelessNamesNothing(r: Row, id: Text)
    requires NamesNone(r)
    ensures !Names(r, id)
  {
  }

  lemma {:induction false} SumAdds(read: Reading, s: State, rows: seq<Json>, key: Key, model: Text, p: Part)
    ensures PartOf(Of(Sum(read, s, rows, key).models, model), p) ==
            PartOf(Of(s.models, model), p) + Column(read, rows, key, model, p, false)
    ensures PartOf(Of(Sum(read, s, rows, key).unidentified, model), p) ==
            PartOf(Of(s.unidentified, model), p) + Column(read, rows, key, model, p, true)
    decreases |rows|
  {
    hide Apply, NamesNone, PartOf;
    if rows != [] {
      SumAdds(read, ApplyTo(read, s, rows[0], key), rows[1..], key, model, p);
      if IsOf(read, rows[0], key) {
        ApplyAdds(s, read(rows[0]).value, model, p);
      }
    }
  }

  lemma {:induction false} SumRecords(read: Reading, s: State, rows: seq<Json>, key: Key, f: Fact)
    ensures Records(Sum(read, s, rows, key), f) <==>
            Records(s, f) || SomeRowSays(read, rows, key, f)
    decreases |rows|
  {
    hide Apply, Says, Records;
    if rows != [] {
      var rest := rows[1..];
      SumRecords(read, ApplyTo(read, s, rows[0], key), rest, key, f);
      if IsOf(read, rows[0], key) {
        ApplyRecords(s, read(rows[0]).value, f);
      }
      if i :| 0 <= i < |rest| && IsOf(read, rest[i], key) && Says(read(rest[i]).value, f) {
        assert rows[i + 1] == rest[i];
      }
      if i :| 0 < i < |rows| && IsOf(read, rows[i], key) && Says(read(rows[i]).value, f) {
        assert rest[i - 1] == rows[i];
      }
    }
  }

  // A session's recorded state is read off its rows: each model's totals are the sums over all its rows, the
  // unidentified totals the sums over exactly those that name no source call, and every call id, covered
  // call, model and granularity is there because some row says so.
  lemma StateIsReadOffTheRows(read: Reading, rows: seq<Json>, key: Key)
    ensures var s := Sum(read, BLANK, rows, key);
            && (forall m, p :: PartOf(Of(s.models, m), p) == Column(read, rows, key, m, p, false))
            && (forall m, p :: PartOf(Of(s.unidentified, m), p) == Column(read, rows, key, m, p, true))
            && forall f :: Records(s, f) <==> SomeRowSays(read, rows, key, f)
  {
    hide Sum, Column, SomeRowSays;
    var s := Sum(read, BLANK, rows, key);
    forall m, p
      ensures PartOf(Of(s.models, m), p) == Column(read, rows, key, m, p, false)
      ensures PartOf(Of(s.unidentified, m), p) == Column(read, rows, key, m, p, true)
    {
      SumAdds(read, BLANK, rows, key, m, p);
    }
    forall f ensures Records(s, f) <==> SomeRowSays(read, rows, key, f) {
      SumRecords(read, BLANK, rows, key, f);
    }
  }
}
