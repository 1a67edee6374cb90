/**
 Billing a growing log once, per call or per session. Logs grow or are rewritten, metrics are rolled back
 or replaced by any of their rows, checkpoints get lost, and an ingest may be killed after any row; still
 every recorded row pays for calls that no other row pays for. Whether everything owed gets paid, and whether
 a checkpoint tells the truth, turns on the record ids of aggregate rows: `Collides` says exactly when.
 */
module Billing {
  import opened Wrappers
  import opened Json
  import opened Usage

  // A call of a log. `totals.calls` is 1.
  datatype Call = Call(session: Text, native: Text, model: Text, totals: Totals)

  // What a record id is hashed from: the source's own id of a call, or what makes an aggregate row unique.
  datatype Native = Plain(text: Text) | Aggregate(model: Text, prior: nat, calls: nat)

  // `call_id_for`, as a hash without collisions.
  type Hashing = (Text, Native) -> Text

  ghost predicate HashOk(h: Hashing) {
    && (forall s, n :: !IsBlank(h(s, n)))
    && (forall s, n, s', n' :: h(s, n) == h(s', n') ==> s == s' && n == n')
  }

  function IdOf(h: Hashing, c: Call): Text {
    h(c.session, Plain(c.native))
  }

  function Ids(h: Hashing, calls: set<Call>): set<Text> {
    set c | c in calls :: IdOf(h, c)
  }

  // One id, one call, wherever and whenever it appears.
  predicate Consistent(calls: set<Call>) {
    && (forall c :: c in calls ==> c.totals.calls == 1)
    && forall c, d :: c in calls && d in calls && c.session == d.session && c.native == d.native ==> c == d
  }

  /******* Sums over sets of calls *******/

  ghost function SumSet(calls: set<Call>): Totals {
    if calls == {} then ZERO
    else
      var c :| c in calls;
      Plus(c.totals, SumSet(calls - {c}))
  }

  lemma PlusLaws(a: Totals, b: Totals, c: Totals)
    ensures Plus(a, b) == Plus(b, a) && Plus(Plus(a, b), c) == Plus(a, Plus(b, c)) && Plus(ZERO, a) == a
  {
  }

  lemma {:induction false} SumSetAdd(calls: set<Call>, c: Call)
    requires c !in calls
    ensures SumSet(calls + {c}) == Plus(c.totals, SumSet(calls))
    decreases |calls|
  {
    var all := calls + {c};
    var d :| d in all && SumSet(all) == Plus(d.totals, SumSet(all - {d}));
    if d == c {
      assert all - {c} == calls;
    } else {
      assert all - {d} == (calls - {d}) + {c};
      SumSetAdd(calls - {d}, c);
      SumSetAdd(calls - {d}, d);
      assert (calls - {d}) + {d} == calls;
      PlusLaws(d.totals, c.totals, SumSet(calls - {d}));
      PlusLaws(c.totals, d.totals, SumSet(calls - {d}));
    }
  }

  lemma {:induction false} SumSetUnion(a: set<Call>, b: set<Call>)
    requires a !! b
    ensures SumSet(a + b) == Plus(SumSet(a), SumSet(b))
    decreases |b|
  {
    hide SumSet, Plus;
    if b == {} {
      assert a + b == a;
      SumSetEmpty();
      PlusLaws(SumSet(a), ZERO, ZERO);
      PlusLaws(ZERO, SumSet(a), ZERO);
    } else {
      var c :| c in b;
      SumSetUnion(a, b - {c});
      SumSetAdd(a + (b - {c}), c);
      assert a + (b - {c}) + {c} == a + b;
      SumSetAdd(b - {c}, c);
      assert (b - {c}) + {c} == b;
      PlusLaws(c.totals, SumSet(a), SumSet(b - {c}));
      PlusLaws(SumSet(a), c.totals, SumSet(b - {c}));
    }
  }

  lemma SumSetEmpty()
    ensures SumSet({}) == ZERO
  {
  }

  // More calls, no less usage; and the count of calls is their number.
  lemma {:induction false} SumSetCounts(calls: set<Call>)
    requires forall c :: c in calls ==> c.totals.calls == 1
    ensures SumSet(calls).calls == |calls|
    decreases |calls|
  {
    if calls != {} {
      var c :| c in calls;
      SumSetCounts(calls - {c});
      SumSetAdd(calls - {c}, c);
      assert calls - {c} + {c} == calls;
    }
  }

  lemma SumSetMonotone(a: set<Call>, b: set<Call>)
    requires a <= b
    ensures AtMost(SumSet(a), SumSet(b))
  {
    hide SumSet;
    SumSetUnion(a, b - a);
    assert a + (b - a) == b;
  }

  // The calls of one session and model.
  function Under(calls: set<Call>, session: Text, model: Text): set<Call> {
    set c | c in calls && c.session == session && c.model == model
  }

  /******* The books *******/

  // A session's state after these rows: what the ingest ledger holds for it.
  function Totalled(rows: seq<Row>, key: Key): State {
    if rows == [] then BLANK
    else
      var s, r := Totalled(rows[..|rows| - 1], key), rows[|rows| - 1];
      if r.key == key then Apply(s, r) else s
  }

  function Union(sets: seq<set<Call>>): set<Call> {
    if sets == [] then {} else Union(sets[..|sets| - 1]) + sets[|sets| - 1]
  }

  // The record id of an aggregate row that pays for `calls` calls after `prior` calls of its group were recorded.
  function AggregateId(h: Hashing, session: Text, model: Text, prior: nat, calls: nat): Text {
    h(session, Aggregate(model, prior, calls))
  }

  // The record id is one that a row for these calls gets.
  ghost predicate HasId(h: Hashing, r: Row, calls: set<Call>) {
    if r.granularity == Granularity.Call then exists c :: c in calls && calls == {c} && r.callId == Some(IdOf(h, c))
    else exists prior: nat :: r.callId == Some(AggregateId(h, r.key.session, r.model, prior, r.totals.calls))
  }

  // The row pays for exactly these calls, all of one session and model.
  ghost predicate Pays(h: Hashing, runtime: Text, r: Row, calls: set<Call>) {
    && calls != {}
    && r.key.runtime == runtime
    && (forall c :: c in calls ==> c.session == r.key.session && c.model == r.model)
    && r.totals == SumSet(calls)
    && Identified(r) == Some(Ids(h, calls))
    && HasId(h, r, calls)
  }

  ghost predicate Separate(rows: seq<Row>, paid: seq<set<Call>>)
    requires |paid| == |rows|
  {
    forall i, j :: 0 <= i < j < |rows| ==> paid[i] !! paid[j] && rows[i].callId != rows[j].callId
  }

  // Each row pays for calls that no other row pays for, under a record id that no other row has.
  ghost predicate BooksOk(h: Hashing, runtime: Text, rows: seq<Row>, paid: seq<set<Call>>) {
    && |paid| == |rows|
    && (forall i :: 0 <= i < |rows| ==> Pays(h, runtime, rows[i], paid[i]))
    && Separate(rows, paid)
  }

  function InSession(calls: set<Call>, session: Text): set<Call> {
    set c | c in calls && c.session == session
  }

  lemma BooksPrefix(h: Hashing, runtime: Text, rows: seq<Row>, paid: seq<set<Call>>, n: nat)
    requires BooksOk(h, runtime, rows, paid) && n <= |rows|
    ensures |paid| == |rows| && BooksOk(h, runtime, rows[..n], paid[..n])
  {
    hide Pays;
  }

  lemma BooksLength(h: Hashing, runtime: Text, rows: seq<Row>, paid: seq<set<Call>>)
    requires BooksOk(h, runtime, rows, paid)
    ensures |paid| == |rows|
  {
  }

  predicate IsTaken(rows: seq<Row>, id: Option<Text>) {
    exists r :: r in rows && r.callId == id
  }

  lemma BooksExtend(h: Hashing, runtime: Text, rows: seq<Row>, paid: seq<set<Call>>, r: Row, calls: set<Call>)
    requires BooksOk(h, runtime, rows, paid) && Pays(h, runtime, r, calls) && calls !! Union(paid) && !IsTaken(rows, r.callId)
    ensures BooksOk(h, runtime, rows + [r], paid + [calls])
    ensures Union(paid + [calls]) == Union(paid) + calls
  {
    hide Pays;
    var rows', paid' := rows + [r], paid + [calls];
    forall i, j | 0 <= i < j < |rows'| ensures paid'[i] !! paid'[j] && rows'[i].callId != rows'[j].callId {
      if j == |rows| {
        UnionMember(paid, i);
        assert rows[i] in rows;
      }
    }
    assert paid'[..|paid|] == paid;
  }

  // The rows with these indices, each once, in any order.
  function Picked<T>(s: seq<T>, kept: seq<nat>): seq<T>
    requires forall i :: 0 <= i < |kept| ==> kept[i] < |s|
  {
    seq(|kept|, i requires 0 <= i < |kept| => s[kept[i]])
  }

  predicate IsPick(kept: seq<nat>, n: nat) {
    && (forall i :: 0 <= i < |kept| ==> kept[i] < n)
    && forall i, j :: 0 <= i < j < |kept| ==> kept[i] != kept[j]
  }

  // Whichever rows are kept are books.
  lemma BooksPick(h: Hashing, runtime: Text, rows: seq<Row>, paid: seq<set<Call>>, kept: seq<nat>)
    requires BooksOk(h, runtime, rows, paid) && IsPick(kept, |rows|)
    ensures |paid| == |rows| && BooksOk(h, runtime, Picked(rows, kept), Picked(paid, kept))
    ensures Union(Picked(paid, kept)) <= Union(paid)
  {
    hide Pays, Union;
    forall i, j | 0 <= i < j < |kept| ensures paid[kept[i]] !! paid[kept[j]] && rows[kept[i]].callId != rows[kept[j]].callId {
      if kept[i] < kept[j] {
        assert paid[kept[i]] !! paid[kept[j]];
      } else {
        assert paid[kept[j]] !! paid[kept[i]];
      }
    }
    forall c | c in Union(Picked(paid, kept)) ensures c in Union(paid) {
      MemberOf(Picked(paid, kept), c);
      var i :| 0 <= i < |kept| && c in Picked(paid, kept)[i];
      UnionMember(paid, kept[i]);
    }
  }

  // The last row's calls are not paid for by an earlier row.
  lemma LastIsApart(h: Hashing, runtime: Text, rows: seq<Row>, paid: seq<set<Call>>, n: nat)
    requires BooksOk(h, runtime, rows, paid) && n < |rows|
    ensures |paid| == |rows| && paid[n] !! Union(paid[..n]) && Pays(h, runtime, rows[n], paid[n])
  {
    hide Pays, Union;
    forall c | c in Union(paid[..n]) ensures c !in paid[n] {
      MemberOf(paid[..n], c);
      var i :| 0 <= i < n && c in paid[..n][i];
      assert paid[i] !! paid[n];
    }
  }

  // What the ledger holds for a session is what the calls paid for add up to, model by model, and it
  // knows the id of every one of them. In particular it never holds more than the calls there were.
  lemma {:induction false} BooksAddUp(h: Hashing, runtime: Text, rows: seq<Row>, paid: seq<set<Call>>, session: Text, model: Text)
    requires BooksOk(h, runtime, rows, paid)
    ensures var state := Totalled(rows, Key(runtime, session));
            && Of(state.models, model) == SumSet(Under(Union(paid), session, model))
            && state.covered == Ids(h, InSession(Union(paid), session))
            && state.unidentified == map[]
  {
    if rows != [] {
      var n := |rows| - 1;
      LastIsApart(h, runtime, rows, paid, n);
      BooksPrefix(h, runtime, rows, paid, n);
      BooksAddUp(h, runtime, rows[..n], paid[..n], session, model);
      RowAddsUp(h, Union(paid[..n]), rows[n], paid[n], session, model);
    }
  }

  lemma RowAddsUp(h: Hashing, before: set<Call>, r: Row, calls: set<Call>, session: Text, model: Text)
    requires calls != {} && calls !! before
    requires forall c :: c in calls ==> c.session == r.key.session && c.model == r.model
    ensures r.key.session == session && r.model == model ==>
              SumSet(Under(before + calls, session, model)) == Plus(SumSet(Under(before, session, model)), SumSet(calls))
    ensures r.key.session != session || r.model != model ==> Under(before + calls, session, model) == Under(before, session, model)
    ensures Ids(h, InSession(before + calls, session)) ==
            Ids(h, InSession(before, session)) + (if r.key.session == session then Ids(h, calls) else {})
  {
    if r.key.session == session && r.model == model {
      assert Under(before + calls, session, model) == Under(before, session, model) + calls;
      SumSetUnion(Under(before, session, model), calls);
    }
    if r.key.session == session {
      assert InSession(before + calls, session) == InSession(before, session) + calls;
    } else {
      assert InSession(before + calls, session) == InSession(before, session);
    }
  }

  /******* When record ids collide *******/

  // The calls recorded for a group only grow, by at least one a row.
  lemma RecordedGrows(h: Hashing, runtime: Text, rows: seq<Row>, paid: seq<set<Call>>, i: nat)
    requires BooksOk(h, runtime, rows, paid) && Consistent(Union(paid)) && i < |rows|
    ensures Recorded(rows[..i], runtime, GroupOf(rows[i])) < Recorded(rows, runtime, GroupOf(rows[i]))
  {
    var r := rows[i];
    var session, model := r.key.session, r.model;
    LastIsApart(h, runtime, rows, paid, i);
    BooksPrefix(h, runtime, rows, paid, i);
    BooksAddUp(h, runtime, rows[..i], paid[..i], session, model);
    BooksAddUp(h, runtime, rows, paid, session, model);
    UnionMember(paid, i);
    var a, b := Under(Union(paid[..i]), session, model), Under(Union(paid), session, model);
    SumSetUnion(a, paid[i]);
    SumSetMonotone(a + paid[i], b);
    assert forall c :: c in paid[i] ==> c.totals.calls == 1;
    SumSetCounts(paid[i]);
  }

  lemma {:induction false} UnionMember(paid: seq<set<Call>>, i: nat)
    requires i < |paid|
    ensures Union(paid[..i]) <= Union(paid) && paid[i] <= Union(paid)
  {
    var n := |paid| - 1;
    if i < n {
      UnionMember(paid[..n], i);
      assert paid[..n][..i] == paid[..i];
    }
  }

  lemma HashNotBlank(h: Hashing, s: Text, n: Native)
    requires HashOk(h)
    ensures !IsBlank(h(s, n)) && h(s, n) != []
  {
    var t := h(s, n);
    assert t != [] || IsBlank(t);
  }

  lemma SameHash(h: Hashing, s: Text, n: Native, s': Text, n': Native)
    requires HashOk(h) && h(s, n) == h(s', n')
    ensures s == s' && n == n'
  {
  }

  // A row for one call shares its record id with no row for other calls, aggregates included.
  lemma CallRowsDiffer(h: Hashing, a: Row, as_: set<Call>, b: Row, bs: set<Call>)
    requires HashOk(h) && HasId(h, a, as_) && HasId(h, b, bs) && a.granularity == Granularity.Call
    requires as_ !! bs && as_ != {} && Consistent(as_ + bs)
    ensures a.callId != b.callId
  {
    var c :| c in as_ && as_ == {c} && a.callId == Some(IdOf(h, c));
    assert forall d :: d in as_ || d in bs ==> d in as_ + bs;
    if a.callId == b.callId {
      if b.granularity == Granularity.Call {
        var d :| d in bs && bs == {d} && b.callId == Some(IdOf(h, d));
        SameHash(h, c.session, Plain(c.native), d.session, Plain(d.native));
      } else {
        var prior: nat :| b.callId == Some(AggregateId(h, b.key.session, b.model, prior, b.totals.calls));
        SameHash(h, c.session, Plain(c.native), b.key.session, Aggregate(b.model, prior, b.totals.calls));
      }
    }
  }

  datatype GroupKey = GroupKey(session: Text, model: Text)

  // The calls the ledger has recorded for a group.
  function Recorded(rows: seq<Row>, runtime: Text, k: GroupKey): nat {
    Of(Totalled(rows, Key(runtime, k.session)).models, k.model).calls
  }

  function GroupOf(r: Row): GroupKey {
    GroupKey(r.key.session, r.model)
  }

  // The row has the record id that it gets after these rows; only an aggregate's depends on them.
  predicate IsNext(h: Hashing, runtime: Text, earlier: seq<Row>, r: Row) {
    r.granularity == Granularity.Session ==>
      r.callId == Some(AggregateId(h, r.key.session, r.model, Recorded(earlier, runtime, GroupOf(r)), r.totals.calls))
  }

  // Nothing was ever taken out from between the rows: each got its record id after just the ones before it.
  predicate Chained(h: Hashing, runtime: Text, rows: seq<Row>) {
    forall i :: 0 <= i < |rows| ==> IsNext(h, runtime, rows[..i], rows[i])
  }

  lemma ChainedPrefix(h: Hashing, runtime: Text, rows: seq<Row>, n: nat)
    requires Chained(h, runtime, rows) && n <= |rows|
    ensures Chained(h, runtime, rows[..n])
  {
    hide IsNext;
    forall i | 0 <= i < n ensures IsNext(h, runtime, rows[..n][..i], rows[..n][i]) {
      assert rows[..n][..i] == rows[..i];
    }
  }

  lemma ChainedExtend(h: Hashing, runtime: Text, rows: seq<Row>, r: Row)
    requires Chained(h, runtime, rows) && IsNext(h, runtime, rows, r)
    ensures Chained(h, runtime, rows + [r])
  {
    hide IsNext;
    forall i | 0 <= i < |rows + [r]| ensures IsNext(h, runtime, (rows + [r])[..i], (rows + [r])[i]) {
      assert (rows + [r])[..i] == if i == |rows| then rows else rows[..i];
    }
  }

  // Then the record id of the next aggregate of a group is new, whatever it pays for.
  lemma AggregateIsNew(h: Hashing, runtime: Text, rows: seq<Row>, paid: seq<set<Call>>, k: GroupKey, calls: nat)
    requires HashOk(h) && BooksOk(h, runtime, rows, paid) && Consistent(Union(paid)) && Chained(h, runtime, rows)
    ensures !IsTaken(rows, Some(AggregateId(h, k.session, k.model, Recorded(rows, runtime, k), calls)))
  {
    hide HashOk, SumSet, Identified, Totalled, Union, Consistent, Recorded;
    var n := Aggregate(k.model, Recorded(rows, runtime, k), calls);
    forall a | a in rows ensures a.callId != Some(h(k.session, n)) {
      var i :| 0 <= i < |rows| && rows[i] == a;
      assert HasId(h, a, paid[i]) && IsNext(h, runtime, rows[..i], a);
      if a.callId == Some(h(k.session, n)) {
        if a.granularity == Granularity.Call {
          var c :| c in paid[i] && paid[i] == {c} && a.callId == Some(IdOf(h, c));
          SameHash(h, c.session, Plain(c.native), k.session, n);
        } else {
          SameHash(h, a.key.session, Aggregate(a.model, Recorded(rows[..i], runtime, GroupOf(a)), a.totals.calls), k.session, n);
          RecordedGrows(h, runtime, rows, paid, i);
        }
      }
    }
  }

  // A row for calls not yet paid has a record id no recorded row has, if it is a row for one call, or if nothing
  // was ever taken out from between the recorded rows.
  lemma NewIdIsFresh(h: Hashing, runtime: Text, rows: seq<Row>, paid: seq<set<Call>>, r: Row, calls: set<Call>)
    requires HashOk(h) && BooksOk(h, runtime, rows, paid) && Consistent(Union(paid) + calls)
    requires Pays(h, runtime, r, calls) && calls !! Union(paid) && IsNext(h, runtime, rows, r)
    requires r.granularity == Granularity.Call || Chained(h, runtime, rows)
    ensures !IsTaken(rows, r.callId)
  {
    hide HashOk, SumSet, Identified, HasId, Totalled, Union, Consistent, Recorded, Chained;
    ConsistentPart(Union(paid) + calls, Union(paid));
    if r.granularity == Granularity.Session {
      AggregateIsNew(h, runtime, rows, paid, GroupOf(r), r.totals.calls);
    } else {
      forall a | a in rows ensures a.callId != r.callId {
        var i :| 0 <= i < |rows| && rows[i] == a;
        UnionMember(paid, i);
        ConsistentPart(Union(paid) + calls, calls + paid[i]);
        CallRowsDiffer(h, r, calls, a, paid[i]);
      }
    }
  }

  // Some aggregate row owed for these calls has a record id that a recorded row already has.
  predicate GroupsCollide(h: Hashing, runtime: Text, rows: seq<Row>, new_: set<Call>) {
    exists c :: c in new_ && IsTaken(rows, OwedId(h, runtime, rows, new_, GroupKey(c.session, c.model)))
  }

  lemma ChainedNeverCollides(h: Hashing, runtime: Text, rows: seq<Row>, paid: seq<set<Call>>, new_: set<Call>)
    requires HashOk(h) && BooksOk(h, runtime, rows, paid) && Consistent(Union(paid)) && Chained(h, runtime, rows)
    ensures !GroupsCollide(h, runtime, rows, new_)
  {
    hide HashOk, BooksOk, Chained, Consistent, Union, Recorded, IsTaken;
    forall c | c in new_ ensures !IsTaken(rows, OwedId(h, runtime, rows, new_, GroupKey(c.session, c.model))) {
      AggregateIsNew(h, runtime, rows, paid, GroupKey(c.session, c.model), |Under(new_, c.session, c.model)|);
    }
  }

  /******* One ingest *******/

  function Elements(calls: seq<Call>): set<Call> {
    set c | c in calls
  }

  function Sessions(calls: seq<Call>): set<Text> {
    set c | c in calls :: c.session
  }

  predicate DistinctCalls(calls: seq<Call>) {
    forall i, j :: 0 <= i < j < |calls| ==> calls[i] != calls[j]
  }

  // The calls not covered yet, each once, in log order.
  method NewCalls(h: Hashing, calls: seq<Call>, covered: set<Text>) returns (new_: seq<Call>)
    requires HashOk(h) && Consistent(Elements(calls))
    ensures DistinctCalls(new_)
    ensures forall c :: c in new_ <==> c in calls && IdOf(h, c) !in covered
  {
    hide HashOk;
    new_ := [];
    var seen := covered;
    var i := 0;
    while i < |calls|
      invariant 0 <= i <= |calls| && DistinctCalls(new_)
      invariant forall c :: c in new_ <==> c in calls[..i] && IdOf(h, c) !in covered
      invariant seen == covered + Ids(h, Elements(new_))
    {
      var c := calls[i];
      assert calls[..i + 1] == calls[..i] + [c];
      if IdOf(h, c) !in seen {
        new_ := new_ + [c];
        seen := seen + {IdOf(h, c)};
      } else if IdOf(h, c) !in covered {
        var d :| d in new_ && IdOf(h, d) == IdOf(h, c);
        SameHash(h, c.session, Plain(c.native), d.session, Plain(d.native));
        assert c in Elements(calls) && d in Elements(calls);
      }
      i := i + 1;
    }
    assert calls[..i] == calls;
  }

  lemma AppendOne<T>(a: seq<T>, b: seq<T>, x: T)
    ensures a + b + [x] == a + (b + [x])
  {
  }

  // Record ids a call row and its call share.
  function CallRow(h: Hashing, runtime: Text, c: Call): Row {
    Row(Key(runtime, c.session), c.model, c.totals, None, Some(IdOf(h, c)), None, Granularity.Call)
  }

  method CallRows(h: Hashing, runtime: Text, new_: seq<Call>) returns (records: seq<Row>, ghost sets: seq<set<Call>>)
    requires HashOk(h) && DistinctCalls(new_) && Consistent(Elements(new_))
    ensures |records| == |new_| && forall i :: 0 <= i < |new_| ==> records[i] == CallRow(h, runtime, new_[i])
    ensures BooksOk(h, runtime, records, sets) && Union(sets) == Elements(new_)
  {
    hide HashOk, BooksOk, Identified, Pays, SumSet, CallRow, Consistent, Union, IsTaken;
    records, sets := [], [];
    var i := 0;
    NoBooks(h, runtime);
    while i < |new_|
      invariant 0 <= i <= |new_| && |records| == |sets| == i
      invariant forall j :: 0 <= j < i ==> records[j] == CallRow(h, runtime, new_[j])
      invariant BooksOk(h, runtime, records, sets)
      invariant Union(sets) == Elements(new_[..i])
    {
      var c := new_[i];
      assert c !in new_[..i] && c in new_;
      CallRowPays(h, runtime, c);
      assert new_[..i + 1] == new_[..i] + [c];
      assert Elements(new_[..i + 1]) == Elements(new_[..i]) + {c} <= Elements(new_);
      ConsistentPart(Elements(new_), Union(sets) + {c});
      NewIdIsFresh(h, runtime, records, sets, CallRow(h, runtime, c), {c});
      BooksExtend(h, runtime, records, sets, CallRow(h, runtime, c), {c});
      records, sets := records + [CallRow(h, runtime, c)], sets + [{c}];
      i := i + 1;
    }
    assert new_[..i] == new_;
  }

  lemma NoBooks(h: Hashing, runtime: Text)
    ensures BooksOk(h, runtime, [], []) && Union([]) == {}
  {
  }

  lemma CallRowPays(h: Hashing, runtime: Text, c: Call)
    requires HashOk(h)
    ensures Pays(h, runtime, CallRow(h, runtime, c), {c}) && CallRow(h, runtime, c).granularity == Granularity.Call
    ensures forall rows :: IsNext(h, runtime, rows, CallRow(h, runtime, c))
  {
    hide Totalled, HashOk, IsBlank, SumSet;
    assert {} + {c} == {c};
    SumSetAdd({}, c);
    SumSetEmpty();
    PlusLaws(c.totals, ZERO, ZERO);
    HashNotBlank(h, c.session, Plain(c.native));
    assert Ids(h, {c}) == {IdOf(h, c)};
  }

  datatype Group = Group(totals: Totals, ids: seq<Text>)

  ghost predicate GroupOk(h: Hashing, g: Group, calls: set<Call>) {
    && calls != {} && g.totals == SumSet(calls) && |g.ids| == g.totals.calls
    && (set id | id in g.ids) == Ids(h, calls) && AllDistinct(g.ids)
  }

  // `_observe`: totals and call ids per session and model.
  method Observe(h: Hashing, calls: seq<Call>) returns (groups: map<GroupKey, Group>)
    requires HashOk(h) && DistinctCalls(calls) && Consistent(Elements(calls))
    ensures forall k :: k in groups ==> GroupOk(h, groups[k], Under(Elements(calls), k.session, k.model))
    ensures forall c :: c in calls ==> GroupKey(c.session, c.model) in groups
  {
    hide HashOk, GroupOk, IdOf;
    groups := map[];
    var i := 0;
    while i < |calls|
      invariant 0 <= i <= |calls|
      invariant forall k :: k in groups ==> GroupOk(h, groups[k], Under(Elements(calls[..i]), k.session, k.model))
      invariant forall c :: c in calls[..i] ==> GroupKey(c.session, c.model) in groups
    {
      var c := calls[i];
      var key := GroupKey(c.session, c.model);
      var group := if key in groups then groups[key] else Group(ZERO, []);
      ghost var before := Under(Elements(calls[..i]), c.session, c.model);
      assert calls[..i + 1] == calls[..i] + [c] && c !in calls[..i] && c in Elements(calls);
      assert key !in groups ==> before == {};
      assert before <= Elements(calls);
      if key in groups {
        GroupsAreNotEmpty(h, group, before);
      }
      GroupGrows(h, group, before, c, Elements(calls));
      forall k: GroupKey | k != key
        ensures Under(Elements(calls[..i + 1]), k.session, k.model) == Under(Elements(calls[..i]), k.session, k.model)
      {
      }
      assert Under(Elements(calls[..i + 1]), c.session, c.model) == before + {c};
      groups := groups[key := Group(Plus(group.totals, c.totals), group.ids + [IdOf(h, c)])];
      i := i + 1;
    }
    assert calls[..i] == calls;
  }

  lemma GroupStarts(h: Hashing, g: Group, before: set<Call>)
    requires if before == {} then g == Group(ZERO, []) else GroupOk(h, g, before)
    ensures g.totals == SumSet(before) && |g.ids| == g.totals.calls
  {
    SumSetEmpty();
    if before != {} {
      GroupFacts(h, g, before);
    }
    hide SumSet, GroupOk;
  }

  lemma GroupTotalsGrow(g: Group, before: set<Call>, c: Call)
    requires c.totals.calls == 1 && c !in before
    requires g.totals == SumSet(before) && |g.ids| == g.totals.calls
    ensures Plus(g.totals, c.totals) == SumSet(before + {c}) && |g.ids| + 1 == Plus(g.totals, c.totals).calls
  {
    hide SumSet;
    SumSetAdd(before, c);
    PlusLaws(g.totals, c.totals, ZERO);
  }

  lemma GroupFacts(h: Hashing, g: Group, calls: set<Call>)
    requires GroupOk(h, g, calls)
    ensures g.totals == SumSet(calls) && |g.ids| == g.totals.calls
  {
  }

  lemma GroupIdsGrow(h: Hashing, g: Group, before: set<Call>, c: Call, all: set<Call>)
    requires HashOk(h) && Consistent(all) && before <= all && c in all && c !in before
    requires if before == {} then g == Group(ZERO, []) else GroupOk(h, g, before)
    ensures AllDistinct(g.ids + [IdOf(h, c)]) && (set id | id in g.ids + [IdOf(h, c)]) == Ids(h, before + {c})
  {
    hide HashOk, SumSet, IdOf, Consistent, AllDistinct, Ids;
    NewId(h, before, c, all);
    IdsAdd(h, before, c);
    NoneDistinct(h);
    AppendId(g.ids, IdOf(h, c));
  }

  lemma GroupGrows(h: Hashing, g: Group, before: set<Call>, c: Call, all: set<Call>)
    requires HashOk(h) && Consistent(all) && before <= all && c in all && c !in before
    requires if before == {} then g == Group(ZERO, []) else GroupOk(h, g, before)
    ensures GroupOk(h, Group(Plus(g.totals, c.totals), g.ids + [IdOf(h, c)]), before + {c})
  {
    hide HashOk, SumSet, IdOf, Consistent, AllDistinct, Ids, Plus;
    GroupStarts(h, g, before);
    OneCall(all, c);
    GroupTotalsGrow(g, before, c);
    GroupIdsGrow(h, g, before, c, all);
  }

  lemma IdsAdd(h: Hashing, calls: set<Call>, c: Call)
    ensures Ids(h, calls + {c}) == Ids(h, calls) + {IdOf(h, c)}
  {
  }

  lemma OneCall(all: set<Call>, c: Call)
    requires Consistent(all) && c in all
    ensures c.totals.calls == 1
  {
  }

  lemma NoneDistinct(h: Hashing)
    ensures AllDistinct([]) && (set x: Text | x in []) == {} == Ids(h, {})
  {
  }

  lemma GroupsAreNotEmpty(h: Hashing, g: Group, calls: set<Call>)
    requires GroupOk(h, g, calls)
    ensures calls != {}
  {
  }

  lemma AppendId(ids: seq<Text>, id: Text)
    requires AllDistinct(ids) && id !in (set x | x in ids)
    ensures AllDistinct(ids + [id]) && (set x | x in ids + [id]) == (set x | x in ids) + {id}
  {
    assert forall x :: x in ids + [id] <==> x in ids || x == id;
  }

  lemma NewId(h: Hashing, before: set<Call>, c: Call, all: set<Call>)
    requires HashOk(h) && Consistent(all) && before <= all && c in all && c !in before
    ensures IdOf(h, c) !in Ids(h, before)
  {
    hide HashOk;
    if IdOf(h, c) in Ids(h, before) {
      var d :| d in before && IdOf(h, d) == IdOf(h, c);
      SameHash(h, c.session, Plain(c.native), d.session, Plain(d.native));
    }
  }

  function SessionRow(h: Hashing, runtime: Text, k: GroupKey, g: Group, prior: nat): Row {
    Row(Key(runtime, k.session), k.model, g.totals, Some(g.totals.calls),
        Some(AggregateId(h, k.session, k.model, prior, g.totals.calls)), Some(g.ids), Granularity.Session)
  }

  // The aggregate row owed for the new calls of a group has this record id.
  function OwedId(h: Hashing, runtime: Text, rows: seq<Row>, new_: set<Call>, k: GroupKey): Option<Text> {
    Some(AggregateId(h, k.session, k.model, Recorded(rows, runtime, k), |Under(new_, k.session, k.model)|))
  }

  // One aggregate row for each group of the new calls, under the record id owed to it.
  ghost predicate Aggregated(h: Hashing, runtime: Text, rows: seq<Row>, records: seq<Row>, sets: seq<set<Call>>, new_: set<Call>) {
    && |sets| == |records|
    && (forall j :: 0 <= j < |records| ==> AggregateOf(h, runtime, rows, records[j], sets[j], new_))
    && forall i, j :: 0 <= i < j < |records| ==> GroupOf(records[i]) != GroupOf(records[j])
  }

  ghost predicate AggregateOf(h: Hashing, runtime: Text, rows: seq<Row>, r: Row, calls: set<Call>, new_: set<Call>) {
    && r.granularity == Granularity.Session && calls == Under(new_, r.key.session, r.model)
    && r.callId == OwedId(h, runtime, rows, new_, GroupOf(r)) && r.totals.calls == |calls|
  }

  // `_session_rows`: one row for each group, in any order.
  method SessionRows(h: Hashing, runtime: Text, rows: seq<Row>, new_: seq<Call>) returns (records: seq<Row>, ghost sets: seq<set<Call>>)
    requires HashOk(h) && DistinctCalls(new_) && Consistent(Elements(new_))
    ensures AllCovered(h, runtime, records, new_)
    ensures BooksOk(h, runtime, records, sets) && Union(sets) == Elements(new_)
    ensures Aggregated(h, runtime, rows, records, sets, Elements(new_))
  {
    hide HashOk, BooksOk, Identified, Pays, SumSet, AllCovered, SessionRow, Consistent, Union, Totalled, GroupOk, IsTaken, Aggregated, AggregateOf,
      Recorded, Under, OwedId, OutOf;
    var groups := Observe(h, new_);
    ghost var all := Elements(new_);
    records, sets := [], [];
    var keys := groups.Keys;
    NoBooks(h, runtime);
    NothingAggregated(h, runtime, rows, new_, keys);
    while keys != {}
      invariant keys <= groups.Keys
      invariant BooksOk(h, runtime, records, sets) && Aggregated(h, runtime, rows, records, sets, all)
      invariant Union(sets) == OutOf(all, keys)
      invariant forall r :: r in records ==> GroupOf(r) in groups.Keys - keys
    {
      var k :| k in keys;
      var r := SessionRow(h, runtime, k, groups[k], Recorded(rows, runtime, k));
      ghost var calls := Under(all, k.session, k.model);
      SessionRowPays(h, runtime, rows, k, groups[k], calls, all);
      NoneOfGroup(h, runtime, rows, records, sets, all, r);
      OneGroupLess(all, keys, k);
      BooksExtend(h, runtime, records, sets, r, calls);
      OneMoreAggregate(h, runtime, rows, records, sets, all, r, calls);
      records, sets, keys := records + [r], sets + [calls], keys - {k};
    }
    NoGroupLeft(all);
    NewRowsCover(h, runtime, records, sets, new_);
  }

  // The calls of the groups that are not among these.
  ghost function OutOf(calls: set<Call>, keys: set<GroupKey>): set<Call> {
    set c | c in calls && GroupKey(c.session, c.model) !in keys
  }

  lemma OneGroupLess(calls: set<Call>, keys: set<GroupKey>, k: GroupKey)
    requires k in keys
    ensures OutOf(calls, keys - {k}) == OutOf(calls, keys) + Under(calls, k.session, k.model)
    ensures Under(calls, k.session, k.model) !! OutOf(calls, keys)
  {
  }

  lemma NoGroupLeft(calls: set<Call>)
    ensures OutOf(calls, {}) == calls
  {
  }

  lemma NothingAggregated(h: Hashing, runtime: Text, rows: seq<Row>, new_: seq<Call>, keys: set<GroupKey>)
    requires forall c :: c in new_ ==> GroupKey(c.session, c.model) in keys
    ensures Aggregated(h, runtime, rows, [], [], Elements(new_)) && OutOf(Elements(new_), keys) == {}
  {
  }

  lemma OneMoreAggregate(h: Hashing, runtime: Text, rows: seq<Row>, records: seq<Row>, sets: seq<set<Call>>, new_: set<Call>,
                         r: Row, calls: set<Call>)
    requires Aggregated(h, runtime, rows, records, sets, new_) && AggregateOf(h, runtime, rows, r, calls, new_)
    requires forall a :: a in records ==> GroupOf(a) != GroupOf(r)
    ensures Aggregated(h, runtime, rows, records + [r], sets + [calls], new_)
  {
    hide AggregateOf;
  }

  // An aggregate of another group has another record id.
  lemma NoneOfGroup(h: Hashing, runtime: Text, rows: seq<Row>, records: seq<Row>, sets: seq<set<Call>>, new_: set<Call>, r: Row)
    requires HashOk(h) && Aggregated(h, runtime, rows, records, sets, new_)
    requires r.callId == OwedId(h, runtime, rows, new_, GroupOf(r)) && forall a :: a in records ==> GroupOf(a) != GroupOf(r)
    ensures !IsTaken(records, r.callId)
  {
    hide HashOk, Recorded, Under;
    assert |sets| == |records|;
    forall a | a in records ensures a.callId != r.callId {
      var j :| 0 <= j < |records| && records[j] == a;
      assert AggregateOf(h, runtime, rows, a, sets[j], new_);
      if a.callId == r.callId {
        SameHash(h, a.key.session, Aggregate(a.model, Recorded(rows, runtime, GroupOf(a)), |Under(new_, a.key.session, a.model)|),
                 r.key.session, Aggregate(r.model, Recorded(rows, runtime, GroupOf(r)), |Under(new_, r.key.session, r.model)|));
      }
    }
  }

  // Every call is covered by a row of its own session and model.
  ghost predicate AllCovered(h: Hashing, runtime: Text, records: seq<Row>, calls: seq<Call>) {
    forall c :: c in calls ==> exists r :: r in records && CoversCall(h, runtime, r, c)
  }

  lemma NewRowsCover(h: Hashing, runtime: Text, records: seq<Row>, sets: seq<set<Call>>, new_: seq<Call>)
    requires BooksOk(h, runtime, records, sets) && Union(sets) == Elements(new_)
    ensures AllCovered(h, runtime, records, new_)
  {
    hide BooksOk, Union, CoversCall;
    forall c | c in new_ ensures exists r :: r in records && CoversCall(h, runtime, r, c) {
      PayingRow(h, runtime, records, sets, c);
    }
  }

  // The row is of the call's session and model, and identifies it.
  predicate CoversCall(h: Hashing, runtime: Text, r: Row, c: Call) {
    r.key == Key(runtime, c.session) && r.model == c.model && Identified(r).Some? && IdOf(h, c) in Identified(r).value
  }

  lemma {:induction false} MemberOf(paid: seq<set<Call>>, c: Call)
    requires c in Union(paid)
    ensures exists i :: 0 <= i < |paid| && c in paid[i]
  {
    var n := |paid| - 1;
    if c !in paid[n] {
      MemberOf(paid[..n], c);
      var i :| 0 <= i < n && c in paid[..n][i];
      assert c in paid[i];
    }
  }

  lemma PayingRow(h: Hashing, runtime: Text, records: seq<Row>, sets: seq<set<Call>>, c: Call)
    requires BooksOk(h, runtime, records, sets) && c in Union(sets)
    ensures exists r :: r in records && CoversCall(h, runtime, r, c)
  {
    hide SumSet, Identified, HasId, Union;
    MemberOf(sets, c);
    var i :| 0 <= i < |sets| && c in sets[i];
    assert Pays(h, runtime, records[i], sets[i]) && IdOf(h, c) in Ids(h, sets[i]);
    assert records[i] in records && CoversCall(h, runtime, records[i], c);
  }

  lemma SessionRowPays(h: Hashing, runtime: Text, rows: seq<Row>, k: GroupKey, g: Group, calls: set<Call>, new_: set<Call>)
    requires HashOk(h) && Consistent(new_) && GroupOk(h, g, calls) && calls == Under(new_, k.session, k.model)
    ensures var r := SessionRow(h, runtime, k, g, Recorded(rows, runtime, k));
            && Pays(h, runtime, r, calls) && AggregateOf(h, runtime, rows, r, calls, new_) && GroupOf(r) == k
            && r.callId == OwedId(h, runtime, rows, new_, k)
  {
    hide SumSet, HashOk, IsBlank, Recorded;
    SumSetCounts(calls);
    var c :| c in calls;
    assert IdOf(h, c) in Ids(h, calls);
    assert g.ids != [] by {
      assert IdOf(h, c) in (set id | id in g.ids);
    }
    forall i | 0 <= i < |g.ids| ensures !IsBlank(g.ids[i]) {
      assert g.ids[i] in g.ids && g.ids[i] in (set id | id in g.ids);
      assert g.ids[i] in Ids(h, calls);
      var d :| d in calls && IdOf(h, d) == g.ids[i];
      HashNotBlank(h, d.session, Plain(d.native));
    }
    var r := SessionRow(h, runtime, k, g, Recorded(rows, runtime, k));
    assert r.callId == Some(AggregateId(h, r.key.session, r.model, Recorded(rows, runtime, k), r.totals.calls));
  }

  /******* The store *******/

  function Covered(rows: seq<Row>, runtime: Text, session: Text): set<Text> {
    Totalled(rows, Key(runtime, session)).covered
  }

  datatype Observed = Observed(session: Text, id: Text)

  function Observations(h: Hashing, calls: set<Call>): set<Observed> {
    set c | c in calls :: Observed(c.session, IdOf(h, c))
  }

  // What an ingest saves of a log: the prefix it read, every call id it ever saw there, the sessions in it, and
  // the metrics prefix that vouches for them, in the file it was a prefix of.
  datatype Checkpoint = Checkpoint(prefix: seq<Call>, observed: set<Observed>, live: set<Text>, inode: nat, metrics: seq<Row>)

  // The checkpoint knows every call of its prefix, and nothing that no log has shown.
  ghost predicate Shaped(h: Hashing, cp: Checkpoint, seen: set<Call>) {
    && cp.observed <= Observations(h, seen)
    && Observations(h, Elements(cp.prefix)) <= cp.observed
    && Sessions(cp.prefix) <= cp.live
  }

  // Every call id the checkpoint knows is covered by a row of the metrics prefix it names.
  ghost predicate TellsTruth(runtime: Text, cp: Checkpoint) {
    forall o :: o in cp.observed ==> o.id in Covered(cp.metrics, runtime, o.session)
  }

  lemma {:induction false} CoveredGrows(rows: seq<Row>, n: nat, runtime: Text, session: Text)
    requires n <= |rows|
    ensures Covered(rows[..n], runtime, session) <= Covered(rows, runtime, session)
  {
    hide Identified;
    if n < |rows| {
      CoveredGrows(rows[..|rows| - 1], n, runtime, session);
      assert rows[..|rows| - 1][..n] == rows[..n];
    } else {
      assert rows[..n] == rows;
    }
  }

  // A call is paid for exactly when the ledger covers its id.
  lemma CoveredIffPaid(h: Hashing, runtime: Text, rows: seq<Row>, paid: seq<set<Call>>, c: Call, seen: set<Call>)
    requires HashOk(h) && BooksOk(h, runtime, rows, paid) && Consistent(seen) && Union(paid) <= seen && c in seen
    ensures IdOf(h, c) in Covered(rows, runtime, c.session) <==> c in Union(paid)
  {
    hide HashOk, BooksOk, SumSet, Union, Totalled;
    BooksAddUp(h, runtime, rows, paid, c.session, c.model);
    if IdOf(h, c) in Covered(rows, runtime, c.session) {
      var d :| d in InSession(Union(paid), c.session) && IdOf(h, d) == IdOf(h, c);
      SameHash(h, c.session, Plain(c.native), d.session, Plain(d.native));
    }
  }

  // A covered id belongs to the session whose row covers it.
  lemma CoveredInSession(h: Hashing, runtime: Text, rows: seq<Row>, paid: seq<set<Call>>, s: Text, c: Call, seen: set<Call>)
    requires HashOk(h) && BooksOk(h, runtime, rows, paid) && Consistent(seen) && Union(paid) <= seen && c in seen
    requires IdOf(h, c) in Covered(rows, runtime, s)
    ensures c.session == s && c in Union(paid)
  {
    hide HashOk, BooksOk, SumSet, Union, Totalled;
    BooksAddUp(h, runtime, rows, paid, s, c.model);
    var d :| d in InSession(Union(paid), s) && IdOf(h, d) == IdOf(h, c);
    SameHash(h, c.session, Plain(c.native), d.session, Plain(d.native));
  }

  /******* What the writer appends *******/

  // The records whose ids no row has; the writer skips the others.
  function Unrecorded(rows: seq<Row>, records: seq<Row>): seq<Row> {
    if records == [] then []
    else
      var n := |records| - 1;
      Unrecorded(rows, records[..n]) + (if IsTaken(rows, records[n].callId) then [] else [records[n]])
  }

  ghost function UnrecordedSets(rows: seq<Row>, records: seq<Row>, sets: seq<set<Call>>): (r: seq<set<Call>>)
    requires |sets| == |records|
    ensures |r| == |Unrecorded(rows, records)|
  {
    if records == [] then []
    else
      var n := |records| - 1;
      UnrecordedSets(rows, records[..n], sets[..n]) + (if IsTaken(rows, records[n].callId) then [] else [sets[n]])
  }

  // What an ingest owes on these rows: rows for calls that nothing has paid for, each next in its group.
  ghost predicate Owing(h: Hashing, runtime: Text, rows: seq<Row>, paid: seq<set<Call>>, records: seq<Row>, sets: seq<set<Call>>, seen: set<Call>) {
    && BooksOk(h, runtime, records, sets) && Union(sets) <= seen && Union(sets) !! Union(paid)
    && forall i :: 0 <= i < |records| ==> IsNext(h, runtime, rows + Unrecorded(rows, records[..i]), records[i])
  }

  lemma {:induction false} UnrecordedMembers(rows: seq<Row>, records: seq<Row>)
    ensures forall r :: r in Unrecorded(rows, records) <==> r in records && !IsTaken(rows, r.callId)
  {
    hide IsTaken;
    if records != [] {
      var n := |records| - 1;
      UnrecordedMembers(rows, records[..n]);
      assert records == records[..n] + [records[n]];
    }
  }

  // A record is skipped for a row that was there before, never for another record of its batch.
  lemma SkippedAlike(h: Hashing, runtime: Text, rows: seq<Row>, records: seq<Row>, sets: seq<set<Call>>, i: nat)
    requires BooksOk(h, runtime, records, sets) && i < |records|
    ensures IsTaken(rows + Unrecorded(rows, records[..i]), records[i].callId) <==> IsTaken(rows, records[i].callId)
  {
    hide Pays;
    UnrecordedMembers(rows, records[..i]);
    forall r | r in Unrecorded(rows, records[..i]) ensures r.callId != records[i].callId {
      assert r in records[..i];
      var j :| 0 <= j < i && records[j] == r;
    }
    if IsTaken(rows, records[i].callId) {
      var r :| r in rows && r.callId == records[i].callId;
      assert r in rows + Unrecorded(rows, records[..i]);
    }
  }

  lemma UnionAppend(a: seq<set<Call>>, x: set<Call>)
    ensures Union(a + [x]) == Union(a) + x
  {
    assert (a + [x])[..|a|] == a;
  }

  lemma UnrecordedStep(rows: seq<Row>, records: seq<Row>, sets: seq<set<Call>>, n: nat)
    requires |sets| == |records| && n < |records|
    ensures Unrecorded(rows, records[..n + 1]) ==
            Unrecorded(rows, records[..n]) + (if IsTaken(rows, records[n].callId) then [] else [records[n]])
    ensures UnrecordedSets(rows, records[..n + 1], sets[..n + 1]) ==
            UnrecordedSets(rows, records[..n], sets[..n]) + (if IsTaken(rows, records[n].callId) then [] else [sets[n]])
  {
    assert records[..n + 1][..n] == records[..n] && sets[..n + 1][..n] == sets[..n];
  }

  // What has become of the books after some of the records.
  ghost predicate Handled(h: Hashing, runtime: Text, rows: seq<Row>, paid: seq<set<Call>>, more: seq<Row>, theirs: seq<set<Call>>, sets: seq<set<Call>>) {
    && |paid| == |rows| && |theirs| == |more| && BooksOk(h, runtime, rows + more, paid + theirs)
    && Union(paid + theirs) == Union(paid) + Union(theirs) && Union(theirs) <= Union(sets)
    && (Chained(h, runtime, rows) ==> Chained(h, runtime, rows + more))
  }

  lemma OneSkipped(h: Hashing, runtime: Text, rows: seq<Row>, paid: seq<set<Call>>, more: seq<Row>, theirs: seq<set<Call>>, sets: seq<set<Call>>,
                   calls: set<Call>)
    requires Handled(h, runtime, rows, paid, more, theirs, sets)
    ensures Handled(h, runtime, rows, paid, more, theirs, sets + [calls])
  {
    hide BooksOk, Union, Chained;
    UnionAppend(sets, calls);
  }

  lemma OneAppended(h: Hashing, runtime: Text, rows: seq<Row>, paid: seq<set<Call>>, more: seq<Row>, theirs: seq<set<Call>>, sets: seq<set<Call>>,
                    r: Row, calls: set<Call>)
    requires Handled(h, runtime, rows, paid, more, theirs, sets)
    requires Pays(h, runtime, r, calls) && IsNext(h, runtime, rows + more, r) && !IsTaken(rows + more, r.callId)
    requires calls !! Union(paid) && calls !! Union(sets)
    ensures Handled(h, runtime, rows, paid, more + [r], theirs + [calls], sets + [calls])
  {
    hide BooksOk, Pays, Union, Chained, IsNext, IsTaken;
    UnionAppend(sets, calls);
    UnionAppend(theirs, calls);
    BooksExtend(h, runtime, rows + more, paid + theirs, r, calls);
    if Chained(h, runtime, rows) {
      ChainedExtend(h, runtime, rows + more, r);
    }
    AppendOne(rows, more, r);
    AppendOne(paid, theirs, calls);
  }

  lemma OwingPrefix(h: Hashing, runtime: Text, rows: seq<Row>, paid: seq<set<Call>>, records: seq<Row>, sets: seq<set<Call>>, seen: set<Call>, n: nat)
    requires Owing(h, runtime, rows, paid, records, sets, seen) && n <= |records|
    ensures |sets| == |records| && Owing(h, runtime, rows, paid, records[..n], sets[..n], seen)
  {
    hide BooksOk, Union, IsNext, Unrecorded;
    BooksPrefix(h, runtime, records, sets, n);
    UnionPrefix(sets, n);
    forall i | 0 <= i < n ensures IsNext(h, runtime, rows + Unrecorded(rows, records[..n][..i]), records[..n][i]) {
      assert records[..n][..i] == records[..i];
    }
  }

  lemma OwingLast(h: Hashing, runtime: Text, rows: seq<Row>, paid: seq<set<Call>>, init: seq<Row>, last: Row, sets: seq<set<Call>>, calls: set<Call>,
                  seen: set<Call>)
    requires |sets| == |init| && Owing(h, runtime, rows, paid, init + [last], sets + [calls], seen)
    ensures Owing(h, runtime, rows, paid, init, sets, seen)
    ensures Pays(h, runtime, last, calls) && calls !! Union(paid) && calls !! Union(sets)
    ensures IsNext(h, runtime, rows + Unrecorded(rows, init), last)
    ensures IsTaken(rows + Unrecorded(rows, init), last.callId) <==> IsTaken(rows, last.callId)
  {
    hide BooksOk, Pays, Union, IsNext, IsTaken, Unrecorded;
    var (records, all, m) := (init + [last], sets + [calls], |init|);
    assert records[..m] == init && all[..m] == sets && records[m] == last && all[m] == calls;
    OwingPrefix(h, runtime, rows, paid, records, all, seen, m);
    LastIsApart(h, runtime, records, all, m);
    UnionAppend(sets, calls);
    SkippedAlike(h, runtime, rows, records, all, m);
  }

  lemma UnrecordedLast(rows: seq<Row>, init: seq<Row>, last: Row, sets: seq<set<Call>>, calls: set<Call>)
    requires |sets| == |init|
    ensures Unrecorded(rows, init + [last]) == Unrecorded(rows, init) + (if IsTaken(rows, last.callId) then [] else [last])
    ensures UnrecordedSets(rows, init + [last], sets + [calls]) ==
            UnrecordedSets(rows, init, sets) + (if IsTaken(rows, last.callId) then [] else [calls])
  {
    assert (init + [last])[..|init|] == init && (sets + [calls])[..|init|] == sets;
  }

  // However far the records get, the rows are books, and nothing but what is owed is paid.
  lemma {:induction false} HandledKeepsBooks(h: Hashing, runtime: Text, rows: seq<Row>, paid: seq<set<Call>>, records: seq<Row>,
                                             sets: seq<set<Call>>, seen: set<Call>)
    requires BooksOk(h, runtime, rows, paid) && Owing(h, runtime, rows, paid, records, sets, seen)
    ensures |sets| == |records|
    ensures Handled(h, runtime, rows, paid, Unrecorded(rows, records), UnrecordedSets(rows, records, sets), sets)
    decreases |records|
  {
    hide BooksOk, Owing, Pays, IsNext, IsTaken, Handled, Union, Unrecorded, UnrecordedSets;
    OwingFacts(h, runtime, rows, paid, records, sets, seen);
    if records == [] {
      NothingHandled(h, runtime, rows, paid);
      NothingYet(rows, records, sets);
      assert records[..0] == records && sets[..0] == sets == [];
    } else {
      var m := |records| - 1;
      var (init, last, before, calls) := (records[..m], records[m], sets[..m], sets[m]);
      assert records == init + [last] && sets == before + [calls];
      OwingLast(h, runtime, rows, paid, init, last, before, calls, seen);
      HandledKeepsBooks(h, runtime, rows, paid, init, before, seen);
      HandledLast(h, runtime, rows, paid, init, last, before, calls, seen);
    }
  }

  lemma HandledLast(h: Hashing, runtime: Text, rows: seq<Row>, paid: seq<set<Call>>, init: seq<Row>, last: Row, before: seq<set<Call>>,
                    calls: set<Call>, seen: set<Call>)
    requires |before| == |init| && Owing(h, runtime, rows, paid, init + [last], before + [calls], seen)
    requires Handled(h, runtime, rows, paid, Unrecorded(rows, init), UnrecordedSets(rows, init, before), before)
    ensures Handled(h, runtime, rows, paid, Unrecorded(rows, init + [last]), UnrecordedSets(rows, init + [last], before + [calls]), before + [calls])
  {
    hide Owing, Pays, IsNext, IsTaken, Handled, Union, Unrecorded, UnrecordedSets;
    OwingLast(h, runtime, rows, paid, init, last, before, calls, seen);
    UnrecordedLast(rows, init, last, before, calls);
    var (more, theirs) := (Unrecorded(rows, init), UnrecordedSets(rows, init, before));
    if IsTaken(rows, last.callId) {
      assert more + [] == more && theirs + [] == theirs;
      OneSkipped(h, runtime, rows, paid, more, theirs, before, calls);
    } else {
      OneAppended(h, runtime, rows, paid, more, theirs, before, last, calls);
    }
  }

  lemma NothingHandled(h: Hashing, runtime: Text, rows: seq<Row>, paid: seq<set<Call>>)
    requires BooksOk(h, runtime, rows, paid)
    ensures Handled(h, runtime, rows, paid, [], [], [])
  {
    BooksLength(h, runtime, rows, paid);
    hide BooksOk, Chained;
    assert rows + [] == rows && paid + [] == paid;
  }

  lemma NothingYet(rows: seq<Row>, records: seq<Row>, sets: seq<set<Call>>)
    requires |sets| == |records|
    ensures Unrecorded(rows, records[..0]) == [] && UnrecordedSets(rows, records[..0], sets[..0]) == []
  {
  }

  lemma HandledMeans(h: Hashing, runtime: Text, rows: seq<Row>, paid: seq<set<Call>>, more: seq<Row>, theirs: seq<set<Call>>, sets: seq<set<Call>>)
    requires Handled(h, runtime, rows, paid, more, theirs, sets)
    ensures BooksOk(h, runtime, rows + more, paid + theirs) && Union(paid + theirs) == Union(paid) + Union(theirs)
    ensures Union(theirs) <= Union(sets) && (Chained(h, runtime, rows) ==> Chained(h, runtime, rows + more))
  {
  }

  ghost predicate NoneTaken(rows: seq<Row>, records: seq<Row>) {
    forall r :: r in records ==> !IsTaken(rows, r.callId)
  }

  // Everything owed is paid exactly when no record is skipped.
  lemma {:induction false} AllPaidIffNoneTaken(h: Hashing, runtime: Text, rows: seq<Row>, records: seq<Row>, sets: seq<set<Call>>)
    requires BooksOk(h, runtime, records, sets)
    ensures |sets| == |records|
    ensures var theirs := UnrecordedSets(rows, records, sets);
            Union(theirs) <= Union(sets) && (Union(theirs) == Union(sets) <==> NoneTaken(rows, records))
    decreases |records|
  {
    BooksLength(h, runtime, records, sets);
    if records == [] {
      assert sets == [];
    } else {
      hide BooksOk, Pays, Union, IsTaken, UnrecordedSets, Unrecorded, NoneTaken;
      var m := |records| - 1;
      var (init, last, before, calls) := (records[..m], records[m], sets[..m], sets[m]);
      assert records == init + [last] && sets == before + [calls];
      BooksPrefix(h, runtime, records, sets, m);
      LastIsApart(h, runtime, records, sets, m);
      PaysForSome(h, runtime, last, calls);
      AllPaidIffNoneTaken(h, runtime, rows, init, before);
      UnrecordedLast(rows, init, last, before, calls);
      NoneTakenLast(rows, init, last);
      UnionAppend(before, calls);
      LastCounts(UnrecordedSets(rows, init, before), before, calls, IsTaken(rows, last.callId));
    }
  }

  lemma NoneTakenLast(rows: seq<Row>, init: seq<Row>, last: Row)
    ensures NoneTaken(rows, init + [last]) <==> NoneTaken(rows, init) && !IsTaken(rows, last.callId)
  {
    hide IsTaken;
    assert last in init + [last] && forall r :: r in init ==> r in init + [last];
  }

  lemma LastCounts(theirs: seq<set<Call>>, before: seq<set<Call>>, calls: set<Call>, skipped: bool)
    requires Union(theirs) <= Union(before) && calls != {} && calls !! Union(before)
    ensures var now := Union(theirs + (if skipped then [] else [calls]));
            now <= Union(before) + calls && (now == Union(before) + calls <==> Union(theirs) == Union(before) && !skipped)
  {
    hide Union;
    UnionAppend(theirs, calls);
    assert theirs + [] == theirs;
    var c :| c in calls;
    if !skipped && Union(theirs) + calls == Union(before) + calls {
      forall x | x in Union(before) ensures x in Union(theirs) {
        assert x in Union(theirs) + calls;
      }
    }
  }

  lemma PaysForSome(h: Hashing, runtime: Text, r: Row, calls: set<Call>)
    requires Pays(h, runtime, r, calls)
    ensures calls != {}
  {
  }

  // Once everything was handled, what was owed is paid for exactly when none of it was skipped.
  lemma AllPaid(h: Hashing, runtime: Text, rows: seq<Row>, paid: seq<set<Call>>, records: seq<Row>, sets: seq<set<Call>>, seen: set<Call>)
    requires BooksOk(h, runtime, rows, paid) && Owing(h, runtime, rows, paid, records, sets, seen)
    ensures |sets| == |records|
    ensures var now := Union(paid + UnrecordedSets(rows, records, sets));
            Union(paid) <= now <= Union(paid) + Union(sets) && (Union(sets) <= now <==> NoneTaken(rows, records))
  {
    hide BooksOk, Union, Chained, Owing, NoneTaken, Handled, Unrecorded, UnrecordedSets;
    OwingFacts(h, runtime, rows, paid, records, sets, seen);
    HandledKeepsBooks(h, runtime, rows, paid, records, sets, seen);
    HandledMeans(h, runtime, rows, paid, Unrecorded(rows, records), UnrecordedSets(rows, records, sets), sets);
    AllPaidIffNoneTaken(h, runtime, rows, records, sets);
  }

  // Aggregates are skipped exactly when groups collide.
  lemma TakenIffCollides(h: Hashing, runtime: Text, rows: seq<Row>, records: seq<Row>, sets: seq<set<Call>>, new_: set<Call>)
    requires BooksOk(h, runtime, records, sets) && Union(sets) == new_ && Aggregated(h, runtime, rows, records, sets, new_)
    ensures NoneTaken(rows, records) <==> !GroupsCollide(h, runtime, rows, new_)
  {
    hide HasId, Identified, SumSet, Union, IsTaken, OwedId;
    forall r | r in records && IsTaken(rows, r.callId) ensures GroupsCollide(h, runtime, rows, new_) {
      var j :| 0 <= j < |records| && records[j] == r;
      assert AggregateOf(h, runtime, rows, r, sets[j], new_) && Pays(h, runtime, r, sets[j]);
      var c :| c in sets[j];
      assert GroupKey(c.session, c.model) == GroupOf(r);
    }
    forall c | c in new_ && IsTaken(rows, OwedId(h, runtime, rows, new_, GroupKey(c.session, c.model))) ensures !NoneTaken(rows, records) {
      MemberOf(sets, c);
      var j :| 0 <= j < |sets| && c in sets[j];
      assert AggregateOf(h, runtime, rows, records[j], sets[j], new_);
      assert records[j] in records && GroupOf(records[j]) == GroupKey(c.session, c.model);
    }
  }

  // Rows of other groups do not change what is recorded for a group.
  lemma {:induction false} OtherGroups(runtime: Text, rows: seq<Row>, more: seq<Row>, k: GroupKey)
    requires forall r :: r in more ==> GroupOf(r) != k
    ensures Recorded(rows + more, runtime, k) == Recorded(rows, runtime, k)
    decreases |more|
  {
    hide Identified;
    if more == [] {
      assert rows + more == rows;
    } else {
      var n := |more| - 1;
      assert (rows + more)[..|rows + more| - 1] == rows + more[..n];
      OtherGroups(runtime, rows, more[..n], k);
      assert more[n] in more;
    }
  }

  lemma AggregatesAreNext(h: Hashing, runtime: Text, rows: seq<Row>, records: seq<Row>, sets: seq<set<Call>>, new_: set<Call>, i: nat)
    requires Aggregated(h, runtime, rows, records, sets, new_) && i < |records|
    ensures IsNext(h, runtime, rows + Unrecorded(rows, records[..i]), records[i])
  {
    hide Recorded, IsTaken;
    UnrecordedMembers(rows, records[..i]);
    forall r | r in Unrecorded(rows, records[..i]) ensures GroupOf(r) != GroupOf(records[i]) {
      var j :| 0 <= j < i && records[j] == r;
    }
    OtherGroups(runtime, rows, Unrecorded(rows, records[..i]), GroupOf(records[i]));
    assert AggregateOf(h, runtime, rows, records[i], sets[i], new_);
  }

  datatype Outcome = Rejected | Killed | Done

  class Biller {
    const runtime: Text
    const hash: Hashing

    // The logs, the recorded rows and the file they are in, and the checkpoint of each log.
    var logs: map<Text, seq<Call>>
    var inode: nat
    var rows: seq<Row>
    var checkpoints: map<Text, Checkpoint>

    // What each row pays for, every call any log has ever shown, every call that finished ingests of a log have
    // found there since its checkpoint was last lost, and whether the file was ever replaced.
    ghost var paid: seq<set<Call>>
    ghost var seen: set<Call>
    ghost var remembered: map<Text, set<Call>>
    ghost var rewritten: bool

    constructor (runtime: Text, hash: Hashing)
      requires HashOk(hash)
      ensures Valid() && logs == map[] && rows == [] && checkpoints == map[] && seen == {} && remembered == map[] && !rewritten
      ensures this.runtime == runtime && this.hash == hash
    {
      this.runtime, this.hash := runtime, hash;
      logs, inode, rows, checkpoints, paid, seen, remembered, rewritten := map[], 0, [], map[], [], {}, map[], false;
    }

    ghost predicate Valid()
      reads this
    {
      && SourcesOk() && BooksOk(hash, runtime, rows, paid) && Union(paid) <= seen && MemoryOk()
      && (!rewritten ==> Chained(hash, runtime, rows))
    }

    lemma SourcesFacts()
      requires SourcesOk()
      ensures HashOk(hash) && Consistent(seen)
    {
    }

    ghost predicate SourcesOk()
      reads this`logs, this`checkpoints, this`seen, this`inode
    {
      && HashOk(hash) && Consistent(seen)
      && (forall p :: p in logs ==> Elements(logs[p]) <= seen)
      && forall p :: p in checkpoints ==> Shaped(hash, checkpoints[p], seen) && checkpoints[p].inode <= inode
    }

    // A checkpoint has observed exactly the calls that were found since the last one was lost.
    ghost predicate MemoryOk()
      reads this`checkpoints, this`remembered, this`seen
    {
      && remembered.Keys == checkpoints.Keys
      && forall p :: p in checkpoints ==> remembered[p] <= seen && checkpoints[p].observed == Observations(hash, remembered[p])
    }

    // What finished ingests have found in a log since its checkpoint was last lost.
    ghost function Remembered(path: Text): set<Call>
      reads this`remembered
    {
      if path in remembered then remembered[path] else {}
    }

    // The checkpoint of a log tells the truth about the metrics prefix it names.
    ghost predicate Truthful(path: Text)
      reads this`checkpoints
    {
      path in checkpoints && TellsTruth(runtime, checkpoints[path])
    }

    ghost predicate AllTruthful()
      reads this`checkpoints
    {
      forall path :: path in checkpoints ==> Truthful(path)
    }

    // The checkpoint's metrics prefix is still there.
    predicate Seeded(path: Text)
      reads this`checkpoints, this`rows, this`inode
    {
      path in checkpoints && checkpoints[path].inode == inode && checkpoints[path].metrics <= rows
    }

    // The calls of a log that no row covers.
    function Unpaid(path: Text): set<Call>
      reads this`logs, this`rows
    {
      if path in logs then set c | c in logs[path] && IdOf(hash, c) !in Covered(rows, runtime, c.session) else {}
    }

    // Some aggregate row that is owed for a log has a record id that a recorded row already has.
    predicate Collides(path: Text, granularity: Granularity)
      reads this`logs, this`rows
    {
      granularity == Granularity.Session && GroupsCollide(hash, runtime, rows, Unpaid(path))
    }

    /******* The world around it *******/

    // A log grows, is truncated, rotated or rewritten; an id still names one call.
    method ChangeLog(path: Text, calls: seq<Call>)
      requires Valid() && Consistent(seen + Elements(calls))
      modifies this`logs, this`seen
      ensures Valid() && logs == old(logs)[path := calls] && seen == old(seen) + Elements(calls)
    {
      hide HashOk, BooksOk, Shaped, Union, Consistent, Chained;
      forall p | p in checkpoints ensures Shaped(hash, checkpoints[p], seen + Elements(calls)) {
        ShapedLater(hash, checkpoints[p], seen, seen + Elements(calls));
      }
      logs := logs[path := calls];
      seen := seen + Elements(calls);
    }

    // The checkpoint cache is lost, wholly or for one log.
    method LoseCheckpoint(path: Text)
      requires Valid()
      modifies this`checkpoints, this`remembered
      ensures Valid() && checkpoints == old(checkpoints) - {path} && remembered == old(remembered) - {path}
    {
      hide HashOk, BooksOk, Shaped, Union, Consistent, Chained;
      checkpoints, remembered := checkpoints - {path}, remembered - {path};
    }

    // `metrics.jsonl` is rolled back to an earlier state.
    method RollBack(n: nat)
      requires Valid() && n <= |rows|
      modifies this`rows, this`paid
      ensures Valid() && rows == old(rows)[..n] && paid == old(paid)[..n]
    {
      hide HashOk, BooksOk, Shaped, Union, Consistent, SourcesOk, Chained;
      BooksPrefix(hash, runtime, rows, paid, n);
      UnionPrefix(paid, n);
      BooksLength(hash, runtime, rows, paid);
      if !rewritten {
        ChainedPrefix(hash, runtime, rows, n);
      }
      rows, paid := rows[..n], paid[..n];
    }

    // `metrics.jsonl` is replaced by a file that holds any of its rows, in any order.
    method Rewrite(kept: seq<nat>)
      requires Valid() && IsPick(kept, |rows|)
      modifies this`inode, this`rows, this`paid, this`rewritten
      ensures Valid() && |old(paid)| == |old(rows)| && rows == Picked(old(rows), kept) && paid == Picked(old(paid), kept)
      ensures inode == old(inode) + 1 && rewritten
    {
      hide HashOk, BooksOk, Shaped, Union, Consistent, Chained;
      BooksPick(hash, runtime, rows, paid, kept);
      inode, rows, paid, rewritten := inode + 1, Picked(rows, kept), Picked(paid, kept), true;
    }

    /******* One ingest *******/

    // Where reading starts: after the checkpointed prefix if both it and the metrics prefix that vouches
    // for it are still there, at byte 0 otherwise, or if the checkpoint is not trusted for any reason.
    method Resume(path: Text) returns (known: Option<Checkpoint>, seeded: bool, calls: seq<Call>, live: set<Text>)
      requires Valid() && path in logs
      ensures known == (if path in checkpoints then Some(checkpoints[path]) else None) && seeded == Seeded(path)
      ensures Elements(calls) <= Elements(logs[path]) && Sessions(logs[path]) <= live && Sessions(calls) <= live
      ensures forall c :: c in logs[path] ==> c in calls || (seeded && c in known.value.prefix)
      ensures !seeded ==> calls == logs[path] && live == Sessions(logs[path])
      ensures Seeded(path) && Truthful(path) ==> forall c :: c in logs[path] ==> c in calls || c in Union(paid)
    {
      hide HashOk, BooksOk, Union, Consistent, SourcesOk, Totalled, TellsTruth, Chained;
      SourcesFacts();
      var log := logs[path];
      known := if path in checkpoints then Some(checkpoints[path]) else None;
      seeded := Seeded(path);
      calls, live := log, Sessions(log);
      var trusted: bool := *;
      if seeded && trusted && known.value.prefix <= log {
        var n := |known.value.prefix|;
        calls := log[n..];
        live := known.value.live + Sessions(calls);
        PrefixIsLive(path);
        assert log == known.value.prefix + calls;
        forall c | c in log ensures c in known.value.prefix || c in calls {
        }
        assert forall c :: c in known.value.prefix ==> c in Elements(known.value.prefix) && c.session in Sessions(known.value.prefix);
        if Truthful(path) {
          PrefixIsPaid(path);
        }
      }
    }

    lemma PrefixIsLive(path: Text)
      requires SourcesOk() && path in checkpoints
      ensures Sessions(checkpoints[path].prefix) <= checkpoints[path].live
    {
      assert Shaped(hash, checkpoints[path], seen);
    }

    // A checkpoint that tells the truth vouches for the prefix that is not read again.
    lemma PrefixIsPaid(path: Text)
      requires Valid() && path in logs && Seeded(path) && Truthful(path) && checkpoints[path].prefix <= logs[path]
      ensures Elements(checkpoints[path].prefix) <= Union(paid)
    {
      hide HashOk, BooksOk, Union, Consistent, Totalled, Chained;
      var cp := checkpoints[path];
      assert Shaped(hash, cp, seen);
      assert rows[..|cp.metrics|] == cp.metrics;
      forall c | c in Elements(cp.prefix) ensures c in Union(paid) {
        assert c in Elements(logs[path]);
        assert Observed(c.session, IdOf(hash, c)) in cp.observed;
        CoveredGrows(rows, |cp.metrics|, runtime, c.session);
        CoveredIffPaid(hash, runtime, rows, paid, c, seen);
      }
    }

    // Ids the ledger covers for these sessions.
    function CoveredIds(sessions: set<Text>): set<Text>
      reads this`rows
    {
      set s, id | s in sessions && id in Covered(rows, runtime, s) :: id
    }

    // Calls the checkpoint has seen that are neither recorded nor in the log any more.
    predicate Missing(cp: Checkpoint, calls: seq<Call>, live: set<Text>)
      reads this`rows
    {
      exists o :: o in cp.observed && o.id !in CoveredIds((set p | p in cp.observed :: p.session) + live)
                  && o.id !in Ids(hash, Elements(calls))
    }

    // The metrics prefix that vouched for the log is not there any more, and neither is some call in the log.
    predicate HistoryIsGone(path: Text)
      reads this`logs, this`checkpoints, this`rows, this`inode
    {
      path in logs && path in checkpoints && !Seeded(path) && Missing(checkpoints[path], logs[path], Sessions(logs[path]))
    }

    // What the ledger does not cover has not been paid for.
    lemma NewCallsAreUnpaid(calls: seq<Call>, live: set<Text>, covered: set<Text>, new_: seq<Call>)
      requires Valid() && Elements(calls) <= seen && Sessions(calls) <= live
      requires covered == set s, id | s in live && id in Covered(rows, runtime, s) :: id
      requires forall c :: c in new_ <==> c in calls && IdOf(hash, c) !in covered
      ensures Elements(new_) == (set c | c in calls && c !in Union(paid))
      ensures Elements(new_) <= seen && Consistent(Elements(new_))
    {
      hide HashOk, BooksOk, Shaped, Union, Consistent, Totalled, Chained;
      forall c | c in calls ensures c in new_ <==> c !in Union(paid) {
        assert c in Elements(calls) && c.session in Sessions(calls);
        CoveredIffPaid(hash, runtime, rows, paid, c, seen);
        if IdOf(hash, c) in covered {
          var s :| s in live && IdOf(hash, c) in Covered(rows, runtime, s);
          CoveredInSession(hash, runtime, rows, paid, s, c, seen);
        }
      }
      assert forall c :: c in new_ ==> c in calls && c in Elements(calls);
      ConsistentPart(seen, Elements(new_));
    }

    // The rows owed for calls that no row has paid for.
    method Owed(calls: seq<Call>, live: set<Text>, granularity: Granularity) returns (records: seq<Row>, ghost sets: seq<set<Call>>)
      requires Valid() && Elements(calls) <= seen && Sessions(calls) <= live
      ensures Owing(hash, runtime, rows, paid, records, sets, seen)
      ensures Union(sets) == set c | c in calls && c !in Union(paid)
      ensures if granularity == Granularity.Session then Aggregated(hash, runtime, rows, records, sets, Union(sets))
              else forall r :: r in records ==> r.granularity == Granularity.Call
    {
      hide HashOk, BooksOk, Shaped, Union, Consistent, SourcesOk, Totalled, Chained, Aggregated, IsNext, IsTaken;
      SourcesFacts();
      ConsistentPart(seen, Elements(calls));
      var covered := CoveredIds(live);
      var new_ := NewCalls(hash, calls, covered);
      NewCallsAreUnpaid(calls, live, covered, new_);
      if granularity == Granularity.Session {
        records, sets := SessionRows(hash, runtime, rows, new_);
        forall i | 0 <= i < |records| ensures IsNext(hash, runtime, rows + Unrecorded(rows, records[..i]), records[i]) {
          AggregatesAreNext(hash, runtime, rows, records, sets, Union(sets), i);
        }
      } else {
        records, sets := CallRows(hash, runtime, new_);
        forall r | r in records ensures r.granularity == Granularity.Call {
          var i :| 0 <= i < |records| && records[i] == r;
          assert r == CallRow(hash, runtime, new_[i]);
        }
        forall i | 0 <= i < |records| ensures IsNext(hash, runtime, rows + Unrecorded(rows, records[..i]), records[i]) {
          CallRowPays(hash, runtime, new_[i]);
        }
      }
    }

    // `_ingest_source`: pay for the calls of one log that no row has paid for yet, then checkpoint. Unless a
    // checkpoint that is resumed from was wrong already, the log ends paid for, and the new checkpoint right, if
    // and only if no record id collides.
    method Ingest(path: Text, granularity: Granularity) returns (outcome: Outcome)
      requires Valid()
      modifies this`rows, this`paid, this`checkpoints, this`remembered
      ensures Valid() && old(rows) <= rows && old(paid) <= paid
      ensures checkpoints - {path} == old(checkpoints) - {path}
      ensures outcome != Done ==> checkpoints == old(checkpoints) && remembered == old(remembered)
      ensures outcome == Rejected ==> rows == old(rows)
      ensures outcome == Rejected <==> path !in logs || old(HistoryIsGone(path))
      ensures outcome == Done ==> path in logs && path in checkpoints && checkpoints[path].prefix == logs[path]
      ensures outcome == Done ==> checkpoints[path].metrics == rows && checkpoints[path].inode == inode
      ensures outcome == Done ==> remembered == old(remembered)[path := old(Remembered(path)) + Elements(logs[path])]
      ensures outcome == Done && path in old(checkpoints) ==> old(checkpoints[path].observed) <= checkpoints[path].observed
      ensures outcome == Done && old(Seeded(path) ==> Truthful(path)) ==>
                (Elements(logs[path]) <= Union(paid) <==> !old(Collides(path, granularity)))
                && (Truthful(path) <==> !old(Collides(path, granularity)))
      ensures old(AllTruthful()) && !old(Collides(path, granularity)) ==> AllTruthful()
    {
      hide HashOk, BooksOk, Shaped, Union, Consistent, SourcesOk, MemoryOk, Totalled, Missing, Chained, TellsTruth, Collides, Observations;
      if path !in logs {
        return Rejected;
      }
      ghost var rows0 := rows;
      var known, seeded, calls, live := Resume(path);
      LogIsSeen(path);
      if known.Some? && !seeded && Missing(known.value, calls, live) {
        return Rejected;
      }
      HistoryIsAccounted(path, known, seeded, calls, live);
      var done := Pay(path, calls, live, granularity);
      if !done {
        return Killed;
      }
      if * {
        return Killed;
      }
      ghost var others := checkpoints;
      Conclude(path, known, seeded, calls, live, rows0);
      assert forall p :: p in checkpoints && p != path ==> p in others && checkpoints[p] == others[p];
      outcome := Done;
    }

    // Save what is known of the log from now on. If all that was known before is recorded or in the log, the new
    // checkpoint tells the truth exactly when the log is paid for.
    method Conclude(path: Text, known: Option<Checkpoint>, seeded: bool, calls: seq<Call>, live: set<Text>, ghost before: seq<Row>)
      requires Valid() && path in logs && Elements(calls) <= Elements(logs[path]) && Sessions(logs[path]) <= live && before <= rows
      requires known == (if path in checkpoints then Some(checkpoints[path]) else None) && (seeded ==> known.Some?)
      requires forall c :: c in logs[path] ==> c in calls || (seeded && c in known.value.prefix)
      modifies this`checkpoints, this`remembered
      ensures Valid() && path in checkpoints && checkpoints == old(checkpoints)[path := checkpoints[path]]
      ensures checkpoints[path] == Checkpoint(logs[path], checkpoints[path].observed, live, inode, rows)
      ensures known.Some? ==> known.value.observed <= checkpoints[path].observed
      ensures remembered == old(remembered)[path := old(Remembered(path)) + Elements(logs[path])]
      ensures (known.Some? ==> forall o :: o in known.value.observed ==>
                 o.id in Covered(before, runtime, o.session) || o in Observations(hash, Elements(calls)))
              && (forall c :: c in logs[path] ==> c in calls || c in Union(paid)) ==>
                (Truthful(path) <==> Elements(logs[path]) <= Union(paid))
    {
      hide HashOk, BooksOk, Shaped, Union, Consistent, SourcesOk, MemoryOk, Totalled, Chained, TellsTruth, Observations;
      var observed := (if known.Some? then known.value.observed else {}) + Observations(hash, Elements(calls));
      var saved := Checkpoint(logs[path], observed, live, inode, rows);
      SavedIsShaped(path, saved, known, calls, seeded);
      ObservedIs(path, saved, known, calls, seeded);
      if (known.Some? ==> forall o :: o in known.value.observed ==>
                 o.id in Covered(before, runtime, o.session) || o in Observations(hash, Elements(calls)))
         && (forall c :: c in logs[path] ==> c in calls || c in Union(paid)) {
        SavedTellsTruth(path, saved, known, calls, before);
      }
      SaveCheckpoint(path, saved, Remembered(path) + Elements(logs[path]));
    }

    // Write the rows owed for the calls that were read. If they are all that may be unpaid, the log ends paid for
    // if and only if no record id collides.
    method Pay(path: Text, calls: seq<Call>, live: set<Text>, granularity: Granularity) returns (done: bool)
      requires Valid() && path in logs && Elements(calls) <= Elements(logs[path]) && Sessions(calls) <= live
      modifies this`rows, this`paid
      ensures Valid() && old(rows) <= rows && old(paid) <= paid && old(Union(paid)) <= Union(paid)
      ensures done && (forall c :: c in logs[path] ==> c in calls || c in old(Union(paid))) ==>
                (Elements(logs[path]) <= Union(paid) <==> !old(Collides(path, granularity)))
    {
      hide HashOk, BooksOk, Shaped, Union, Consistent, SourcesOk, MemoryOk, Totalled, Chained, Aggregated, Owing, Collides, Unpaid, NoneTaken;
      LogIsSeen(path);
      ghost var (rows0, paid0) := (rows, paid);
      ghost var all := forall c :: c in logs[path] ==> c in calls || c in Union(paid);
      var records;
      ghost var sets;
      records, sets := Owed(calls, live, granularity);
      if all {
        OwedIsUnpaid(path, calls, sets);
        NoneTakenIff(path, granularity, records, sets);
      }
      var handled;
      handled, done := Append(records, sets);
      UnionGrows(paid0, paid);
      if done {
        assert records[..handled] == records && sets[..handled] == sets;
        AllPaid(hash, runtime, rows0, paid0, records, sets, seen);
        if all {
          assert Elements(logs[path]) <= Union(paid) <==> Union(sets) <= Union(paid);
        }
      }
    }

    lemma UnionGrows(before: seq<set<Call>>, after: seq<set<Call>>)
      requires before <= after
      ensures Union(before) <= Union(after)
    {
      UnionPrefix(after, |before|);
      assert after[..|before|] == before;
    }

    // Unless a wrong checkpoint is resumed from, what is owed is what the log has and no row covers.
    lemma OwedIsUnpaid(path: Text, calls: seq<Call>, sets: seq<set<Call>>)
      requires Valid() && path in logs && Elements(calls) <= Elements(logs[path])
      requires forall c :: c in logs[path] ==> c in calls || c in Union(paid)
      requires Union(sets) == set c | c in calls && c !in Union(paid)
      ensures Union(sets) == Unpaid(path)
    {
      hide HashOk, BooksOk, Shaped, Union, Consistent, Totalled, Chained;
      forall c | c in logs[path] ensures c in Union(sets) <==> c in Unpaid(path) {
        assert c in Elements(logs[path]);
        CoveredIffPaid(hash, runtime, rows, paid, c, seen);
      }
      forall c | c in Union(sets) ensures c in logs[path] {
        assert c in Elements(calls);
      }
    }

    lemma NoneTakenIff(path: Text, granularity: Granularity, records: seq<Row>, sets: seq<set<Call>>)
      requires Valid() && Owing(hash, runtime, rows, paid, records, sets, seen) && Union(sets) == Unpaid(path)
      requires if granularity == Granularity.Session then Aggregated(hash, runtime, rows, records, sets, Union(sets))
               else forall r :: r in records ==> r.granularity == Granularity.Call
      ensures NoneTaken(rows, records) <==> !Collides(path, granularity)
    {
      hide HashOk, BooksOk, Shaped, Union, Consistent, Totalled, Chained, Aggregated, GroupsCollide, IsTaken, Unpaid;
      if granularity == Granularity.Session {
        TakenIffCollides(hash, runtime, rows, records, sets, Union(sets));
      } else {
        SourcesFacts();
        BooksLength(hash, runtime, records, sets);
        forall r | r in records ensures !IsTaken(rows, r.callId) {
          var j :| 0 <= j < |records| && records[j] == r;
          LastIsApart(hash, runtime, records, sets, j);
          UnionMember(sets, j);
          ConsistentPart(seen, Union(paid) + sets[j]);
          NewIdIsFresh(hash, runtime, rows, paid, r, sets[j]);
        }
      }
    }

    method SaveCheckpoint(path: Text, saved: Checkpoint, ghost found: set<Call>)
      requires Valid() && Shaped(hash, saved, seen) && saved.inode <= inode
      requires found <= seen && saved.observed == Observations(hash, found)
      modifies this`checkpoints, this`remembered
      ensures Valid() && checkpoints == old(checkpoints)[path := saved] && remembered == old(remembered)[path := found]
    {
      hide HashOk, BooksOk, Shaped, Union, Consistent, Chained, Observations;
      checkpoints := checkpoints[path := saved];
      remembered := remembered[path := found];
    }

    // What is read of a log and what the checkpoint knew of it are all it shows and all it ever showed.
    lemma ObservedIs(path: Text, saved: Checkpoint, known: Option<Checkpoint>, calls: seq<Call>, seeded: bool)
      requires Valid() && path in logs && Elements(calls) <= Elements(logs[path])
      requires known == (if path in checkpoints then Some(checkpoints[path]) else None) && (seeded ==> known.Some?)
      requires saved.observed == (if known.Some? then known.value.observed else {}) + Observations(hash, Elements(calls))
      requires forall c :: c in logs[path] ==> c in calls || (seeded && c in known.value.prefix)
      ensures Remembered(path) + Elements(logs[path]) <= seen
      ensures saved.observed == Observations(hash, Remembered(path) + Elements(logs[path]))
    {
      hide HashOk, BooksOk, Union, Consistent, Chained;
      LogIsSeen(path);
      var before, log := Remembered(path), Elements(logs[path]);
      assert known.Some? ==> Shaped(hash, known.value, seen);
      assert Observations(hash, before + log) == Observations(hash, before) + Observations(hash, log);
      assert known.None? ==> before == {};
      forall o | o in Observations(hash, log) ensures o in saved.observed {
        var c :| c in logs[path] && o == Observed(c.session, IdOf(hash, c));
        if c in calls {
          assert c in Elements(calls);
        } else {
          assert c in Elements(known.value.prefix);
        }
      }
    }

    lemma LogIsSeen(path: Text)
      requires SourcesOk() && path in logs
      ensures Elements(logs[path]) <= seen
    {
    }

    // Every call a checkpoint that is right or not used knows is recorded, or about to be.
    lemma HistoryIsAccounted(path: Text, known: Option<Checkpoint>, seeded: bool, calls: seq<Call>, live: set<Text>)
      requires Valid() && known == (if path in checkpoints then Some(checkpoints[path]) else None) && seeded == Seeded(path)
      requires known.Some? && !seeded ==> !Missing(known.value, calls, live)
      requires Elements(calls) <= seen
      ensures known.Some? && (seeded ==> Truthful(path)) ==> forall o :: o in known.value.observed ==>
                o.id in Covered(rows, runtime, o.session) || o in Observations(hash, Elements(calls))
    {
      hide HashOk, BooksOk, Union, Consistent, Totalled, Chained;
      if known.Some? && (seeded ==> Truthful(path)) {
        assert Shaped(hash, known.value, seen);
        forall o | o in known.value.observed
          ensures o.id in Covered(rows, runtime, o.session) || o in Observations(hash, Elements(calls))
        {
          var c :| c in seen && o == Observed(c.session, IdOf(hash, c));
          if seeded {
            assert rows[..|known.value.metrics|] == known.value.metrics;
            CoveredGrows(rows, |known.value.metrics|, runtime, o.session);
          } else if o.id in Ids(hash, Elements(calls)) {
            var d :| d in Elements(calls) && IdOf(hash, d) == o.id;
            SameHash(hash, c.session, Plain(c.native), d.session, Plain(d.native));
            assert Observed(d.session, IdOf(hash, d)) in Observations(hash, Elements(calls));
          } else {
            var s :| s in (set p | p in known.value.observed :: p.session) + live && o.id in Covered(rows, runtime, s);
            CoveredInSession(hash, runtime, rows, paid, s, c, seen);
          }
        }
      }
    }

    lemma SavedIsShaped(path: Text, saved: Checkpoint, known: Option<Checkpoint>, calls: seq<Call>, seeded: bool)
      requires SourcesOk() && path in logs && Elements(calls) <= Elements(logs[path]) && saved.prefix == logs[path]
      requires known == (if path in checkpoints then Some(checkpoints[path]) else None) && (seeded ==> known.Some?)
      requires saved.observed == (if known.Some? then known.value.observed else {}) + Observations(hash, Elements(calls))
      requires Sessions(logs[path]) <= saved.live
      requires forall c :: c in logs[path] ==> c in calls || (seeded && c in known.value.prefix)
      ensures Shaped(hash, saved, seen)
    {
      hide HashOk, Consistent;
      assert known.Some? ==> Shaped(hash, known.value, seen);
      forall o | o in Observations(hash, Elements(saved.prefix)) ensures o in saved.observed {
        var c :| c in logs[path] && o == Observed(c.session, IdOf(hash, c));
        if c in calls {
          assert c in Elements(calls);
        } else {
          assert c in Elements(known.value.prefix);
        }
      }
    }

    // The new checkpoint tells the truth exactly when the log is paid for.
    lemma SavedTellsTruth(path: Text, saved: Checkpoint, known: Option<Checkpoint>, calls: seq<Call>, before: seq<Row>)
      requires Valid() && path in logs && Elements(calls) <= Elements(logs[path]) && saved.metrics == rows && before <= rows
      requires saved.observed == (if known.Some? then known.value.observed else {}) + Observations(hash, Elements(calls))
      requires known.Some? ==> forall o :: o in known.value.observed ==>
                 o.id in Covered(before, runtime, o.session) || o in Observations(hash, Elements(calls))
      requires forall c :: c in logs[path] ==> c in calls || c in Union(paid)
      ensures TellsTruth(runtime, saved) <==> Elements(logs[path]) <= Union(paid)
    {
      hide HashOk, BooksOk, Union, Consistent, Totalled, Chained;
      assert rows[..|before|] == before;
      if Elements(logs[path]) <= Union(paid) {
        forall o | o in saved.observed ensures o.id in Covered(rows, runtime, o.session) {
          if o in Observations(hash, Elements(calls)) {
            var c :| c in Elements(calls) && o == Observed(c.session, IdOf(hash, c));
            CoveredIffPaid(hash, runtime, rows, paid, c, seen);
          } else {
            CoveredGrows(rows, |before|, runtime, o.session);
          }
        }
      }
      if TellsTruth(runtime, saved) {
        forall c | c in logs[path] ensures c in Union(paid) {
          if c in calls {
            assert c in Elements(calls) && Observed(c.session, IdOf(hash, c)) in saved.observed;
            CoveredIffPaid(hash, runtime, rows, paid, c, seen);
          }
        }
      }
    }

    // Hand the records in order to the writer, which skips an id it already has. Each may be the last one before
    // the process is killed.
    method Append(records: seq<Row>, ghost sets: seq<set<Call>>) returns (handled: nat, done: bool)
      requires Valid() && Owing(hash, runtime, rows, paid, records, sets, seen)
      modifies this`rows, this`paid
      ensures Valid() && handled <= |records| == |sets| && (done ==> handled == |records|)
      ensures rows == old(rows) + Unrecorded(old(rows), records[..handled])
      ensures paid == old(paid) + UnrecordedSets(old(rows), records[..handled], sets[..handled])
    {
      hide HashOk, BooksOk, Shaped, Union, Consistent, SourcesOk, MemoryOk, Chained, IsTaken, IsNext, Owing, Handled, Unrecorded, UnrecordedSets;
      ghost var rows0, paid0 := rows, paid;
      OwingFacts(hash, runtime, rows, paid, records, sets, seen);
      handled := 0;
      NothingYet(rows, records, sets);
      assert rows0 + [] == rows0 && paid0 + [] == paid0;
      while handled < |records|
        invariant handled <= |records|
        invariant rows == rows0 + Unrecorded(rows0, records[..handled])
        invariant paid == paid0 + UnrecordedSets(rows0, records[..handled], sets[..handled])
        invariant Valid()
      {
        if * {
          return handled, false;
        }
        var r := records[handled];
        SkippedAlike(hash, runtime, rows0, records, sets, handled);
        UnrecordedStep(rows0, records, sets, handled);
        OwingPrefix(hash, runtime, rows0, paid0, records, sets, seen, handled + 1);
        HandledKeepsBooks(hash, runtime, rows0, paid0, records[..handled + 1], sets[..handled + 1], seen);
        HandledMeans(hash, runtime, rows0, paid0, Unrecorded(rows0, records[..handled + 1]),
                     UnrecordedSets(rows0, records[..handled + 1], sets[..handled + 1]), sets[..handled + 1]);
        UnionPrefix(sets, handled + 1);
        if !IsTaken(rows, r.callId) {
          AppendOne(rows0, Unrecorded(rows0, records[..handled]), r);
          AppendOne(paid0, UnrecordedSets(rows0, records[..handled], sets[..handled]), sets[handled]);
          rows, paid := rows + [r], paid + [sets[handled]];
        } else {
          assert Unrecorded(rows0, records[..handled]) + [] == Unrecorded(rows0, records[..handled]);
        }
        handled := handled + 1;
      }
      assert records[..handled] == records && sets[..handled] == sets;
      done := true;
    }
  }

  lemma OwingFacts(h: Hashing, runtime: Text, rows: seq<Row>, paid: seq<set<Call>>, records: seq<Row>, sets: seq<set<Call>>, seen: set<Call>)
    requires Owing(h, runtime, rows, paid, records, sets, seen)
    ensures BooksOk(h, runtime, records, sets) && |sets| == |records| && Union(sets) <= seen && Union(sets) !! Union(paid)
  {
  }

  lemma ShapedLater(h: Hashing, cp: Checkpoint, seen: set<Call>, later: set<Call>)
    requires Shaped(h, cp, seen) && seen <= later
    ensures Shaped(h, cp, later)
  {
  }

  lemma {:induction false} UnionPrefix(paid: seq<set<Call>>, n: nat)
    requires n <= |paid|
    ensures Union(paid[..n]) <= Union(paid)
  {
    if n < |paid| {
      UnionMember(paid, n);
    } else {
      assert paid[..n] == paid;
    }
  }

  lemma ConsistentPart(all: set<Call>, part: set<Call>)
    requires Consistent(all) && part <= all
    ensures Consistent(part)
  {
  }

  /******* Conservation *******/

  // At every moment of any interleaving, what is recorded for a session and model is what the calls paid
  // for add up to, and those are calls some log has shown: never more than once, never more than there were.
  lemma RecordedNeverExceedsTheLogs(b: Biller, session: Text, model: Text)
    requires b.Valid()
    ensures var recorded := Of(Totalled(b.rows, Key(b.runtime, session)).models, model);
            recorded == SumSet(Under(Union(b.paid), session, model)) && AtMost(recorded, SumSet(Under(b.seen, session, model)))
    ensures Totalled(b.rows, Key(b.runtime, session)).unidentified == map[]
  {
    hide HashOk, BooksOk, Union, SumSet, Totalled, Shaped, AtMost, Chained;
    BooksAddUp(b.hash, b.runtime, b.rows, b.paid, session, model);
    SumSetMonotone(Under(Union(b.paid), session, model), Under(b.seen, session, model));
  }

  // When its log is paid for, a session that only this log has ever shown, and that the log still shows, is
  // recorded exactly: each of its distinct calls once.
  lemma FinishedIngestIsExact(b: Biller, path: Text, session: Text, model: Text)
    requires b.Valid() && path in b.logs && Elements(b.logs[path]) <= Union(b.paid)
    requires InSession(b.seen, session) <= Elements(b.logs[path])
    ensures Of(Totalled(b.rows, Key(b.runtime, session)).models, model) == SumSet(Under(Elements(b.logs[path]), session, model))
  {
    hide HashOk, BooksOk, Union, SumSet, Totalled, Shaped, Consistent, Chained;
    BooksAddUp(b.hash, b.runtime, b.rows, b.paid, session, model);
    var (all, mine) := (Under(Union(b.paid), session, model), Under(Elements(b.logs[path]), session, model));
    forall c | c in all ensures c in mine {
      assert c in InSession(b.seen, session);
    }
    assert all == mine;
  }

  // Record ids never collide while the metric stream is only appended to and truncated, nor at per-call
  // granularity whatever was done to it.
  lemma CollidesOnlyAfterRewrite(b: Biller, path: Text, granularity: Granularity)
    requires b.Valid()
    ensures b.Collides(path, granularity) ==> b.rewritten && granularity == Granularity.Session
  {
    hide HashOk, BooksOk, Union, Shaped, Consistent, Chained, GroupsCollide;
    if !b.rewritten {
      ConsistentPart(b.seen, Union(b.paid));
      ChainedNeverCollides(b.hash, b.runtime, b.rows, b.paid, b.Unpaid(path));
    }
  }

  /******* A run in which ids collide *******/

  // One call was billed by itself, and the next one of its group by an aggregate.
  function FirstRow(h: Hashing, runtime: Text, c: Call): Row {
    CallRow(h, runtime, c)
  }

  function SecondRow(h: Hashing, runtime: Text, c: Call): Row {
    SessionRow(h, runtime, GroupKey(c.session, c.model), Group(c.totals, [IdOf(h, c)]), 1)
  }

  ghost predicate TwoCalls(c: Call, d: Call) {
    c.session == d.session && c.model == d.model && c.native != d.native && c.totals.calls == 1 && d.totals.calls == 1
  }

  lemma OneRecorded(h: Hashing, runtime: Text, c: Call, r: Row)
    requires c.totals.calls == 1 && r.totals == c.totals && r.key == Key(runtime, c.session) && r.model == c.model
    ensures Recorded([r], runtime, GroupKey(c.session, c.model)) == 1
  {
    TotalledLast([], r, r.key);
    assert [] + [r] == [r];
    hide Identified;
  }

  lemma GroupOfOne(h: Hashing, d: Call)
    requires HashOk(h) && d.totals.calls == 1
    ensures GroupOk(h, Group(d.totals, [IdOf(h, d)]), {d})
  {
    hide HashOk, SumSet, IdOf;
    OneTotals(d);
    var (g, id) := (Group(d.totals, [IdOf(h, d)]), IdOf(h, d));
    assert (set x | x in g.ids) == {id};
    assert Ids(h, {d}) == {id};
  }

  lemma OneTotals(d: Call)
    ensures SumSet({d}) == d.totals
  {
    hide SumSet;
    SumSetAdd({}, d);
    SumSetEmpty();
    PlusLaws(d.totals, ZERO, ZERO);
    assert {} + {d} == {d};
  }

  lemma OneIsConsistent(d: Call)
    requires d.totals.calls == 1
    ensures Consistent({d}) && Under({d}, d.session, d.model) == {d}
  {
  }

  lemma SecondRowPays(h: Hashing, runtime: Text, c: Call, d: Call)
    requires HashOk(h) && TwoCalls(c, d)
    ensures var (rows, r) := ([FirstRow(h, runtime, c)], SecondRow(h, runtime, d));
            Pays(h, runtime, r, {d}) && IsNext(h, runtime, rows, r) && r.callId != FirstRow(h, runtime, c).callId
    ensures SecondRow(h, runtime, d).callId == OwedId(h, runtime, [SecondRow(h, runtime, d)], {c}, GroupKey(c.session, c.model))
  {
    hide HashOk, Identified, Recorded, GroupOk, SumSet, Consistent, Pays;
    var k := GroupKey(d.session, d.model);
    OneRecorded(h, runtime, c, FirstRow(h, runtime, c));
    OneRecorded(h, runtime, d, SecondRow(h, runtime, d));
    GroupOfOne(h, d);
    OneIsConsistent(d);
    assert Under({c}, c.session, c.model) == {c};
    SessionRowPays(h, runtime, [FirstRow(h, runtime, c)], k, Group(d.totals, [IdOf(h, d)]), {d}, {d});
    if SecondRow(h, runtime, d).callId == FirstRow(h, runtime, c).callId {
      SameHash(h, d.session, Aggregate(d.model, 1, 1), c.session, Plain(c.native));
    }
  }

  lemma TwoRowsAreBooks(h: Hashing, runtime: Text, c: Call, d: Call)
    requires HashOk(h) && TwoCalls(c, d)
    ensures var rows := [FirstRow(h, runtime, c), SecondRow(h, runtime, d)];
            BooksOk(h, runtime, rows, [{c}, {d}]) && Union([{c}, {d}]) == {c, d} && Chained(h, runtime, rows)
  {
    hide HashOk, BooksOk, Pays, Union, IsNext, FirstRow, SecondRow, TwoCalls, Chained;
    CallsDiffer(c, d);
    CallRowPays(h, runtime, c);
    SecondRowPays(h, runtime, c, d);
    NoBooks(h, runtime);
    NothingIsChained(h, runtime);
    FirstIsCallRow(h, runtime, c);
    BooksExtend(h, runtime, [], [], FirstRow(h, runtime, c), {c});
    assert [] + [FirstRow(h, runtime, c)] == [FirstRow(h, runtime, c)] && [] + [{c}] == [{c}];
    ChainedExtend(h, runtime, [], FirstRow(h, runtime, c));
    BooksExtend(h, runtime, [FirstRow(h, runtime, c)], [{c}], SecondRow(h, runtime, d), {d});
    assert [FirstRow(h, runtime, c)] + [SecondRow(h, runtime, d)] == [FirstRow(h, runtime, c), SecondRow(h, runtime, d)];
    assert [{c}] + [{d}] == [{c}, {d}];
    ChainedExtend(h, runtime, [FirstRow(h, runtime, c)], SecondRow(h, runtime, d));
  }

  lemma CallsDiffer(c: Call, d: Call)
    requires TwoCalls(c, d)
    ensures {d} !! {c} && Consistent({c, d})
  {
  }

  lemma NothingIsChained(h: Hashing, runtime: Text)
    ensures Chained(h, runtime, [])
  {
  }

  lemma FirstIsCallRow(h: Hashing, runtime: Text, c: Call)
    ensures FirstRow(h, runtime, c) == CallRow(h, runtime, c)
  {
  }

  // Both calls are billed, and a checkpoint says so.
  method BilledTwice(runtime: Text, h: Hashing, path: Text, c: Call, d: Call) returns (b: Biller)
    requires HashOk(h) && TwoCalls(c, d)
    ensures fresh(b) && b.Valid() && b.hash == h && b.runtime == runtime && b.logs == map[path := [c, d]] && b.seen == {c, d}
    ensures b.rows == [FirstRow(h, runtime, c), SecondRow(h, runtime, d)] && b.paid == [{c}, {d}]
    ensures path in b.checkpoints && b.checkpoints[path].observed == Observations(h, {c, d}) && b.checkpoints[path].inode == b.inode
  {
    hide HashOk, BooksOk, Pays, Union, IsNext, FirstRow, SecondRow, TwoCalls, Chained, Consistent, IsTaken, Covered, OwedId;
    CallsDiffer(c, d);
    TwoRowsAreBooks(h, runtime, c, d);
    b := new Biller(runtime, h);
    var rows := [FirstRow(h, runtime, c), SecondRow(h, runtime, d)];
    b.logs, b.rows := map[path := [c, d]], rows;
    b.paid, b.seen, b.remembered := [{c}, {d}], {c, d}, map[path := {c, d}];
    assert Elements([c, d]) == {c, d};
    b.checkpoints := map[path := Checkpoint([c, d], Observations(h, {c, d}), {c.session, d.session}, b.inode, rows)];
    assert b.Valid();
  }

  // The metric stream is replaced by one that lacks the first row. The aggregate owed for the call that is unpaid
  // again has the record id of the aggregate that is still there: the writer skips it, and the checkpoint vouches
  // for a call nothing pays for.
  method RewriteLosesACall(runtime: Text, h: Hashing, path: Text, c: Call, d: Call) returns (b: Biller, outcome: Outcome)
    requires HashOk(h) && TwoCalls(c, d)
    ensures fresh(b) && b.Valid() && outcome != Rejected
    ensures outcome == Done ==> !b.Truthful(path) && path in b.logs && c in b.logs[path] && c !in Union(b.paid)
  {
    hide HashOk, BooksOk, Pays, Union, IsNext, FirstRow, SecondRow, TwoCalls, Chained, Consistent, IsTaken, Covered, OwedId, Shaped, Biller.SourcesOk,
      Biller.MemoryOk, Observations;
    b := BilledTwice(runtime, h, path, c, d);
    assert Picked(b.rows, [1]) == [SecondRow(h, runtime, d)] && Picked(b.paid, [1]) == [{d}];
    b.Rewrite([1]);
    assert b.rows == [SecondRow(h, runtime, d)] && b.paid == [{d}];
    SecondIsLeft(b, path, c, d);
    outcome := b.Ingest(path, Granularity.Session);
    if outcome == Done {
      OnlyOneUnpaid(b.paid, c, d);
    }
  }

  lemma SecondIsLeft(b: Biller, path: Text, c: Call, d: Call)
    requires b.Valid() && TwoCalls(c, d) && b.rows == [SecondRow(b.hash, b.runtime, d)] && b.paid == [{d}]
    requires b.logs == map[path := [c, d]] && b.seen == {c, d}
    requires path in b.checkpoints && b.checkpoints[path].observed == Observations(b.hash, {c, d})
    ensures b.Collides(path, Granularity.Session) && !b.HistoryIsGone(path)
  {
    hide HashOk, BooksOk, Pays, IsNext, FirstRow, SecondRow, Chained, Consistent, Covered, OwedId, Shaped;
    b.SourcesFacts();
    CallsDiffer(c, d);
    OneSet({d});
    CoveredIffPaid(b.hash, b.runtime, b.rows, b.paid, c, b.seen);
    CoveredIffPaid(b.hash, b.runtime, b.rows, b.paid, d, b.seen);
    assert b.Unpaid(path) == {c};
    SecondRowPays(b.hash, b.runtime, c, d);
    assert SecondRow(b.hash, b.runtime, d) in b.rows;
    assert Elements([c, d]) == {c, d};
  }

  lemma OneSet(calls: set<Call>)
    ensures Union([calls]) == calls
  {
    assert [calls][..0] == [];
  }

  lemma OnlyOneUnpaid(paid: seq<set<Call>>, c: Call, d: Call)
    requires [{d}] <= paid && !(Elements([c, d]) <= Union(paid))
    ensures c !in Union(paid)
  {
    hide Union;
    assert paid[0] == {d};
    UnionMember(paid, 0);
    assert Elements([c, d]) == {c, d};
  }

  // A checkpoint that tells the truth knows every call of the prefix it read, and each call it ever observed is
  // paid for in the metrics prefix it names. By `Ingest`, a checkpoint tells the truth unless record ids collided
  // when it was saved or it grew out of one that does not; nothing else that happens touches it.
  lemma CheckpointVouchesForPaidCalls(b: Biller, path: Text)
    requires b.Valid() && path in b.checkpoints
    ensures var cp := b.checkpoints[path];
            && (forall c :: c in cp.prefix ==> Observed(c.session, IdOf(b.hash, c)) in cp.observed)
            && (forall o :: o in cp.observed ==> exists c :: c in b.seen && o == Observed(c.session, IdOf(b.hash, c)))
            && (b.Truthful(path) <==> forall o :: o in cp.observed ==> o.id in Covered(cp.metrics, b.runtime, o.session))
    ensures b.Truthful(path) && b.Seeded(path) ==>
              forall c :: c in b.seen && Observed(c.session, IdOf(b.hash, c)) in b.checkpoints[path].observed ==> c in Union(b.paid)
  {
    hide HashOk, BooksOk, Union, Totalled, Consistent, Chained;
    var cp := b.checkpoints[path];
    assert Shaped(b.hash, cp, b.seen);
    forall c | c in cp.prefix ensures Observed(c.session, IdOf(b.hash, c)) in cp.observed {
      assert c in Elements(cp.prefix);
    }
    forall o | o in cp.observed ensures exists c :: c in b.seen && o == Observed(c.session, IdOf(b.hash, c)) {
      assert o in Observations(b.hash, b.seen);
    }
    if b.Truthful(path) && b.Seeded(path) {
      assert b.rows[..|cp.metrics|] == cp.metrics;
      forall c | c in b.seen && Observed(c.session, IdOf(b.hash, c)) in cp.observed ensures c in Union(b.paid) {
        CoveredGrows(b.rows, |cp.metrics|, b.runtime, c.session);
        CoveredIffPaid(b.hash, b.runtime, b.rows, b.paid, c, b.seen);
      }
    }
  }

  // Whatever happened since, and unless its checkpoint was lost: an ingest of a log whose metrics prefix is gone is
  // rejected if and only if some call that a finished ingest once found there is neither recorded nor in the log.
  lemma NothingIsForgotten(b: Biller, path: Text)
    requires b.Valid() && path in b.logs
    ensures b.HistoryIsGone(path) <==>
            path in b.checkpoints && !(b.checkpoints[path].inode == b.inode && b.checkpoints[path].metrics <= b.rows)
            && exists c :: c in b.Remembered(path) && c !in b.logs[path] && c !in Union(b.paid)
  {
    hide HashOk, BooksOk, Shaped, Union, Consistent, Chained, Totalled;
    if path in b.checkpoints && !b.Seeded(path) {
      var cp := b.checkpoints[path];
      forall c | c in b.Remembered(path)
        ensures c in b.logs[path] || c in Union(b.paid) <==>
                IdOf(b.hash, c) in b.CoveredIds((set p | p in cp.observed :: p.session) + Sessions(b.logs[path]))
                || IdOf(b.hash, c) in Ids(b.hash, Elements(b.logs[path]))
      {
        RememberedIsFound(b, path, c);
      }
      if o :| o in cp.observed && o.id !in b.CoveredIds((set p | p in cp.observed :: p.session) + Sessions(b.logs[path]))
              && o.id !in Ids(b.hash, Elements(b.logs[path])) {
        var c :| c in b.remembered[path] && o == Observed(c.session, IdOf(b.hash, c));
        assert c in b.Remembered(path) && c !in b.logs[path] && c !in Union(b.paid);
      }
      if c :| c in b.Remembered(path) && c !in b.logs[path] && c !in Union(b.paid) {
        assert Observed(c.session, IdOf(b.hash, c)) in cp.observed;
        assert b.Missing(cp, b.logs[path], Sessions(b.logs[path]));
      }
    }
  }

  lemma RememberedIsFound(b: Biller, path: Text, c: Call)
    requires b.Valid() && path in b.logs && path in b.checkpoints && c in b.Remembered(path)
    ensures c in b.logs[path] || c in Union(b.paid) <==>
            IdOf(b.hash, c) in b.CoveredIds((set p | p in b.checkpoints[path].observed :: p.session) + Sessions(b.logs[path]))
            || IdOf(b.hash, c) in Ids(b.hash, Elements(b.logs[path]))
  {
    hide HashOk, BooksOk, Union, Consistent, Chained, Totalled;
    var cp, id := b.checkpoints[path], IdOf(b.hash, c);
    var sessions := (set p | p in cp.observed :: p.session) + Sessions(b.logs[path]);
    assert Observed(c.session, id) in cp.observed && c.session in sessions;
    CoveredIffPaid(b.hash, b.runtime, b.rows, b.paid, c, b.seen);
    if id in b.CoveredIds(sessions) {
      var s :| s in sessions && id in Covered(b.rows, b.runtime, s);
      CoveredInSession(b.hash, b.runtime, b.rows, b.paid, s, c, b.seen);
    }
    if id in Ids(b.hash, Elements(b.logs[path])) {
      var d :| d in Elements(b.logs[path]) && IdOf(b.hash, d) == id;
      SameId(b.hash, b.seen, c, d);
    }
    if c in b.logs[path] {
      assert c in Elements(b.logs[path]);
    }
  }

  lemma SameId(h: Hashing, seen: set<Call>, c: Call, d: Call)
    requires HashOk(h) && Consistent(seen) && c in seen && d in seen && IdOf(h, c) == IdOf(h, d)
    ensures c == d
  {
    hide HashOk;
    SameHash(h, c.session, Plain(c.native), d.session, Plain(d.native));
  }

  // No two recorded rows share a record id, aggregates included, whatever was taken out and recorded again.
  lemma RecordIdsAreDistinct(b: Biller, i: nat, j: nat)
    requires b.Valid() && i < j < |b.rows|
    ensures b.rows[i].callId != b.rows[j].callId
  {
    hide HashOk, Pays, Union, Shaped, Consistent, Chained;
  }

  /******* The ledger and the books *******/

  function Parsed(read: Reading, rows: seq<Json>): seq<Row> {
    if rows == [] then []
    else
      var last := read(rows[|rows| - 1]);
      Parsed(read, rows[..|rows| - 1]) + (if last.Some? then [last.value] else [])
  }

  lemma ParsedLast(read: Reading, init: seq<Json>, last: Json)
    ensures Parsed(read, init + [last]) == Parsed(read, init) + (if read(last).Some? then [read(last).value] else [])
  {
    assert (init + [last])[..|init|] == init;
  }

  lemma TotalledLast(rows: seq<Row>, r: Row, key: Key)
    ensures Totalled(rows + [r], key) == if r.key == key then Apply(Totalled(rows, key), r) else Totalled(rows, key)
  {
    hide Apply;
    assert (rows + [r])[..|rows|] == rows;
  }

  lemma SumLast(read: Reading, init: seq<Json>, last: Json, key: Key)
    ensures Sum(read, BLANK, init + [last], key) == ApplyTo(read, Sum(read, BLANK, init, key), last, key)
  {
    hide ApplyTo;
    SumAppend(read, BLANK, init, [last], key);
    assert [last][1..] == [];
  }

  // A session's state in the incremental ledger is its state in the books of the rows the stream holds.
  lemma {:induction false} LedgerHoldsTheBooks(read: Reading, rows: seq<Json>, key: Key)
    ensures Sum(read, BLANK, rows, key) == Totalled(Parsed(read, rows), key)
    decreases |rows|
  {
    hide Sum, Totalled, Parsed;
    if rows != [] {
      var (init, last) := (rows[..|rows| - 1], rows[|rows| - 1]);
      LedgerStep(read, init, last, key);
      assert rows == init + [last];
    } else {
      LedgerStarts(read, key);
    }
  }

  lemma LedgerStarts(read: Reading, key: Key)
    ensures Sum(read, BLANK, [], key) == Totalled(Parsed(read, []), key)
  {
  }

  lemma {:induction false} LedgerStep(read: Reading, init: seq<Json>, last: Json, key: Key)
    ensures Sum(read, BLANK, init + [last], key) == Totalled(Parsed(read, init + [last]), key)
    decreases |init| + 1, 0
  {
    hide Sum, Totalled, Parsed, Apply;
    LedgerHoldsTheBooks(read, init, key);
    SumLast(read, init, last, key);
    ParsedLast(read, init, last);
    if read(last).Some? {
      TotalledLast(Parsed(read, init), read(last).value, key);
    } else {
      assert Parsed(read, init) + [] == Parsed(read, init);
    }
  }
}
