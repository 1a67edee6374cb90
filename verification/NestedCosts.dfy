/**
 Aggregate against detail: the spend a dispatch reports for its nested calls, and the rows that itemize
 it. What is missing is booked once, as a residual that makes the two agree; what cannot be told apart or
 explained is reported and never booked. The planner that recovers detail rows from logs books only rows
 that leave nothing to reconcile. Costs are exact reals.
 */
module NestedCosts {
  import opened Wrappers

  // `dispatch_attempt` as it is written: absent, not a number in [0, 16], or one that is.
  datatype Attempt = Absent | Malformed | Explicit(n: nat)

  // `nested_cost_usd`: absent, something that is not a finite non-negative number but may still read as
  // one elsewhere, or dollars.
  datatype Aggregate = Missing | Unusable(read: real) | Dollars(amount: real)

  datatype Event = Event(finished: bool, run: Option<string>, task: Option<string>, aggregate: Aggregate,
                         attempt: Attempt, emitted: Option<int>)

  datatype Row = Row(run: Option<string>, parent: Option<string>, attempt: Attempt, nested: bool, cost: real, residual: bool)

  datatype Dispatch = Dispatch(run: Option<string>, task: Option<string>)

  datatype Key = Key(dispatch: Dispatch, attempt: nat)

  // Two finished events that cannot be told apart, or a gap that the claimed rows do not explain.
  datatype Ambiguity =
    | Inseparable(dispatch: Dispatch, events: nat, amount: real)
    | Unexplained(key: Key, aggregate: real, detail: real, emitted: int, durable: nat)

  const EPSILON_ABS := 0.005
  const EPSILON_REL := 0.005

  function Epsilon(aggregate: real): real {
    var rel := EPSILON_REL * aggregate;
    if rel > EPSILON_ABS then rel else EPSILON_ABS
  }

  // Absent or malformed reads as the first attempt.
  function AttemptOf(a: Attempt): nat {
    if a.Explicit? then a.n else 0
  }

  function RowKey(r: Row): Key {
    Key(Dispatch(r.run, r.parent), AttemptOf(r.attempt))
  }

  function DispatchOf(e: Event): Dispatch {
    Dispatch(e.run, e.task)
  }

  function EventKey(e: Event): Key {
    Key(DispatchOf(e), AttemptOf(e.attempt))
  }

  function AggregateOf(e: Event): real {
    match e.aggregate
    case Missing => 0.0
    case Unusable(read) => read
    case Dollars(amount) => amount
  }

  /******* Grouping *******/

  // The detail rows of one key.
  function Select(calls: seq<Row>, k: Key): seq<Row> {
    if calls == [] then []
    else
      var before, last := Select(calls[..|calls| - 1], k), calls[|calls| - 1];
      if last.nested && RowKey(last) == k then before + [last] else before
  }

  function Cost(rows: seq<Row>): real {
    if rows == [] then 0.0 else Cost(rows[..|rows| - 1]) + rows[|rows| - 1].cost
  }

  function GroupOf(events: seq<Event>, d: Dispatch): seq<Event> {
    if events == [] then []
    else
      var before, last := GroupOf(events[..|events| - 1], d), events[|events| - 1];
      if last.finished && DispatchOf(last) == d then before + [last] else before
  }

  // The dispatches in the order they first finished.
  function Order(events: seq<Event>): seq<Dispatch> {
    if events == [] then []
    else
      var before, last := Order(events[..|events| - 1]), events[|events| - 1];
      if last.finished && DispatchOf(last) !in before then before + [DispatchOf(last)] else before
  }

  function Amount(group: seq<Event>): real {
    if group == [] then 0.0 else Amount(group[..|group| - 1]) + AggregateOf(group[|group| - 1])
  }

  // One event, or two whose attempts are both written down and different.
  predicate Separable(group: seq<Event>) {
    |group| <= 1 ||
    (|group| == 2 && group[0].attempt.Explicit? && group[1].attempt.Explicit? && group[0].attempt != group[1].attempt)
  }

  /******* The rule for one event *******/

  datatype Finding = Nothing | Residual(gap: real) | Gap(gap: real)

  function Judge(e: Event, details: seq<Row>): Finding {
    var aggregate := AggregateOf(e);
    var gap := aggregate - Cost(details);
    if aggregate <= 0.0 || gap <= Epsilon(aggregate) then Nothing
    else if e.emitted.None? || e.emitted.value > |details| then Residual(gap)
    else Gap(gap)
  }

  function ResidualRow(e: Event, gap: real): Row {
    Row(e.run, e.task, Explicit(AttemptOf(e.attempt)), true, gap, true)
  }

  // What the rule books for one event.
  function BookedFor(e: Event, calls: seq<Row>): seq<Row> {
    match Judge(e, Select(calls, EventKey(e)))
    case Residual(gap) => [ResidualRow(e, gap)]
    case _ => []
  }

  // What a rule books for each event that can be told apart, in order.
  type Rule = Event -> seq<Row>

  function ResidualRule(calls: seq<Row>): Rule {
    e => BookedFor(e, calls)
  }

  function EventRows(group: seq<Event>, f: Rule): seq<Row> {
    if group == [] then [] else EventRows(group[..|group| - 1], f) + f(group[|group| - 1])
  }

  function EventGaps(group: seq<Event>, calls: seq<Row>): seq<Ambiguity> {
    if group == [] then []
    else
      var before, e := EventGaps(group[..|group| - 1], calls), group[|group| - 1];
      var details := Select(calls, EventKey(e));
      match Judge(e, details)
      case Gap(_) => before + [Unexplained(EventKey(e), AggregateOf(e), Cost(details), e.emitted.value, |details|)]
      case _ => before
  }

  function GroupRows(group: seq<Event>, f: Rule): seq<Row> {
    if Separable(group) then EventRows(group, f) else []
  }

  function GroupAmbiguities(d: Dispatch, group: seq<Event>, calls: seq<Row>): seq<Ambiguity> {
    if Separable(group) then EventGaps(group, calls) else [Inseparable(d, |group|, Amount(group))]
  }

  function RowsFor(order: seq<Dispatch>, events: seq<Event>, f: Rule): seq<Row> {
    if order == [] then []
    else RowsFor(order[..|order| - 1], events, f) + GroupRows(GroupOf(events, order[|order| - 1]), f)
  }

  function AmbiguitiesFor(order: seq<Dispatch>, events: seq<Event>, calls: seq<Row>): seq<Ambiguity> {
    if order == [] then []
    else
      var d := order[|order| - 1];
      AmbiguitiesFor(order[..|order| - 1], events, calls) + GroupAmbiguities(d, GroupOf(events, d), calls)
  }

  function Booked(events: seq<Event>, calls: seq<Row>): seq<Row> {
    RowsFor(Order(events), events, ResidualRule(calls))
  }

  function Ambiguous(events: seq<Event>, calls: seq<Row>): seq<Ambiguity> {
    AmbiguitiesFor(Order(events), events, calls)
  }

  /******* The reduction *******/

  function Get<K, V>(m: map<K, seq<V>>, k: K): seq<V> {
    if k in m then m[k] else []
  }

  method DetailByKey(calls: seq<Row>) returns (details: map<Key, seq<Row>>)
    ensures forall k :: Get(details, k) == Select(calls, k)
  {
    details := map[];
    var i := 0;
    while i < |calls|
      invariant 0 <= i <= |calls|
      invariant forall k :: Get(details, k) == Select(calls[..i], k)
    {
      var row := calls[i];
      assert calls[..i + 1][..i] == calls[..i];
      if row.nested {
        details := details[RowKey(row) := Get(details, RowKey(row)) + [row]];
      }
      i := i + 1;
    }
    assert calls[..i] == calls;
  }

  method DispatchGroups(events: seq<Event>) returns (order: seq<Dispatch>, groups: map<Dispatch, seq<Event>>)
    ensures order == Order(events)
    ensures forall d :: Get(groups, d) == GroupOf(events, d)
  {
    order, groups := [], map[];
    var i := 0;
    while i < |events|
      invariant 0 <= i <= |events|
      invariant order == Order(events[..i])
      invariant forall d :: d in groups <==> d in order
      invariant forall d :: Get(groups, d) == GroupOf(events[..i], d)
    {
      var e := events[i];
      assert events[..i + 1][..i] == events[..i];
      if e.finished {
        var d := DispatchOf(e);
        if d !in groups {
          order := order + [d];
        }
        groups := groups[d := Get(groups, d) + [e]];
      }
      i := i + 1;
    }
    assert events[..i] == events;
  }

  // `nested_reconciliation`
  method NestedReconciliation(events: seq<Event>, calls: seq<Row>) returns (rows: seq<Row>, ambiguous: seq<Ambiguity>)
    ensures rows == Booked(events, calls) && ambiguous == Ambiguous(events, calls)
  {
    hide Select, GroupOf, Order, Judge, Separable;
    var details := DetailByKey(calls);
    var order, groups := DispatchGroups(events);
    rows, ambiguous := [], [];
    var i := 0;
    while i < |order|
      invariant 0 <= i <= |order|
      invariant rows == RowsFor(order[..i], events, ResidualRule(calls)) && ambiguous == AmbiguitiesFor(order[..i], events, calls)
    {
      var group := Get(groups, order[i]);
      assert order[..i + 1][..i] == order[..i];
      if !Separable(group) {
        ambiguous := ambiguous + [Inseparable(order[i], |group|, Amount(group))];
      } else {
        var more, gaps := ReconcileGroup(group, details, calls);
        rows, ambiguous := rows + more, ambiguous + gaps;
      }
      i := i + 1;
    }
    assert order[..i] == order;
  }

  method ReconcileGroup(group: seq<Event>, details: map<Key, seq<Row>>, ghost calls: seq<Row>)
    returns (rows: seq<Row>, gaps: seq<Ambiguity>)
    requires forall k :: Get(details, k) == Select(calls, k)
    ensures rows == EventRows(group, ResidualRule(calls)) && gaps == EventGaps(group, calls)
  {
    hide Select;
    rows, gaps := [], [];
    var i := 0;
    while i < |group|
      invariant 0 <= i <= |group|
      invariant rows == EventRows(group[..i], ResidualRule(calls)) && gaps == EventGaps(group[..i], calls)
    {
      var e := group[i];
      var rowsOfKey := Get(details, EventKey(e));
      assert group[..i + 1][..i] == group[..i];
      match Judge(e, rowsOfKey) {
        case Nothing =>
        case Residual(gap) => rows := rows + [ResidualRow(e, gap)];
        case Gap(_) => gaps := gaps + [Unexplained(EventKey(e), AggregateOf(e), Cost(rowsOfKey), e.emitted.value, |rowsOfKey|)];
      }
      i := i + 1;
    }
    assert group[..i] == group;
  }

  /******* Sums and selections *******/

  lemma {:induction false} SelectAppend(a: seq<Row>, b: seq<Row>, k: Key)
    ensures Select(a + b, k) == Select(a, k) + Select(b, k)
  {
    if b == [] {
      assert a + b == a && Select(a, k) + [] == Select(a, k);
    } else {
      assert (a + b)[..|a + b| - 1] == a + b[..|b| - 1];
      SelectAppend(a, b[..|b| - 1], k);
      assert (a + b)[|a + b| - 1] == b[|b| - 1];
      var last := b[|b| - 1];
      if last.nested && RowKey(last) == k {
        assert Select(a, k) + Select(b[..|b| - 1], k) + [last] == Select(a, k) + (Select(b[..|b| - 1], k) + [last]);
      }
    }
  }

  lemma {:induction false} CostAppend(a: seq<Row>, b: seq<Row>)
    ensures Cost(a + b) == Cost(a) + Cost(b)
  {
    if b == [] {
      assert a + b == a;
    } else {
      assert (a + b)[..|a + b| - 1] == a + b[..|b| - 1];
      CostAppend(a, b[..|b| - 1]);
    }
  }

  lemma {:induction false} GroupMembers(events: seq<Event>, d: Dispatch)
    ensures forall e :: e in GroupOf(events, d) ==> DispatchOf(e) == d && e.finished && e in events
    ensures d in Order(events) <==> GroupOf(events, d) != []
  {
    if events != [] {
      GroupMembers(events[..|events| - 1], d);
    }
  }

  lemma {:induction false} OrderIsDistinct(events: seq<Event>)
    ensures forall i, j :: 0 <= i < j < |Order(events)| ==> Order(events)[i] != Order(events)[j]
  {
    if events != [] {
      OrderIsDistinct(events[..|events| - 1]);
    }
  }

  /******* What is booked for one key *******/

  // The rows booked for an event are detail rows of its own key.
  ghost predicate Keyed(f: Rule) {
    forall e: Event, r: Row :: r in f(e) ==> r.nested && RowKey(r) == EventKey(e)
  }

  lemma ResidualsAreKeyed(calls: seq<Row>)
    ensures Keyed(ResidualRule(calls))
  {
    hide Judge;
  }

  lemma {:induction false} SelectKeyed(rows: seq<Row>, key: Key, k: Key)
    requires forall r :: r in rows ==> r.nested && RowKey(r) == key
    ensures Select(rows, k) == if key == k then rows else []
  {
    if rows != [] {
      SelectKeyed(rows[..|rows| - 1], key, k);
    }
  }

  lemma {:induction false} NoneOfOtherKeys(group: seq<Event>, f: Rule, k: Key)
    requires Keyed(f) && forall e :: e in group ==> EventKey(e) != k
    ensures Select(EventRows(group, f), k) == []
  {
    if group == [] {
      EmptySelect(k);
    } else {
      var init, e := group[..|group| - 1], group[|group| - 1];
      NoneOfOtherKeys(init, f, k);
      SelectAppend(EventRows(init, f), f(e), k);
      SelectKeyed(f(e), EventKey(e), k);
    }
  }

  // In a group whose events can be told apart, each event's key is booked for that event alone.
  lemma OwnKey(group: seq<Event>, f: Rule, i: nat)
    requires Keyed(f) && Separable(group) && i < |group|
    requires forall e, g :: e in group && g in group ==> DispatchOf(e) == DispatchOf(g)
    ensures Select(EventRows(group, f), EventKey(group[i])) == f(group[i])
  {
    hide Select, EventRows, Keyed;
    if |group| == 1 {
      assert group == [group[0]];
      OneEvent(group[0], f);
      SelectEvent(group[0], f, EventKey(group[i]));
    } else {
      assert group == [group[0], group[1]] && group[0] in group && group[1] in group;
      TwoEvents(group[0], group[1], f, EventKey(group[i]));
    }
  }

  lemma OneEvent(e: Event, f: Rule)
    ensures EventRows([e], f) == f(e)
  {
    NoRows(f);
    assert [e][..0] == [] && [] + f(e) == f(e);
  }

  lemma TwoEvents(e: Event, g: Event, f: Rule, k: Key)
    requires Keyed(f)
    ensures Select(EventRows([e, g], f), k) == (if EventKey(e) == k then f(e) else []) + (if EventKey(g) == k then f(g) else [])
  {
    hide Select, EventRows, Keyed;
    OneEvent(e, f);
    assert [e, g][..1] == [e];
    RowsOfLast([e, g], f);
    SelectAppend(f(e), f(g), k);
    SelectEvent(e, f, k);
    SelectEvent(g, f, k);
  }

  lemma NoRows(f: Rule)
    ensures EventRows([], f) == []
  {
  }

  lemma RowsOfLast(group: seq<Event>, f: Rule)
    requires group != []
    ensures EventRows(group, f) == EventRows(group[..|group| - 1], f) + f(group[|group| - 1])
  {
  }

  lemma SelectEvent(e: Event, f: Rule, k: Key)
    requires Keyed(f)
    ensures Select(f(e), k) == if EventKey(e) == k then f(e) else []
  {
    SelectKeyed(f(e), EventKey(e), k);
  }

  lemma {:induction false} SelectBooked(order: seq<Dispatch>, events: seq<Event>, f: Rule, k: Key)
    requires Keyed(f) && forall i, j :: 0 <= i < j < |order| ==> order[i] != order[j]
    ensures Select(RowsFor(order, events, f), k) ==
            if k.dispatch in order then Select(GroupRows(GroupOf(events, k.dispatch), f), k) else []
  {
    hide Select, GroupRows, GroupOf, Keyed;
    if order == [] {
      EmptySelect(k);
    } else {
      var init, d := order[..|order| - 1], order[|order| - 1];
      SelectBooked(init, events, f, k);
      SelectAppend(RowsFor(init, events, f), GroupRows(GroupOf(events, d), f), k);
      if d != k.dispatch {
        OtherGroup(events, f, d, k);
      }
    }
  }

  lemma EmptySelect(k: Key)
    ensures Select([], k) == []
  {
  }

  lemma OtherGroup(events: seq<Event>, f: Rule, d: Dispatch, k: Key)
    requires Keyed(f) && d != k.dispatch
    ensures Select(GroupRows(GroupOf(events, d), f), k) == []
  {
    hide Keyed;
    GroupMembers(events, d);
    EmptySelect(k);
    NoneOfOtherKeys(GroupOf(events, d), f, k);
  }

  // What a rule books for an event's key, over the whole population.
  lemma BookedForEvent(events: seq<Event>, f: Rule, d: Dispatch, i: nat)
    requires Keyed(f) && i < |GroupOf(events, d)| && Separable(GroupOf(events, d))
    ensures Select(RowsFor(Order(events), events, f), EventKey(GroupOf(events, d)[i])) == f(GroupOf(events, d)[i])
  {
    hide Select, Separable, EventRows, Keyed;
    var group := GroupOf(events, d);
    GroupMembers(events, d);
    OrderIsDistinct(events);
    SelectBooked(Order(events), events, f, EventKey(group[i]));
    OwnKey(group, f, i);
  }

  /******* Conservation *******/

  // Once its residual is booked, an event's detail rows add up to exactly its aggregate; and whatever the
  // rule found, applying it again finds the same gap reported, or nothing left to book.
  lemma BookingSettles(events: seq<Event>, calls: seq<Row>, d: Dispatch, i: nat)
    requires i < |GroupOf(events, d)| && Separable(GroupOf(events, d))
    ensures var e, after := GroupOf(events, d)[i], calls + Booked(events, calls);
            var was, is_ := Judge(e, Select(calls, EventKey(e))), Judge(e, Select(after, EventKey(e)));
            && (was.Residual? ==> Cost(Select(after, EventKey(e))) == AggregateOf(e) && is_ == Nothing)
            && (!was.Residual? ==> Select(after, EventKey(e)) == Select(calls, EventKey(e)) && is_ == was)
  {
    hide Select, Separable, GroupOf;
    var e := GroupOf(events, d)[i];
    var before, booked := Select(calls, EventKey(e)), BookedFor(e, calls);
    ResidualsAreKeyed(calls);
    BookedForEvent(events, ResidualRule(calls), d, i);
    SelectAppend(calls, Booked(events, calls), EventKey(e));
    CostAppend(before, booked);
    assert before + [] == before;
    if Judge(e, before).Residual? {
      assert booked[..0] == [];
    }
  }

  lemma {:induction false} SettledGroup(events: seq<Event>, calls: seq<Row>, d: Dispatch, n: nat)
    requires n <= |GroupOf(events, d)| && Separable(GroupOf(events, d))
    ensures var group, after := GroupOf(events, d)[..n], calls + Booked(events, calls);
            EventRows(group, ResidualRule(after)) == [] && EventGaps(group, after) == EventGaps(group, calls)
  {
    hide Select, Separable, GroupOf, Booked, Judge;
    if n > 0 {
      SettledGroup(events, calls, d, n - 1);
      BookingSettles(events, calls, d, n - 1);
      assert GroupOf(events, d)[..n][..n - 1] == GroupOf(events, d)[..n - 1];
    }
  }

  lemma {:induction false} SettledOrder(events: seq<Event>, calls: seq<Row>, order: seq<Dispatch>)
    ensures var after := calls + Booked(events, calls);
            RowsFor(order, events, ResidualRule(after)) == [] && AmbiguitiesFor(order, events, after) == AmbiguitiesFor(order, events, calls)
  {
    hide Select, Separable, GroupOf, Booked, EventRows, EventGaps;
    if order != [] {
      var d := order[|order| - 1];
      SettledOrder(events, calls, order[..|order| - 1]);
      if Separable(GroupOf(events, d)) {
        SettledGroup(events, calls, d, |GroupOf(events, d)|);
        assert GroupOf(events, d)[..|GroupOf(events, d)|] == GroupOf(events, d);
      }
    }
  }

  // Feeding the booked rows back in books nothing more, and reports the same ambiguities.
  lemma ReconciliationIsIdempotent(events: seq<Event>, calls: seq<Row>)
    ensures Booked(events, calls + Booked(events, calls)) == []
    ensures Ambiguous(events, calls + Booked(events, calls)) == Ambiguous(events, calls)
  {
    SettledOrder(events, calls, Order(events));
  }

  // Events that cannot be told apart have nothing booked for any of their attempts.
  lemma InseparableBooksNothing(events: seq<Event>, calls: seq<Row>, k: Key)
    requires !Separable(GroupOf(events, k.dispatch))
    ensures Select(Booked(events, calls), k) == []
  {
    hide Select, Separable, GroupOf;
    OrderIsDistinct(events);
    ResidualsAreKeyed(calls);
    SelectBooked(Order(events), events, ResidualRule(calls), k);
    EmptySelect(k);
  }

  // Two events of the stream that count detail rows never count the same ones.
  lemma NoRowCountsTwice(events: seq<Event>, i: nat, j: nat)
    requires i < j < |events| && events[i].finished && events[j].finished
    requires Separable(GroupOf(events, DispatchOf(events[i]))) && Separable(GroupOf(events, DispatchOf(events[j])))
    ensures EventKey(events[i]) != EventKey(events[j])
  {
    var d := DispatchOf(events[i]);
    if DispatchOf(events[j]) == d {
      BothInGroup(events, d, i, j);
    }
  }

  lemma {:induction false} InGroup(events: seq<Event>, d: Dispatch, i: nat)
    requires i < |events| && events[i].finished && DispatchOf(events[i]) == d
    ensures GroupOf(events, d) != [] && events[i] in GroupOf(events, d)
  {
    if i < |events| - 1 {
      InGroup(events[..|events| - 1], d, i);
    }
  }

  lemma {:induction false} BothInGroup(events: seq<Event>, d: Dispatch, i: nat, j: nat)
    requires i < j < |events| && events[i].finished && events[j].finished
    requires DispatchOf(events[i]) == DispatchOf(events[j]) == d
    ensures var g := GroupOf(events, d);
            |g| >= 2 && (|g| == 2 ==> g == [events[i], events[j]])
  {
    var init := events[..|events| - 1];
    if j < |events| - 1 {
      BothInGroup(init, d, i, j);
    } else {
      InGroup(init, d, i);
    }
  }

  /******* The rule, read off the events and the rows *******/

  // The same dispatch finished again.
  ghost predicate Rival(events: seq<Event>, i: nat, j: nat)
    requires i < |events| && j < |events|
  {
    j != i && events[j].finished && events[j].run == events[i].run && events[j].task == events[i].task
  }

  // No second event of the dispatch, or just one whose attempt is written down as another than this one's.
  ghost predicate ToldApart(events: seq<Event>, i: nat)
    requires i < |events|
  {
    && (forall j, l :: 0 <= j < |events| && 0 <= l < |events| && Rival(events, i, j) && Rival(events, i, l) ==> j == l)
    && forall j :: 0 <= j < |events| && Rival(events, i, j) ==>
         match (events[i].attempt, events[j].attempt)
         case (Explicit(m), Explicit(n)) => m != n
         case _ => false
  }

  // A row that itemizes the event: an attempt that is not written down is the first.
  predicate Itemizes(r: Row, e: Event) {
    && r.nested && r.run == e.run && r.parent == e.task
    && match (r.attempt, e.attempt)
       case (Explicit(m), Explicit(n)) => m == n
       case (Explicit(m), _) => m == 0
       case (_, Explicit(n)) => n == 0
       case _ => true
  }

  function Itemized(calls: seq<Row>, e: Event): real {
    if calls == [] then 0.0
    else Itemized(calls[1..], e) + if Itemizes(calls[0], e) then calls[0].cost else 0.0
  }

  function Items(calls: seq<Row>, e: Event): nat {
    if calls == [] then 0 else Items(calls[1..], e) + if Itemizes(calls[0], e) then 1 else 0
  }

  lemma {:induction false} SelectItemizes(calls: seq<Row>, e: Event)
    ensures Cost(Select(calls, EventKey(e))) == Itemized(calls, e) && |Select(calls, EventKey(e))| == Items(calls, e)
  {
    if calls != [] {
      SelectItemizes(calls[1..], e);
      assert calls == [calls[0]] + calls[1..];
      SelectAppend([calls[0]], calls[1..], EventKey(e));
      SelectOne(calls[0], EventKey(e));
      CostAppend(Select([calls[0]], EventKey(e)), Select(calls[1..], EventKey(e)));
    }
  }

  lemma SelectOne(r: Row, k: Key)
    ensures Select([r], k) == if r.nested && RowKey(r) == k then [r] else []
    ensures Cost([r]) == r.cost && Cost([]) == 0.0
  {
    assert [r][..0] == [];
  }

  lemma {:induction false} GroupSplit(events: seq<Event>, n: nat, d: Dispatch)
    requires n <= |events|
    ensures GroupOf(events, d) == GroupOf(events[..n], d) + GroupOf(events[n..], d)
  {
    if n == |events| {
      assert events[..n] == events && events[n..] == [];
    } else {
      var m := |events| - 1;
      GroupSplit(events[..m], n, d);
      assert events[..m][..n] == events[..n] && events[..m][n..] == events[n..m] && events[n..][..m - n] == events[n..m];
    }
  }

  lemma {:induction false} NoneInGroup(events: seq<Event>, d: Dispatch)
    requires forall e :: e in events && e.finished ==> DispatchOf(e) != d
    ensures GroupOf(events, d) == []
  {
    if events != [] {
      NoneInGroup(events[..|events| - 1], d);
    }
  }

  lemma AloneInGroup(events: seq<Event>, d: Dispatch, i: nat)
    requires i < |events| && events[i].finished && DispatchOf(events[i]) == d
    requires forall j :: 0 <= j < |events| && j != i && events[j].finished ==> DispatchOf(events[j]) != d
    ensures GroupOf(events, d) == [events[i]]
  {
    hide GroupOf;
    GroupSplit(events, i, d);
    NoneInGroup(events[..i], d);
    GroupSplit(events[i..], 1, d);
    assert events[i..][..1] == [events[i]] && events[i..][1..] == events[i + 1..];
    NoneInGroup(events[i + 1..], d);
    GroupOfOne(events[i], d);
  }

  lemma GroupOfOne(e: Event, d: Dispatch)
    ensures GroupOf([e], d) == if e.finished && DispatchOf(e) == d then [e] else []
  {
    assert [e][..0] == [];
  }

  lemma PairInGroup(events: seq<Event>, d: Dispatch, i: nat, j: nat)
    requires i < j < |events| && events[i].finished && events[j].finished && DispatchOf(events[i]) == DispatchOf(events[j]) == d
    requires forall l :: 0 <= l < |events| && l != i && l != j && events[l].finished ==> DispatchOf(events[l]) != d
    ensures GroupOf(events, d) == [events[i], events[j]]
  {
    hide GroupOf;
    GroupSplit(events, j, d);
    AloneInGroup(events[..j], d, i);
    AloneInGroup(events[j..], d, 0);
  }

  // An event that can be told apart is in a separable group.
  lemma ToldApartIsSeparable(events: seq<Event>, i: nat)
    requires i < |events| && events[i].finished && ToldApart(events, i)
    ensures var g := GroupOf(events, DispatchOf(events[i])); Separable(g) && events[i] in g
  {
    hide GroupOf;
    var d := DispatchOf(events[i]);
    if j :| 0 <= j < |events| && Rival(events, i, j) {
      assert forall l :: 0 <= l < |events| && l != i && l != j && events[l].finished && DispatchOf(events[l]) == d ==> Rival(events, i, l);
      PairInGroup(events, d, if i < j then i else j, if i < j then j else i);
    } else {
      assert forall l :: 0 <= l < |events| && l != i && events[l].finished && DispatchOf(events[l]) == d ==> Rival(events, i, l);
      AloneInGroup(events, d, i);
    }
  }

  // And an event that cannot is in a group that is not: nothing is booked for it.
  lemma NotToldApart(events: seq<Event>, i: nat)
    requires i < |events| && events[i].finished && !ToldApart(events, i)
    ensures !Separable(GroupOf(events, DispatchOf(events[i])))
  {
    hide GroupOf;
    var d := DispatchOf(events[i]);
    forall j: nat | j < |events| && Rival(events, i, j)
      ensures var g := GroupOf(events, d);
              |g| >= 2 && (|g| == 2 ==> g == if i < j then [events[i], events[j]] else [events[j], events[i]])
    {
      BothInGroup(events, d, if i < j then i else j, if i < j then j else i);
    }
    if j, l :| 0 <= j < |events| && 0 <= l < |events| && Rival(events, i, j) && Rival(events, i, l) && j != l {
      BothInGroup(events, d, if j < l then j else l, if j < l then l else j);
    }
  }

  // The entries that report a gap of one key.
  function Reports(entries: seq<Ambiguity>, k: Key): seq<Ambiguity> {
    if entries == [] then []
    else
      var before, last := Reports(entries[..|entries| - 1], k), entries[|entries| - 1];
      if last.Unexplained? && last.key == k then before + [last] else before
  }

  lemma {:induction false} ReportsAppend(a: seq<Ambiguity>, b: seq<Ambiguity>, k: Key)
    ensures Reports(a + b, k) == Reports(a, k) + Reports(b, k)
  {
    if b == [] {
      assert a + b == a && Reports(a, k) + [] == Reports(a, k);
    } else {
      var init, last := b[..|b| - 1], b[|b| - 1];
      assert (a + b)[..|a + b| - 1] == a + init && (a + b)[|a + b| - 1] == last;
      ReportsAppend(a, init, k);
      assert Reports(a, k) + Reports(init, k) + [last] == Reports(a, k) + (Reports(init, k) + [last]);
    }
  }

  function GapOf(e: Event, calls: seq<Row>): seq<Ambiguity> {
    EventGaps([e], calls)
  }

  lemma GapOfEvent(e: Event, calls: seq<Row>)
    ensures var details := Select(calls, EventKey(e));
            GapOf(e, calls) == if Judge(e, details).Gap?
              then [Unexplained(EventKey(e), AggregateOf(e), Cost(details), e.emitted.value, |details|)] else []
  {
    hide Select, Judge;
    var none: seq<Event> := [];
    assert [e][..0] == none && EventGaps(none, calls) == [];
  }

  lemma GapReports(e: Event, calls: seq<Row>, k: Key)
    ensures Reports(GapOf(e, calls), k) == if EventKey(e) == k then GapOf(e, calls) else []
  {
    hide Select, EventGaps;
    GapOfEvent(e, calls);
    assert forall x: Ambiguity :: [x][..0] == [];
  }

  lemma GapsOfLast(group: seq<Event>, calls: seq<Row>)
    requires group != []
    ensures EventGaps(group, calls) == EventGaps(group[..|group| - 1], calls) + GapOf(group[|group| - 1], calls)
  {
    hide Select, Judge;
    GapOfEvent(group[|group| - 1], calls);
    assert EventGaps(group[..|group| - 1], calls) + [] == EventGaps(group[..|group| - 1], calls);
  }

  lemma {:induction false} NoReportsOfOthers(group: seq<Event>, calls: seq<Row>, k: Key)
    requires forall e :: e in group ==> EventKey(e) != k
    ensures Reports(EventGaps(group, calls), k) == []
  {
    hide GapOf;
    if group != [] {
      var init, e := group[..|group| - 1], group[|group| - 1];
      NoReportsOfOthers(init, calls, k);
      GapsOfLast(group, calls);
      ReportsAppend(EventGaps(init, calls), GapOf(e, calls), k);
      GapReports(e, calls, k);
    }
  }

  lemma OwnReport(group: seq<Event>, calls: seq<Row>, i: nat)
    requires Separable(group) && i < |group|
    requires forall e, g :: e in group && g in group ==> DispatchOf(e) == DispatchOf(g)
    ensures Reports(EventGaps(group, calls), EventKey(group[i])) == GapOf(group[i], calls)
  {
    hide GapOf, Reports, EventGaps;
    var n, k := |group| - 1, EventKey(group[i]);
    GapsOfLast(group, calls);
    ReportsAppend(EventGaps(group[..n], calls), GapOf(group[n], calls), k);
    GapReports(group[n], calls, k);
    if n == 0 {
      NoReportsOfOthers(group[..n], calls, k);
    } else {
      assert group[0] in group && group[1] in group && group[..n] == [group[0]];
      GapReports(group[0], calls, k);
      OneGap(group[0], calls);
    }
  }

  lemma OneGap(e: Event, calls: seq<Row>)
    ensures EventGaps([e], calls) == GapOf(e, calls)
  {
  }

  lemma ReportsOfGroup(events: seq<Event>, calls: seq<Row>, d: Dispatch, k: Key)
    requires d != k.dispatch
    ensures Reports(GroupAmbiguities(d, GroupOf(events, d), calls), k) == []
  {
    GroupMembers(events, d);
    var group := GroupOf(events, d);
    if Separable(group) {
      NoReportsOfOthers(group, calls, k);
    }
  }

  lemma {:induction false} SelectReports(order: seq<Dispatch>, events: seq<Event>, calls: seq<Row>, k: Key)
    requires forall i, j :: 0 <= i < j < |order| ==> order[i] != order[j]
    ensures Reports(AmbiguitiesFor(order, events, calls), k) ==
            if k.dispatch in order then Reports(GroupAmbiguities(k.dispatch, GroupOf(events, k.dispatch), calls), k) else []
  {
    hide Reports, GroupAmbiguities, GroupOf;
    if order == [] {
      NoReports(k);
    } else {
      var init, d := order[..|order| - 1], order[|order| - 1];
      SelectReports(init, events, calls, k);
      ReportsAppend(AmbiguitiesFor(init, events, calls), GroupAmbiguities(d, GroupOf(events, d), calls), k);
      if d != k.dispatch {
        ReportsOfGroup(events, calls, d, k);
      }
    }
  }

  lemma NoReports(k: Key)
    ensures Reports([], k) == []
  {
  }

  lemma ReportForEvent(events: seq<Event>, calls: seq<Row>, d: Dispatch, i: nat)
    requires i < |GroupOf(events, d)| && Separable(GroupOf(events, d))
    ensures Reports(Ambiguous(events, calls), EventKey(GroupOf(events, d)[i])) == GapOf(GroupOf(events, d)[i], calls)
  {
    hide Reports, Separable, EventGaps, GapOf;
    var group := GroupOf(events, d);
    GroupMembers(events, d);
    OrderIsDistinct(events);
    SelectReports(Order(events), events, calls, EventKey(group[i]));
    OwnReport(group, calls, i);
  }

  // What the reconciliation says of a finished event that can be told apart: a gap over both tolerances is
  // booked, as one row of exactly the gap, when the event claims no rows or more than were kept; it is
  // reported, once, when the claimed rows are all there; and a gap within either tolerance is neither.
  lemma GapIsBookedOrReported(events: seq<Event>, calls: seq<Row>, i: nat)
    requires i < |events| && events[i].finished && ToldApart(events, i)
    ensures var e := events[i];
            var aggregate := match e.aggregate { case Missing => 0.0 case Unusable(read) => read case Dollars(amount) => amount };
            var detail, kept := Itemized(calls, e), Items(calls, e);
            var gap := aggregate - detail;
            var open := aggregate > 0.0 && gap > 0.005 && gap > 0.005 * aggregate;
            var met := e.emitted.Some? && e.emitted.value <= kept;
            var n := if e.attempt.Explicit? then e.attempt.n else 0;
            var k := Key(Dispatch(e.run, e.task), n);
            && Select(Booked(events, calls), k) == (if open && !met then [Row(e.run, e.task, Explicit(n), true, gap, true)] else [])
            && Reports(Ambiguous(events, calls), k) ==
               if open && met then [Unexplained(k, aggregate, detail, e.emitted.value, kept)] else []
  {
    hide Select, GroupOf, Separable, Reports, GapOf, Booked, Ambiguous, Itemized, Items, ToldApart;
    var e, d := events[i], DispatchOf(events[i]);
    ToldApartIsSeparable(events, i);
    var j :| 0 <= j < |GroupOf(events, d)| && GroupOf(events, d)[j] == e;
    ResidualsAreKeyed(calls);
    BookedAt(events, calls, d, j);
    ReportForEvent(events, calls, d, j);
    GapOfEvent(e, calls);
    SelectItemizes(calls, e);
  }

  // How often a dispatch finished, and the dollars its events report.
  function Finishes(events: seq<Event>, d: Dispatch): (nat, real) {
    if events == [] then (0, 0.0)
    else
      var (n, sum), e := Finishes(events[..|events| - 1], d), events[|events| - 1];
      if e.finished && e.run == d.run && e.task == d.task
      then (n + 1, sum + match e.aggregate { case Missing => 0.0 case Unusable(read) => read case Dollars(amount) => amount })
      else (n, sum)
  }

  lemma {:induction false} FinishesOfGroup(events: seq<Event>, d: Dispatch)
    ensures (|GroupOf(events, d)|, Amount(GroupOf(events, d))) == Finishes(events, d)
  {
    if events != [] {
      FinishesOfGroup(events[..|events| - 1], d);
    }
  }

  // A dispatch that finished more than once without two different written attempts is reported as one
  // ambiguity that names its events and the dollars at stake, and nothing is booked for any attempt.
  lemma CannotBeToldApart(events: seq<Event>, calls: seq<Row>, i: nat, k: Key)
    requires i < |events| && events[i].finished && !ToldApart(events, i)
    requires k.dispatch == Dispatch(events[i].run, events[i].task)
    ensures Select(Booked(events, calls), k) == []
    ensures Inseparable(k.dispatch, Finishes(events, k.dispatch).0, Finishes(events, k.dispatch).1) in Ambiguous(events, calls)
    ensures forall x :: x in Ambiguous(events, calls) && x.Unexplained? ==> x.key.dispatch != k.dispatch
  {
    hide Select, GroupOf, Separable, ToldApart, Order, AmbiguitiesFor, Finishes;
    var d := k.dispatch;
    NotToldApart(events, i);
    InGroup(events, d, i);
    GroupMembers(events, d);
    FinishesOfGroup(events, d);
    InseparableBooksNothing(events, calls, k);
    GroupIsReported(Order(events), events, calls, d);
    forall x | x in Ambiguous(events, calls) && x.Unexplained? ensures x.key.dispatch != d {
      var e := ReportedBy(Order(events), events, calls, x);
      assert DispatchOf(e) == x.key.dispatch;
    }
  }

  lemma {:induction false} GroupIsReported(order: seq<Dispatch>, events: seq<Event>, calls: seq<Row>, d: Dispatch)
    requires d in order && !Separable(GroupOf(events, d))
    ensures Inseparable(d, |GroupOf(events, d)|, Amount(GroupOf(events, d))) in AmbiguitiesFor(order, events, calls)
  {
    hide GroupOf, Separable;
    if order[|order| - 1] != d {
      GroupIsReported(order[..|order| - 1], events, calls, d);
    }
  }

  lemma {:induction false} ReportedBy(order: seq<Dispatch>, events: seq<Event>, calls: seq<Row>, x: Ambiguity) returns (e: Event)
    requires x in AmbiguitiesFor(order, events, calls) && x.Unexplained?
    ensures Separable(GroupOf(events, DispatchOf(e))) && EventKey(e) == x.key
  {
    hide GroupOf, Separable;
    var init, d := order[..|order| - 1], order[|order| - 1];
    if x in AmbiguitiesFor(init, events, calls) {
      e := ReportedBy(init, events, calls, x);
    } else {
      GroupMembers(events, d);
      e := ReportedIn(GroupOf(events, d), calls, x);
    }
  }

  lemma {:induction false} ReportedIn(group: seq<Event>, calls: seq<Row>, x: Ambiguity) returns (e: Event)
    requires x in EventGaps(group, calls)
    ensures e in group && x.Unexplained? && EventKey(e) == x.key
  {
    hide Select;
    e := group[|group| - 1];
    if x in EventGaps(group[..|group| - 1], calls) {
      e := ReportedIn(group[..|group| - 1], calls, x);
    }
  }

  lemma BookedAt(events: seq<Event>, calls: seq<Row>, d: Dispatch, i: nat)
    requires i < |GroupOf(events, d)| && Separable(GroupOf(events, d))
    ensures Select(Booked(events, calls), EventKey(GroupOf(events, d)[i])) == BookedFor(GroupOf(events, d)[i], calls)
  {
    hide Select, GroupOf, Separable, Judge;
    ResidualsAreKeyed(calls);
    BookedForEvent(events, ResidualRule(calls), d, i);
  }

  // Nothing else is booked: each booked row is a detail row of a finished event that can be told apart, so
  // a dispatch that finished twice without two different written attempts has nothing booked at all.
  lemma OnlyGapsAreBooked(events: seq<Event>, calls: seq<Row>, r: Row)
    requires r in Booked(events, calls)
    ensures exists i :: 0 <= i < |events| && events[i].finished && ToldApart(events, i) && Itemizes(r, events[i])
  {
    hide Select, GroupOf, Separable, ToldApart;
    ResidualsAreKeyed(calls);
    var e := BookedBy(Order(events), events, ResidualRule(calls), r);
    GroupMembers(events, DispatchOf(e));
    var i :| 0 <= i < |events| && events[i] == e;
    if !ToldApart(events, i) {
      NotToldApart(events, i);
    }
  }

  lemma {:induction false} BookedBy(order: seq<Dispatch>, events: seq<Event>, f: Rule, r: Row) returns (e: Event)
    requires r in RowsFor(order, events, f)
    ensures Separable(GroupOf(events, DispatchOf(e))) && e in GroupOf(events, DispatchOf(e)) && r in f(e)
  {
    hide GroupOf, Separable;
    var init, d := order[..|order| - 1], order[|order| - 1];
    if r in RowsFor(init, events, f) {
      e := BookedBy(init, events, f, r);
    } else {
      GroupMembers(events, d);
      e := BookedIn(GroupOf(events, d), f, r);
    }
  }

  lemma {:induction false} BookedIn(group: seq<Event>, f: Rule, r: Row) returns (e: Event)
    requires r in EventRows(group, f)
    ensures e in group && r in f(e)
  {
    e := group[|group| - 1];
    if r !in f(e) {
      e := BookedIn(group[..|group| - 1], f, r);
    }
  }

  /******* The backfill planner *******/

  // A nested call replayed from a run log, with its cost if the log reports one.
  datatype Entry = Entry(cost: Option<real>)

  // What the logs hold for each attempt; an attempt without a readable log is absent.
  type Logs = map<Key, seq<Entry>>

  // What becomes of an event's attempt: its rows are recovered because they agree with the aggregate, or
  // because there is none to check them against; or nothing is booked.
  datatype Unit = Covered | NoEvidence | Disagrees | Reconciled | Unverifiable

  function ReportedCost(entries: seq<Entry>): real {
    if entries == [] then 0.0
    else
      var last := entries[|entries| - 1];
      ReportedCost(entries[..|entries| - 1]) + (if last.cost.Some? then last.cost.value else 0.0)
  }

  function Abs(x: real): real {
    if x < 0.0 then -x else x
  }

  function UnitOf(e: Event, covered: set<Dispatch>, logs: Logs): Unit {
    var k := EventKey(e);
    if DispatchOf(e) in covered then Covered
    else if k !in logs || logs[k] == [] then NoEvidence
    else
      match e.aggregate
      case Unusable(_) => Disagrees
      case Missing => Unverifiable
      case Dollars(amount) => if Abs(ReportedCost(logs[k]) - amount) <= Epsilon(amount) then Reconciled else Disagrees
  }

  // `build_detail_rows`: a call whose cost the log does not report gets a row without one.
  function DetailRows(k: Key, entries: seq<Entry>): seq<Row> {
    if entries == [] then []
    else
      var last := entries[|entries| - 1];
      DetailRows(k, entries[..|entries| - 1]) +
      [Row(k.dispatch.run, k.dispatch.task, Explicit(k.attempt), true, if last.cost.Some? then last.cost.value else 0.0, false)]
  }

  // The planner only looks at events that name their run and task.
  predicate Named(d: Dispatch) {
    d.run.Some? && d.task.Some?
  }

  function PlannedFor(e: Event, covered: set<Dispatch>, logs: Logs): seq<Row> {
    var unit := UnitOf(e, covered, logs);
    if Named(DispatchOf(e)) && (unit == Reconciled || unit == Unverifiable) then DetailRows(EventKey(e), logs[EventKey(e)]) else []
  }

  function PlanRule(covered: set<Dispatch>, logs: Logs): Rule {
    e => PlannedFor(e, covered, logs)
  }

  // Dispatches that the metrics already itemize, by a nested row or by a record id that names them.
  function Coverage(calls: seq<Row>, byRecordId: set<Dispatch>): set<Dispatch> {
    byRecordId + set r | r in calls && r.nested :: RowKey(r).dispatch
  }

  function Planned(events: seq<Event>, covered: set<Dispatch>, logs: Logs): seq<Row> {
    RowsFor(Order(events), events, PlanRule(covered, logs))
  }

  // `plan_backfill`: the rows to add, and the attempts they were reconciled for.
  method PlanBackfill(events: seq<Event>, calls: seq<Row>, byRecordId: set<Dispatch>, logs: Logs)
    returns (rows: seq<Row>, reconciled: seq<Key>)
    ensures rows == Planned(events, Coverage(calls, byRecordId), logs)
    ensures forall k :: k in reconciled ==> exists e :: e in events && IsReconciled(events, e, Coverage(calls, byRecordId), logs) && EventKey(e) == k
    ensures forall e :: IsReconciled(events, e, Coverage(calls, byRecordId), logs) ==> EventKey(e) in reconciled
  {
    hide Select, GroupOf, Order, Separable, UnitOf;
    var covered := Coverage(calls, byRecordId);
    var order, groups := DispatchGroups(events);
    rows, reconciled := [], [];
    var i := 0;
    while i < |order|
      invariant 0 <= i <= |order|
      invariant rows == RowsFor(order[..i], events, PlanRule(covered, logs))
      invariant forall e :: IsReconciled(events, e, covered, logs) && DispatchOf(e) in order[..i] ==> EventKey(e) in reconciled
      invariant forall k :: k in reconciled ==> exists e :: e in events && IsReconciled(events, e, covered, logs) && EventKey(e) == k
    {
      var group := Get(groups, order[i]);
      assert order[..i + 1][..i] == order[..i];
      GroupMembers(events, order[i]);
      if Separable(group) {
        var more, keys := PlanGroup(events, group, covered, logs);
        rows, reconciled := rows + more, reconciled + keys;
      }
      assert order[..i + 1] == order[..i] + [order[i]];
      i := i + 1;
    }
    assert order[..i] == order;
    forall e | IsReconciled(events, e, covered, logs) ensures EventKey(e) in reconciled {
      GroupMembers(events, DispatchOf(e));
    }
  }

  // A finished event the planner booked as agreeing with its aggregate.
  ghost predicate IsReconciled(events: seq<Event>, e: Event, covered: set<Dispatch>, logs: Logs) {
    && e in GroupOf(events, DispatchOf(e)) && Separable(GroupOf(events, DispatchOf(e)))
    && Named(DispatchOf(e)) && UnitOf(e, covered, logs) == Reconciled
  }

  method PlanGroup(ghost events: seq<Event>, group: seq<Event>, covered: set<Dispatch>, logs: Logs)
    returns (rows: seq<Row>, reconciled: seq<Key>)
    requires Separable(group) && forall e :: e in group ==> e in events && group == GroupOf(events, DispatchOf(e))
    ensures rows == EventRows(group, PlanRule(covered, logs))
    ensures forall e :: e in group && IsReconciled(events, e, covered, logs) ==> EventKey(e) in reconciled
    ensures forall k :: k in reconciled ==> exists e :: e in events && IsReconciled(events, e, covered, logs) && EventKey(e) == k
  {
    hide GroupOf, Separable, UnitOf, DetailRows;
    rows, reconciled := [], [];
    var i := 0;
    while i < |group|
      invariant 0 <= i <= |group| && rows == EventRows(group[..i], PlanRule(covered, logs))
      invariant forall e :: e in group[..i] && IsReconciled(events, e, covered, logs) ==> EventKey(e) in reconciled
      invariant forall k :: k in reconciled ==> exists e :: e in events && IsReconciled(events, e, covered, logs) && EventKey(e) == k
    {
      var e := group[i];
      var unit := UnitOf(e, covered, logs);
      assert group[..i + 1][..i] == group[..i] && e in group;
      rows := rows + PlannedFor(e, covered, logs);
      if Named(DispatchOf(e)) && unit == Reconciled {
        assert IsReconciled(events, e, covered, logs);
        reconciled := reconciled + [EventKey(e)];
      }
      i := i + 1;
    }
    assert group[..i] == group;
  }

  lemma {:induction false} DetailRowsFit(k: Key, entries: seq<Entry>)
    ensures Cost(DetailRows(k, entries)) == ReportedCost(entries) && |DetailRows(k, entries)| == |entries|
    ensures forall r :: r in DetailRows(k, entries) ==> r.nested && RowKey(r) == k
  {
    if entries != [] {
      DetailRowsFit(k, entries[..|entries| - 1]);
    }
  }

  lemma PlanIsKeyed(covered: set<Dispatch>, logs: Logs)
    ensures Keyed(PlanRule(covered, logs))
  {
    forall e: Event, r: Row | r in PlanRule(covered, logs)(e) ensures r.nested && RowKey(r) == EventKey(e) {
      DetailRowsFit(EventKey(e), logs[EventKey(e)]);
    }
  }

  lemma {:induction false} UncoveredHasNoDetail(calls: seq<Row>, k: Key)
    requires forall r :: r in calls && r.nested ==> RowKey(r).dispatch != k.dispatch
    ensures Select(calls, k) == []
  {
    if calls != [] {
      UncoveredHasNoDetail(calls[..|calls| - 1], k);
    }
  }

  lemma CoveredDispatches(calls: seq<Row>, byRecordId: set<Dispatch>)
    ensures forall r :: r in calls && r.nested ==> RowKey(r).dispatch in Coverage(calls, byRecordId)
  {
  }

  // Rows recovered from the logs leave nothing to reconcile for the attempts they were booked for: no
  // residual and no ambiguity, whether they agreed with an aggregate or there was none.
  lemma BackfillLeavesNothing(events: seq<Event>, calls: seq<Row>, byRecordId: set<Dispatch>, logs: Logs, d: Dispatch, i: nat)
    requires i < |GroupOf(events, d)| && Separable(GroupOf(events, d)) && Named(d)
    requires var unit := UnitOf(GroupOf(events, d)[i], Coverage(calls, byRecordId), logs); unit == Reconciled || unit == Unverifiable
    ensures var e, after := GroupOf(events, d)[i], calls + Planned(events, Coverage(calls, byRecordId), logs);
            Judge(e, Select(after, EventKey(e))) == Nothing
  {
    hide Select, Separable, GroupOf, RowsFor, Order, Judge, UnitOf, DetailRows, ReportedCost;
    var covered := Coverage(calls, byRecordId);
    var e := GroupOf(events, d)[i];
    var k := EventKey(e);
    GroupMembers(events, d);
    assert DispatchOf(e) == d by {
      assert e in GroupOf(events, d);
    }
    PlanIsKeyed(covered, logs);
    BookedForEvent(events, PlanRule(covered, logs), d, i);
    SelectAppend(calls, Planned(events, covered, logs), k);
    PlannedHasEvidence(e, covered, logs);
    CoveredDispatches(calls, byRecordId);
    UncoveredHasNoDetail(calls, k);
    assert [] + DetailRows(k, logs[k]) == DetailRows(k, logs[k]);
    DetailRowsFit(k, logs[k]);
    ReconciledIsNothing(e, covered, logs, DetailRows(k, logs[k]));
  }

  lemma PlannedHasEvidence(e: Event, covered: set<Dispatch>, logs: Logs)
    requires UnitOf(e, covered, logs) == Reconciled || UnitOf(e, covered, logs) == Unverifiable
    ensures DispatchOf(e) !in covered && EventKey(e) in logs
  {
  }

  lemma ReconciledIsNothing(e: Event, covered: set<Dispatch>, logs: Logs, details: seq<Row>)
    requires UnitOf(e, covered, logs) == Reconciled || UnitOf(e, covered, logs) == Unverifiable
    requires EventKey(e) in logs && Cost(details) == ReportedCost(logs[EventKey(e)])
    ensures Judge(e, details) == Nothing
  {
  }

  // What the planner books for a finished event that can be told apart and names its run and task: one row
  // a log entry, if no nested row and no record id names the dispatch yet, the log has entries, and the
  // event reports no aggregate or one within either tolerance of what the log adds up to; else nothing. It
  // is reconciled when there was an aggregate to agree with.
  lemma PlanBooksIff(events: seq<Event>, calls: seq<Row>, byRecordId: set<Dispatch>, logs: Logs, i: nat)
    requires i < |events| && events[i].finished && ToldApart(events, i) && events[i].run.Some? && events[i].task.Some?
    ensures var e := events[i];
            var k := Key(Dispatch(e.run, e.task), if e.attempt.Explicit? then e.attempt.n else 0);
            var itemized := k.dispatch in byRecordId || exists r :: r in calls && r.nested && r.run == e.run && r.parent == e.task;
            var booked := Select(Planned(events, Coverage(calls, byRecordId), logs), k);
            var recovered := !itemized && k in logs && logs[k] != [] && Agrees(e.aggregate, ReportedCost(logs[k]));
            && (if recovered then |booked| == |logs[k]| && Cost(booked) == ReportedCost(logs[k]) else booked == [])
            && (IsReconciled(events, e, Coverage(calls, byRecordId), logs) <==> recovered && e.aggregate.Dollars?)
  {
    hide Select, GroupOf, Separable, Planned, ToldApart, UnitOf, DetailRows, ReportedCost, Cost, Agrees, Coverage;
    var e, d, covered := events[i], DispatchOf(events[i]), Coverage(calls, byRecordId);
    ToldApartIsSeparable(events, i);
    var j :| 0 <= j < |GroupOf(events, d)| && GroupOf(events, d)[j] == e;
    PlanIsKeyed(covered, logs);
    PlannedAt(events, covered, logs, d, j);
    CoveredIff(calls, byRecordId, d);
    UnitBooksIff(e, covered, logs);
    if EventKey(e) in logs {
      DetailRowsFit(EventKey(e), logs[EventKey(e)]);
    }
  }

  // The log is not contradicted by what the event reports.
  predicate Agrees(aggregate: Aggregate, logged: real) {
    match aggregate
    case Missing => true
    case Unusable(_) => false
    case Dollars(amount) => -0.005 <= logged - amount <= 0.005 || -0.005 * amount <= logged - amount <= 0.005 * amount
  }

  lemma CoveredIff(calls: seq<Row>, byRecordId: set<Dispatch>, d: Dispatch)
    ensures d in Coverage(calls, byRecordId) <==> d in byRecordId || exists r :: r in calls && r.nested && r.run == d.run && r.parent == d.task
  {
    if r :| r in calls && r.nested && r.run == d.run && r.parent == d.task {
      assert RowKey(r).dispatch == d;
    }
  }

  lemma UnitBooksIff(e: Event, covered: set<Dispatch>, logs: Logs)
    ensures var k, unit := EventKey(e), UnitOf(e, covered, logs);
            (unit == Reconciled || unit == Unverifiable) <==>
              DispatchOf(e) !in covered && k in logs && logs[k] != [] && Agrees(e.aggregate, ReportedCost(logs[k]))
    ensures UnitOf(e, covered, logs) == Reconciled ==> e.aggregate.Dollars?
    ensures UnitOf(e, covered, logs) == Unverifiable ==> e.aggregate == Missing
  {
    hide ReportedCost;
  }

  lemma PlannedAt(events: seq<Event>, covered: set<Dispatch>, logs: Logs, d: Dispatch, i: nat)
    requires i < |GroupOf(events, d)| && Separable(GroupOf(events, d))
    ensures Select(Planned(events, covered, logs), EventKey(GroupOf(events, d)[i])) == PlannedFor(GroupOf(events, d)[i], covered, logs)
  {
    hide Select, GroupOf, Separable, UnitOf, DetailRows;
    PlanIsKeyed(covered, logs);
    BookedForEvent(events, PlanRule(covered, logs), d, i);
  }

  // Adding the plan's rows makes the next plan skip every dispatch it booked: nothing is booked twice.
  lemma BackfillIsIdempotent(events: seq<Event>, calls: seq<Row>, byRecordId: set<Dispatch>, logs: Logs, e: Event)
    requires var covered := Coverage(calls, byRecordId);
             exists r :: r in Planned(events, covered, logs) && RowKey(r).dispatch == DispatchOf(e)
    ensures var after := calls + Planned(events, Coverage(calls, byRecordId), logs);
            PlannedFor(e, Coverage(after, byRecordId), logs) == []
  {
    hide UnitOf, Order, DetailRows;
    var covered := Coverage(calls, byRecordId);
    var r :| r in Planned(events, covered, logs) && RowKey(r).dispatch == DispatchOf(e);
    PlanIsKeyed(covered, logs);
    BookedAreNested(Order(events), events, PlanRule(covered, logs));
    assert r in calls + Planned(events, covered, logs);
    CoveredUnit(e, Coverage(calls + Planned(events, covered, logs), byRecordId), logs);
  }

  lemma CoveredUnit(e: Event, covered: set<Dispatch>, logs: Logs)
    requires DispatchOf(e) in covered
    ensures PlannedFor(e, covered, logs) == []
  {
  }

  lemma {:induction false} BookedAreNested(order: seq<Dispatch>, events: seq<Event>, f: Rule)
    requires Keyed(f)
    ensures forall r :: r in RowsFor(order, events, f) ==> r.nested
  {
    if order != [] {
      BookedAreNested(order[..|order| - 1], events, f);
      GroupIsNested(GroupOf(events, order[|order| - 1]), f);
    }
  }

  lemma {:induction false} GroupIsNested(group: seq<Event>, f: Rule)
    requires Keyed(f)
    ensures forall r :: r in EventRows(group, f) ==> r.nested
  {
    if group != [] {
      GroupIsNested(group[..|group| - 1], f);
    }
  }
}
