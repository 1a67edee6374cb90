/**
 Matching totals-only history against a log: the shortest prefix of the calls not identified yet whose
 usage is exactly what the unidentified totals grew by.
 */
module ReconcilePrefix {
  import opened Wrappers
  import opened Json
  import opened Usage

  datatype Group = Group(session: Text, model: Text)

  // A call of the log that no row identifies yet; `totals.calls` is 1.
  datatype Call = Call(group: Group, totals: Totals)

  // A difference of totals, which may be negative in any field.
  datatype Change = Change(input: int, cached: int, cacheWrite: int, output: int, reasoning: int, total: int, calls: int)

  function Minus(a: Totals, b: Totals): Change {
    Change(a.input - b.input, a.cached - b.cached, a.cacheWrite - b.cacheWrite, a.output - b.output,
           a.reasoning - b.reasoning, a.total - b.total, a.calls - b.calls)
  }

  function Clamp(n: int): nat {
    if n > 0 then n else 0
  }

  // Totals are compared as `_int` reads them: what is not positive counts as nothing.
  function Increase(c: Change): Totals {
    Totals(Clamp(c.input), Clamp(c.cached), Clamp(c.cacheWrite), Clamp(c.output), Clamp(c.reasoning), Clamp(c.total), Clamp(c.calls))
  }

  // Unidentified totals by group; a group that is absent has none.
  type Ledger = map<Group, Totals>

  function TotalsOf(m: Ledger, g: Group): Totals {
    if g in m then m[g] else ZERO
  }

  // What the calls of one group add up to.
  function Spent(calls: seq<Call>, sessions: set<Text>, g: Group): Totals {
    if calls == [] then ZERO
    else
      var rest, c := Spent(calls[..|calls| - 1], sessions, g), calls[|calls| - 1];
      if c.group == g && g.session in sessions then Plus(rest, c.totals) else rest
  }

  // The first `n` calls spent exactly what every group of these sessions grew by.
  ghost predicate Covers(calls: seq<Call>, sessions: set<Text>, before: Ledger, after: Ledger, n: nat)
    requires n <= |calls|
  {
    forall g: Group :: g.session in sessions ==>
      Spent(calls[..n], sessions, g) == Increase(Minus(TotalsOf(after, g), TotalsOf(before, g)))
  }

  // The groups whose totals the source compares: those of either ledger, and those met so far.
  method Reconcile(calls: seq<Call>, sessions: set<Text>, before: Ledger, after: Ledger) returns (found: Option<nat>)
    ensures found.Some? ==> found.value <= |calls| && Covers(calls, sessions, before, after, found.value)
    ensures found.Some? ==> forall n :: 0 <= n < found.value ==> !Covers(calls, sessions, before, after, n)
    ensures found.None? ==> forall n :: 0 <= n <= |calls| ==> !Covers(calls, sessions, before, after, n)
  {
    hide Increase, Minus, Plus, Spent, Covers, Matches;
    NothingSpent(calls, sessions);
    var recorded := map g | g in before.Keys + after.Keys && g.session in sessions :: Minus(TotalsOf(after, g), TotalsOf(before, g));
    var running: Ledger := map[];
    MatchesIffCovers(calls, sessions, before, after, recorded, running, 0);
    if Matches(recorded, running) {
      return Some(0);
    }
    var i := 0;
    while i < |calls|
      invariant 0 <= i <= |calls|
      invariant forall g: Group :: TotalsOf(running, g) == Spent(calls[..i], sessions, g)
      invariant forall g :: g in running ==> g.session in sessions
      invariant forall n :: 0 <= n <= i ==> !Covers(calls, sessions, before, after, n)
    {
      var c := calls[i];
      OneMoreSpent(calls, sessions, i);
      if c.group.session in sessions {
        ghost var was := running;
        running := running[c.group := Plus(TotalsOf(running, c.group), c.totals)];
        forall g: Group ensures TotalsOf(running, g) == Spent(calls[..i + 1], sessions, g) {
          assert TotalsOf(was, g) == Spent(calls[..i], sessions, g);
        }
        MatchesIffCovers(calls, sessions, before, after, recorded, running, i + 1);
        if Matches(recorded, running) {
          return Some(i + 1);
        }
      } else {
        SameCovers(calls, sessions, before, after, i);
      }
      i := i + 1;
    }
    found := None;
  }

  lemma NothingSpent(calls: seq<Call>, sessions: set<Text>)
    ensures forall g: Group :: Spent(calls[..0], sessions, g) == ZERO
  {
    assert calls[..0] == [];
  }

  lemma OneMoreSpent(calls: seq<Call>, sessions: set<Text>, i: nat)
    requires i < |calls|
    ensures forall g: Group :: Spent(calls[..i + 1], sessions, g) ==
              if calls[i].group == g && g.session in sessions then Plus(Spent(calls[..i], sessions, g), calls[i].totals)
              else Spent(calls[..i], sessions, g)
  {
    assert calls[..i + 1][..i] == calls[..i];
  }

  lemma SameCovers(calls: seq<Call>, sessions: set<Text>, before: Ledger, after: Ledger, i: nat)
    requires i < |calls| && forall g: Group :: Spent(calls[..i + 1], sessions, g) == Spent(calls[..i], sessions, g)
    ensures Covers(calls, sessions, before, after, i + 1) <==> Covers(calls, sessions, before, after, i)
  {
    hide Spent, Increase, Minus;
  }

  predicate Matches(recorded: map<Group, Change>, running: Ledger) {
    forall g :: g in recorded.Keys + running.Keys ==>
      (if g in recorded then Increase(recorded[g]) else ZERO) == TotalsOf(running, g)
  }

  lemma MatchesIffCovers(calls: seq<Call>, sessions: set<Text>, before: Ledger, after: Ledger,
                         recorded: map<Group, Change>, running: Ledger, n: nat)
    requires n <= |calls|
    requires recorded == map g | g in before.Keys + after.Keys && g.session in sessions :: Minus(TotalsOf(after, g), TotalsOf(before, g))
    requires forall g :: TotalsOf(running, g) == Spent(calls[..n], sessions, g)
    requires forall g :: g in running ==> g.session in sessions
    ensures Matches(recorded, running) <==> Covers(calls, sessions, before, after, n)
  {
    assert Increase(Minus(ZERO, ZERO)) == ZERO;
    hide Increase, Minus, Spent;
    if Matches(recorded, running) {
      forall g: Group | g.session in sessions
        ensures Spent(calls[..n], sessions, g) == Increase(Minus(TotalsOf(after, g), TotalsOf(before, g)))
      {
        if g in recorded.Keys + running.Keys {
          assert TotalsOf(running, g) == Spent(calls[..n], sessions, g);
        }
      }
    }
    if Covers(calls, sessions, before, after, n) {
      forall g | g in recorded.Keys + running.Keys
        ensures (if g in recorded then Increase(recorded[g]) else ZERO) == TotalsOf(running, g)
      {
        assert Spent(calls[..n], sessions, g) == Increase(Minus(TotalsOf(after, g), TotalsOf(before, g)));
      }
    }
  }

  // The prefix found makes up the difference for a group if and only if none of its totals shrank: a
  // total that shrank is compared as if it had stayed.
  lemma CoversIsExact(calls: seq<Call>, sessions: set<Text>, before: Ledger, after: Ledger, n: nat, g: Group)
    requires n <= |calls| && Covers(calls, sessions, before, after, n) && g.session in sessions
    ensures Plus(TotalsOf(before, g), Spent(calls[..n], sessions, g)) == TotalsOf(after, g)
            <==> AtMost(TotalsOf(before, g), TotalsOf(after, g))
  {
    IncreaseRestores(TotalsOf(before, g), TotalsOf(after, g));
    hide Spent, Plus, Increase, Minus, AtMost;
  }

  lemma IncreaseRestores(b: Totals, a: Totals)
    ensures Plus(b, Increase(Minus(a, b))) == a <==> AtMost(b, a)
  {
  }

  // Such a total: all of a group's history is gone and the log has no call left, and the empty prefix matches.
  lemma ShrunkTotalMatches(g: Group, t: Totals)
    requires t != ZERO
    ensures Covers([], {g.session}, map[g := t], map[], 0)
    ensures Plus(TotalsOf(map[g := t], g), Spent([][..0], {g.session}, g)) != TotalsOf(map[], g)
  {
    var none: seq<Call> := [];
    assert none[..0] == none;
    assert Increase(Minus(ZERO, t)) == ZERO && Increase(Minus(ZERO, ZERO)) == ZERO;
  }
}
