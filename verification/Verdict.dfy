/**
 The deciding verdict of a task. Attested rows are sorted by instant, ties and undated rows failing, and
 the last row of each task decides; so what decides depends on the rows alone, not on their order.
 */
module Verdict {
  import opened Wrappers

  // Instants count from the earliest one a timestamp can name; an undated row is placed there.
  const EARLIEST := 0

  datatype Row = Row(task: string, instant: Option<int>, passed: bool)

  function InstantOf(r: Row): int {
    if r.instant.Some? then r.instant.value else EARLIEST
  }

  // `_attempt_order`: by instant, and at the same instant a pass before a failure.
  predicate Before(a: Row, b: Row) {
    InstantOf(a) < InstantOf(b) || (InstantOf(a) == InstantOf(b) && (a.passed || !b.passed))
  }

  predicate Sorted(rows: seq<Row>) {
    forall i, j :: 0 <= i < j < |rows| ==> Before(rows[i], rows[j])
  }

  // A stable sort, a row at a time.
  function Insert(sorted: seq<Row>, r: Row): seq<Row> {
    if sorted != [] && !Before(sorted[|sorted| - 1], r)
    then Insert(sorted[..|sorted| - 1], r) + [sorted[|sorted| - 1]]
    else sorted + [r]
  }

  function Sort(rows: seq<Row>): seq<Row> {
    if rows == [] then [] else Insert(Sort(rows[..|rows| - 1]), rows[|rows| - 1])
  }

  lemma {:induction false} InsertSorts(sorted: seq<Row>, r: Row)
    requires Sorted(sorted)
    ensures Sorted(Insert(sorted, r)) && multiset(Insert(sorted, r)) == multiset(sorted) + multiset{r}
  {
    if sorted != [] && !Before(sorted[|sorted| - 1], r) {
      var n := |sorted| - 1;
      assert sorted == sorted[..n] + [sorted[n]];
      InsertSorts(sorted[..n], r);
      forall x | x in Insert(sorted[..n], r) ensures Before(x, sorted[n]) {
        assert x in multiset(Insert(sorted[..n], r));
        assert x in sorted[..n] || x == r;
      }
      SortedAppend(Insert(sorted[..n], r), sorted[n]);
    } else if sorted != [] {
      forall x | x in sorted ensures Before(x, r) {
        var k :| 0 <= k < |sorted| && sorted[k] == x;
        assert k < |sorted| - 1 ==> Before(sorted[k], sorted[|sorted| - 1]);
      }
      SortedAppend(sorted, r);
    }
  }

  lemma SortedAppend(sorted: seq<Row>, r: Row)
    requires Sorted(sorted) && forall x :: x in sorted ==> Before(x, r)
    ensures Sorted(sorted + [r])
  {
  }

  // The sort is a permutation of the rows, in order.
  lemma {:induction false} SortSorts(rows: seq<Row>)
    ensures Sorted(Sort(rows)) && multiset(Sort(rows)) == multiset(rows)
  {
    if rows != [] {
      var n := |rows| - 1;
      assert rows == rows[..n] + [rows[n]];
      SortSorts(rows[..n]);
      InsertSorts(Sort(rows[..n]), rows[n]);
    }
  }

  ghost predicate Attested(rows: multiset<Row>, task: string) {
    exists r :: r in rows && r.task == task
  }

  // The rows that decide: every row of the task at the task's latest instant.
  ghost predicate Deciding(rows: multiset<Row>, task: string, r: Row) {
    r in rows && r.task == task && forall x :: x in rows && x.task == task ==> InstantOf(x) <= InstantOf(r)
  }

  // A task is verified iff it has attested rows and all of those at its latest instant are passes.
  ghost predicate Verified(rows: multiset<Row>, task: string) {
    && Attested(rows, task)
    && forall r :: Deciding(rows, task, r) ==> r.passed
  }

  // The dict comprehension over the timeline: each task keeps its last row.
  method LatestRows(timeline: seq<Row>) returns (latest: map<string, Row>, ghost at: map<string, nat>)
    ensures forall k :: 0 <= k < |timeline| ==> timeline[k].task in latest
    ensures at.Keys == latest.Keys
    ensures forall t :: t in latest ==> at[t] < |timeline| && timeline[at[t]] == latest[t] && IsLast(timeline, |timeline|, t, at[t])
  {
    latest, at := map[], map[];
    var i := 0;
    while i < |timeline|
      invariant 0 <= i <= |timeline| && at.Keys == latest.Keys
      invariant forall k :: 0 <= k < i ==> timeline[k].task in latest
      invariant forall t :: t in latest ==> at[t] < i && timeline[at[t]] == latest[t] && IsLast(timeline, i, t, at[t])
    {
      latest, at := latest[timeline[i].task := timeline[i]], at[timeline[i].task := i];
      i := i + 1;
    }
  }

  // `summarize_runs`: the last row of each task in the sorted timeline decides it.
  method VerifiedTasks(rows: seq<Row>) returns (latest: map<string, Row>, verified: set<string>)
    ensures forall t :: t in latest ==> Deciding(multiset(rows), t, latest[t])
    ensures forall t :: t in latest <==> Attested(multiset(rows), t)
    ensures forall t :: t in verified <==> Verified(multiset(rows), t)
  {
    hide Before, Sort, Sorted, Verified, Deciding, IsLast, Attested;
    SortSorts(rows);
    ghost var at;
    latest, at := LatestRows(Sort(rows));
    verified := set t | t in latest && latest[t].passed;
    forall t
      ensures t in latest <==> Attested(multiset(rows), t)
      ensures t in latest ==> Deciding(multiset(rows), t, latest[t])
      ensures t in verified <==> Verified(multiset(rows), t)
    {
      TaskIsDecided(Sort(rows), t, latest, at);
    }
  }

  lemma TaskIsDecided(timeline: seq<Row>, t: string, latest: map<string, Row>, at: map<string, nat>)
    requires Sorted(timeline) && at.Keys == latest.Keys
    requires forall k :: 0 <= k < |timeline| ==> timeline[k].task in latest
    requires t in latest ==> at[t] < |timeline| && timeline[at[t]] == latest[t] && IsLast(timeline, |timeline|, t, at[t])
    ensures t in latest <==> Attested(multiset(timeline), t)
    ensures t in latest ==> Deciding(multiset(timeline), t, latest[t])
    ensures (t in latest && latest[t].passed) <==> Verified(multiset(timeline), t)
  {
    if t in latest {
      hide Sorted;
      LastDecides(timeline, t, at[t]);
      assert latest[t] in multiset(timeline) && latest[t].task == t;
    } else {
      forall r | r in multiset(timeline) ensures r.task != t {
        var k :| 0 <= k < |timeline| && timeline[k] == r;
      }
    }
  }

  predicate IsLast(rows: seq<Row>, n: nat, task: string, j: nat)
    requires n <= |rows|
  {
    j < n && rows[j].task == task && forall k :: j < k < n ==> rows[k].task != task
  }

  lemma LastDecides(sorted: seq<Row>, task: string, j: nat)
    requires Sorted(sorted) && IsLast(sorted, |sorted|, task, j)
    ensures Deciding(multiset(sorted), task, sorted[j])
    ensures sorted[j].passed <==> Verified(multiset(sorted), task)
  {
    var last := sorted[j];
    forall x | x in multiset(sorted) && x.task == task
      ensures InstantOf(x) <= InstantOf(last) && (InstantOf(x) == InstantOf(last) && last.passed ==> x.passed)
    {
      var k :| 0 <= k < |sorted| && sorted[k] == x;
      assert k <= j;
    }
  }

  // An undated row decides a task exactly when no row of the task is dated after the earliest instant:
  // an undated pass never supersedes a failure with a date, unless that date is the earliest there is.
  lemma UndatedDecidesIff(rows: multiset<Row>, task: string, undated: Row)
    requires undated in rows && undated.task == task && undated.instant.None?
    ensures Deciding(rows, task, undated) <==>
            forall r :: r in rows && r.task == task && r.instant.Some? ==> r.instant.value <= EARLIEST
  {
    if forall r :: r in rows && r.task == task && r.instant.Some? ==> r.instant.value <= EARLIEST {
      forall x | x in rows && x.task == task ensures InstantOf(x) <= InstantOf(undated) {
      }
    }
    if Deciding(rows, task, undated) {
      forall r | r in rows && r.task == task && r.instant.Some? ensures r.instant.value <= EARLIEST {
        assert InstantOf(r) <= InstantOf(undated);
      }
    }
  }

  // A row dated at the earliest instant is no such row: beside a dated pass, an undated failure still decides.
  lemma UndatedTies(task: string)
    ensures var (dated, undated) := (Row(task, Some(EARLIEST), true), Row(task, None, false));
            var rows := multiset{dated, undated};
            Deciding(rows, task, undated) && Deciding(rows, task, dated) && !Verified(rows, task)
  {
    var (dated, undated) := (Row(task, Some(EARLIEST), true), Row(task, None, false));
    UndatedDecidesIff(multiset{dated, undated}, task, undated);
    assert Deciding(multiset{dated, undated}, task, undated);
  }
}
