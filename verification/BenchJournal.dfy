/**
 The benchmark journal. The runner may be killed at any point and started again any number of times;
 each planned attempt is launched at most once, and so is its one replacement, and a run that gets to
 its end leaves exactly one row that counts for each attempt. What a kill in the middle of an append
 leaves behind is part of the model: an unreadable line stops every later run.
 */
module BenchJournal {
  import opened Wrappers

  // A planned attempt, or the `-r1` that replaces it if it was interrupted.
  datatype Id = Planned(name: string) | Retry(name: string)

  datatype Row = Started(id: Id) | Terminal(id: Id, replacedBy: Option<Id>)

  // How the file ends: with a newline, with a whole row that lacks it, or with a line nobody can parse.
  datatype Tail = Clean | NoNewline | Unreadable

  datatype Outcome = Raised | Killed | Finished

  /******* Reading *******/

  function StartedIds(rows: seq<Row>): set<Id> {
    if rows == [] then {}
    else
      var last := rows[|rows| - 1];
      StartedIds(rows[..|rows| - 1]) + (if last.Started? then {last.id} else {})
  }

  // The last terminal row of each id.
  function Done(rows: seq<Row>): map<Id, Option<Id>> {
    if rows == [] then map[]
    else
      var before, last := Done(rows[..|rows| - 1]), rows[|rows| - 1];
      if last.Terminal? then before[last.id := last.replacedBy] else before
  }

  // `_journal`: one pass over the rows.
  method ReadRows(rows: seq<Row>) returns (done: map<Id, Option<Id>>, orphaned: set<Id>)
    ensures done == Done(rows) && orphaned == StartedIds(rows) - Done(rows).Keys
  {
    var started: set<Id> := {};
    done := map[];
    var i := 0;
    while i < |rows|
      invariant 0 <= i <= |rows|
      invariant done == Done(rows[..i]) && started == StartedIds(rows[..i])
    {
      assert rows[..i + 1][..i] == rows[..i];
      match rows[i] {
        case Started(id) => started := started + {id};
        case Terminal(id, replacedBy) => done := done[id := replacedBy];
      }
      i := i + 1;
    }
    assert rows[..i] == rows;
    orphaned := started - done.Keys;
  }

  /******* The rows of one attempt *******/

  function Project(rows: seq<Row>, a: string): seq<Row> {
    if rows == [] then []
    else
      var last := rows[|rows| - 1];
      Project(rows[..|rows| - 1], a) + (if last.id.name == a then [last] else [])
  }

  lemma {:induction false} ProjectReads(rows: seq<Row>, a: string, id: Id)
    requires id.name == a
    ensures id in StartedIds(rows) <==> id in StartedIds(Project(rows, a))
    ensures id in Done(rows) <==> id in Done(Project(rows, a))
    ensures id in Done(rows) ==> Done(rows)[id] == Done(Project(rows, a))[id]
  {
    if rows != [] {
      var last := rows[|rows| - 1];
      ProjectReads(rows[..|rows| - 1], a, id);
      if last.id.name == a {
        assert Project(rows, a)[..|Project(rows, a)| - 1] == Project(rows[..|rows| - 1], a);
      } else {
        assert Project(rows, a) == Project(rows[..|rows| - 1], a);
      }
    }
  }

  lemma ProjectAppend(rows: seq<Row>, row: Row, a: string)
    ensures Project(rows + [row], a) == Project(rows, a) + if row.id.name == a then [row] else []
  {
    assert (rows + [row])[..|rows|] == rows;
  }

  // The rows of an attempt that was interrupted once.
  function Interrupted(a: string): seq<Row> {
    [Started(Planned(a)), Terminal(Planned(a), Some(Retry(a)))]
  }

  // The only ways the rows of an attempt ever stand.
  predicate Shape(p: seq<Row>, a: string) {
    || p == []
    || p == [Started(Planned(a))]
    || p == Interrupted(a)
    || p == Interrupted(a) + [Started(Retry(a))]
    || Complete(p, a)
  }

  predicate Complete(p: seq<Row>, a: string) {
    || p == [Terminal(Planned(a), None)]
    || p == [Started(Planned(a)), Terminal(Planned(a), None)]
    || p == Interrupted(a) + [Terminal(Retry(a), None)]
    || p == Interrupted(a) + [Started(Retry(a)), Terminal(Retry(a), None)]
  }

  // What a run does next with an attempt, from the rows it read.
  datatype Plan = Skip | Record(lost: Id) | Launch(todo: Id) | Replace

  function Decide(done: map<Id, Option<Id>>, orphaned: set<Id>, a: string): Plan {
    var id := Planned(a);
    if id in orphaned then Replace
    else if id in done then
      match done[id]
      case None => Skip
      case Some(retry) =>
        if retry in done then Skip
        else if retry in orphaned then Record(retry)
        else Launch(retry)
    else Launch(id)
  }

  // The decision fits the shape: exactly the complete attempts are skipped, and nothing is launched twice.
  lemma DecideFits(rows: seq<Row>, a: string)
    requires Shape(Project(rows, a), a)
    ensures Decide(Done(rows), StartedIds(rows) - Done(rows).Keys, a) == Skip <==> Complete(Project(rows, a), a)
    ensures var p := Project(rows, a);
            match Decide(Done(rows), StartedIds(rows) - Done(rows).Keys, a)
            case Skip => Complete(p, a)
            case Record(lost) => lost == Retry(a) && p == Interrupted(a) + [Started(Retry(a))]
            case Launch(todo) => (todo == Planned(a) && p == []) || (todo == Retry(a) && p == Interrupted(a))
            case Replace => p == [Started(Planned(a))]
  {
    var p := Project(rows, a);
    ProjectReads(rows, a, Planned(a));
    ProjectReads(rows, a, Retry(a));
    ShapeReads(p, a);
  }

  lemma ShapeReads(p: seq<Row>, a: string)
    requires Shape(p, a)
    ensures p == [] ==> StartedIds(p) == {} && Done(p) == map[]
    ensures p == [Started(Planned(a))] ==> StartedIds(p) == {Planned(a)} && Done(p) == map[]
    ensures p == [Terminal(Planned(a), None)] ==> Planned(a) in Done(p) && Done(p)[Planned(a)] == None
    ensures p == [Started(Planned(a)), Terminal(Planned(a), None)] ==> Planned(a) in Done(p) && Done(p)[Planned(a)] == None
    ensures Interrupted(a) <= p ==> Planned(a) in Done(p) && Done(p)[Planned(a)] == Some(Retry(a))
    ensures p == Interrupted(a) ==> Retry(a) !in Done(p) && Retry(a) !in StartedIds(p)
    ensures p == Interrupted(a) + [Started(Retry(a))] ==> Retry(a) !in Done(p) && Retry(a) in StartedIds(p)
    ensures Complete(p, a) && Interrupted(a) <= p ==> Retry(a) in Done(p)
  {
    assert forall n :: 0 < n <= |p| ==> p[..n][..n - 1] == p[..n - 1];
    assert p[..|p|] == p;
  }

  /******* The runner *******/

  class Runner {
    // The journal file: its readable rows, and how it ends.
    var rows: seq<Row>
    var tail: Tail

    // Every row whose append took effect, and every launch, in order.
    ghost var history: seq<Row>
    ghost var launches: seq<Id>

    constructor ()
      ensures Valid() && rows == [] && tail == Clean && history == [] && launches == []
    {
      rows, tail, history, launches := [], Clean, [], [];
    }

    ghost predicate Valid()
      reads this
    {
      && (tail != Unreadable ==> rows == history) && (tail == NoNewline ==> rows != [])
      && (forall a :: Shape(Project(history, a), a))
      && (forall id :: id in launches ==> id in StartedIds(history))
      && forall i, j :: 0 <= i < j < |launches| ==> launches[i] != launches[j]
    }

    // A row that keeps its attempt in shape.
    ghost predicate Fits(row: Row)
      reads this`history
    {
      Shape(Project(history, row.id.name) + [row], row.id.name)
    }

    // `_append`: a write onto a line that lacks its newline spoils that line; a kill may leave a part of
    // the row, all of it but the newline, or nothing.
    method Append(row: Row) returns (alive: bool)
      requires Valid() && Fits(row)
      modifies this`rows, this`tail, this`history
      ensures Valid()
      ensures history == old(history) + [row] || (!alive && history == old(history))
      ensures alive ==> tail == (if old(tail) == Clean then Clean else Unreadable)
      ensures |old(history)| <= |history| && (alive ==> |old(history)| < |history|)
      ensures old(tail) != Clean ==> tail == if |history| == |old(history)| then old(tail) else Unreadable
    {
      hide Shape, Project;
      if * {
        return false;
      }
      StillInShape(row);
      if tail == NoNewline {
        rows, tail := rows[..|rows| - 1], Unreadable;
        alive := *;
      } else if tail == Clean {
        if * {
          tail := Unreadable;
          alive := false;
        } else if * {
          rows, tail := rows + [row], NoNewline;
          alive := false;
        } else {
          rows := rows + [row];
          alive := true;
        }
      } else {
        alive := *;
      }
      history := history + [row];
    }

    lemma StillInShape(row: Row)
      requires Valid() && Fits(row)
      ensures forall a :: Shape(Project(history + [row], a), a)
      ensures StartedIds(history) <= StartedIds(history + [row])
      ensures row.Started? ==> row.id in StartedIds(history + [row])
    {
      hide Shape;
      forall a ensures Shape(Project(history + [row], a), a) {
        ProjectAppend(history, row, a);
        assert Project(history, a) + [] == Project(history, a);
      }
      assert (history + [row])[..|history|] == history;
    }

    // `_run_one`: launch the agent, unless its workspace cannot be set up, and record how it ended.
    method RunOne(todo: Id, mayBreak: bool) returns (alive: bool)
      requires Valid() && (Project(history, todo.name) == if todo.Planned? then [] else Interrupted(todo.name))
      modifies this
      ensures Valid()
      ensures alive ==> Complete(Project(history, todo.name), todo.name)
      ensures Elsewhere(old(history), history, todo.name)
      ensures alive ==> tail == (if old(tail) == Clean then Clean else Unreadable)
      ensures |old(history)| <= |history| && (alive ==> |old(history)| < |history|)
      ensures old(tail) != Clean ==> tail == if |history| == |old(history)| then old(tail) else Unreadable
      ensures launches == old(launches) || launches == old(launches) + [todo]
      ensures alive && !mayBreak ==> launches == old(launches) + [todo]
    {
      hide Shape, Project, Complete, StartedIds, Elsewhere, Interrupted;
      ghost var h0 := history;
      var broken: bool := *;
      if mayBreak && broken {
        SetupFits(h0, todo);
        alive := Append(Terminal(todo, None));
        ElsewhereRefl(h0, todo.name);
        ElsewhereAppend(h0, h0, Terminal(todo, None));
        ProjectAppend(h0, Terminal(todo, None), todo.name);
      } else {
        StartFits(h0, todo);
        alive := StartOne(todo);
      }
    }

    method StartOne(todo: Id) returns (alive: bool)
      requires Valid() && Fits(Started(todo)) && todo !in StartedIds(history)
      requires Shape(Project(history, todo.name) + [Started(todo)] + [Terminal(todo, None)], todo.name)
      modifies this
      ensures Valid() && Elsewhere(old(history), history, todo.name)
      ensures alive ==> Project(history, todo.name) == Project(old(history), todo.name) + [Started(todo)] + [Terminal(todo, None)]
      ensures alive ==> tail == (if old(tail) == Clean then Clean else Unreadable)
      ensures |old(history)| <= |history| && (alive ==> |old(history)| < |history|)
      ensures old(tail) != Clean ==> tail == if |history| == |old(history)| then old(tail) else Unreadable
      ensures launches == old(launches) || launches == old(launches) + [todo]
      ensures alive ==> launches == old(launches) + [todo]
    {
      hide Shape, Project, Complete, StartedIds, Elsewhere, Interrupted;
      ghost var h0 := history;
      NotInLaunches(todo);
      ElsewhereRefl(h0, todo.name);
      alive := Append(Started(todo));
      ElsewhereAppend(h0, h0, Started(todo));
      ProjectAppend(h0, Started(todo), todo.name);
      if !alive {
        return;
      }
      ghost var h1 := history;
      StartedNow(h0, todo);
      alive := Launch(todo);
      ElsewhereTransitive(h0, h1, history, todo.name);
    }

    lemma NotInLaunches(todo: Id)
      requires Valid() && todo !in StartedIds(history)
      ensures todo !in launches
    {
    }

    // The agent itself, once its start is on record.
    method Launch(todo: Id) returns (alive: bool)
      requires Valid() && todo !in launches && todo in StartedIds(history)
      requires Fits(Terminal(todo, None))
      modifies this
      ensures Valid() && Elsewhere(old(history), history, todo.name)
      ensures alive ==> Project(history, todo.name) == Project(old(history), todo.name) + [Terminal(todo, None)]
      ensures alive ==> tail == (if old(tail) == Clean then Clean else Unreadable)
      ensures |old(history)| <= |history| && (alive ==> |old(history)| < |history|)
      ensures old(tail) != Clean ==> tail == if |history| == |old(history)| then old(tail) else Unreadable
      ensures launches == old(launches) + [todo]
    {
      hide Shape, Project, Complete, StartedIds, Elsewhere;
      ghost var h1 := history;
      ElsewhereRefl(h1, todo.name);
      launches := launches + [todo];
      if * {
        return false;
      }
      alive := Append(Terminal(todo, None));
      ElsewhereAppend(h1, h1, Terminal(todo, None));
      ProjectAppend(h1, Terminal(todo, None), todo.name);
    }

    // `run_experiment`: one pass over the plan, deciding on each attempt from the rows read at the start. On
    // a journal whose last row lacks its newline, a run that finishes spoils it exactly when some planned
    // attempt was not complete yet. Each attempt whose rows call for a launch is launched, unless its workspace
    // may break, and no other is.
    method Run(plan: seq<string>, breakable: set<string>) returns (outcome: Outcome)
      requires Valid() && forall i, j :: 0 <= i < j < |plan| ==> plan[i] != plan[j]
      modifies this
      ensures Valid() && (outcome == Raised <==> old(tail) == Unreadable)
      ensures outcome == Raised ==> rows == old(rows) && tail == old(tail) && launches == old(launches)
      ensures outcome == Finished ==> forall k :: 0 <= k < |plan| ==> Complete(Project(history, plan[k]), plan[k])
      ensures outcome == Finished && old(tail) == Clean ==> tail == Clean
      ensures old(tail) == NoNewline ==> (tail == Unreadable <==> |history| > |old(history)|)
      ensures outcome == Finished && old(tail) == NoNewline ==>
                (tail == Unreadable <==> exists k :: 0 <= k < |plan| && !Complete(Project(old(rows), plan[k]), plan[k]))
      ensures old(launches) <= launches
      ensures outcome == Finished ==> forall k :: 0 <= k < |plan| && plan[k] !in breakable ==> IsLaunched(old(rows), old(launches), launches, plan[k])
      ensures forall id :: id in launches && id !in old(launches) ==> id.name in plan && Due(Project(old(rows), id.name), id.name) == Some(id)
    {
      hide Shape, Project, Complete, StartedIds, Done, Due, IsLaunched, LaunchesDue;
      if tail == Unreadable {
        return Raised;
      }
      var done, orphaned := ReadRows(rows);
      ghost var h0 := history;
      var i := 0;
      while i < |plan|
        invariant 0 <= i <= |plan| && Valid()
        invariant old(tail) == Clean ==> tail == Clean
        invariant |old(history)| <= |history|
        invariant |history| == |old(history)| <==> forall k :: 0 <= k < i ==> Complete(Project(h0, plan[k]), plan[k])
        invariant old(tail) != Clean ==> tail == if |history| == |old(history)| then old(tail) else Unreadable
        invariant old(launches) <= launches
        invariant forall k :: 0 <= k < i && plan[k] !in breakable ==> IsLaunched(h0, old(launches), launches, plan[k])
        invariant forall id :: id in launches && id !in old(launches) ==> id.name in plan[..i] && Due(Project(h0, id.name), id.name) == Some(id)
        invariant forall k :: 0 <= k < i ==> Complete(Project(history, plan[k]), plan[k])
        invariant forall k :: i <= k < |plan| ==> Project(history, plan[k]) == Project(h0, plan[k])
      {
        ghost var h1 := history;
        assert Shape(Project(h0, plan[i]), plan[i]) by {
          assert Shape(Project(history, plan[i]), plan[i]);
        }
        DecideFits(h0, plan[i]);
        ghost var launches1 := launches;
        var alive := Step(plan[i], Decide(done, orphaned, plan[i]), plan[i] in breakable);
        NewLaunches(h0, plan, i, old(launches), launches1, launches, Due(Project(h0, plan[i]), plan[i]));
        if !alive {
          return Killed;
        }
        forall k | 0 <= k < |plan| && k != i ensures Project(history, plan[k]) == Project(h1, plan[k]) {
          assert plan[k] != plan[i];
        }
        i := i + 1;
      }
      outcome := Finished;
    }

    // What is decided for one attempt.
    method Step(a: string, plan: Plan, mayBreak: bool) returns (alive: bool)
      requires Valid()
      requires match plan
               case Skip => Complete(Project(history, a), a)
               case Record(lost) => lost == Retry(a) && Project(history, a) == Interrupted(a) + [Started(Retry(a))]
               case Launch(todo) => (todo == Planned(a) && Project(history, a) == []) || (todo == Retry(a) && Project(history, a) == Interrupted(a))
               case Replace => Project(history, a) == [Started(Planned(a))]
      modifies this
      ensures Valid() && Elsewhere(old(history), history, a) && old(launches) <= launches
      ensures alive ==> Complete(Project(history, a), a)
      ensures launches == old(launches) || LaunchesDue(old(launches), launches, Due(Project(old(history), a), a))
      ensures alive && !mayBreak ==> LaunchesDue(old(launches), launches, Due(Project(old(history), a), a))
      ensures alive && old(tail) == Clean ==> tail == Clean
      ensures |old(history)| <= |history| && (alive ==> (|old(history)| < |history| <==> plan != Skip))
      ensures old(tail) != Clean ==> tail == if |history| == |old(history)| then old(tail) else Unreadable
    {
      ghost var h0 := history;
      ElsewhereRefl(h0, a);
      match plan
      case Skip => alive := true;
      case Launch(todo) => alive := RunOne(todo, mayBreak);
      case Record(lost) =>
        assert Interrupted(a) + [Started(Retry(a))] + [Terminal(Retry(a), None)] == Interrupted(a) + [Started(Retry(a)), Terminal(Retry(a), None)];
        alive := Append(Terminal(lost, None));
        ElsewhereAppend(h0, h0, Terminal(lost, None));
        ProjectAppend(h0, Terminal(lost, None), a);
      case Replace =>
        alive := Append(Terminal(Planned(a), Some(Retry(a))));
        ElsewhereAppend(h0, h0, Terminal(Planned(a), Some(Retry(a))));
        ProjectAppend(h0, Terminal(Planned(a), Some(Retry(a))), a);
        if alive {
          ghost var h1 := history;
          alive := RunOne(Retry(a), mayBreak);
          ElsewhereTransitive(h0, h1, history, a);
        }
    }
  }

  // The launch that an attempt's rows call for: its own if it has none, its replacement's if it was interrupted.
  function Due(p: seq<Row>, a: string): Option<Id> {
    if p == [] then Some(Planned(a))
    else if p == [Started(Planned(a))] || p == Interrupted(a) then Some(Retry(a))
    else None
  }

  predicate LaunchesDue(before: seq<Id>, after: seq<Id>, due: Option<Id>) {
    after == before + if due.Some? then [due.value] else []
  }

  // What was due for the attempt has been launched since.
  predicate IsLaunched(rows: seq<Row>, before: seq<Id>, after: seq<Id>, a: string) {
    var due := Due(Project(rows, a), a);
    due.Some? ==> due.value in after && due.value !in before
  }

  lemma NewLaunches(rows: seq<Row>, plan: seq<string>, i: nat, before: seq<Id>, now: seq<Id>, later: seq<Id>, due: Option<Id>)
    requires i < |plan| && before <= now && due == Due(Project(rows, plan[i]), plan[i])
    requires forall j, k :: 0 <= j < k < |later| ==> later[j] != later[k]
    requires later == now || LaunchesDue(now, later, due)
    requires forall id :: id in now && id !in before ==> id.name in plan[..i] && Due(Project(rows, id.name), id.name) == Some(id)
    ensures forall id :: id in later && id !in before ==> id.name in plan[..i + 1] && Due(Project(rows, id.name), id.name) == Some(id)
    ensures LaunchesDue(now, later, due) ==> IsLaunched(rows, before, later, plan[i])
    ensures forall a :: IsLaunched(rows, before, now, a) ==> IsLaunched(rows, before, later, a)
  {
    hide Project;
    assert plan[..i + 1] == plan[..i] + [plan[i]];
    if LaunchesDue(now, later, due) && due.Some? {
      assert later[|now|] == due.value && due.value.name == plan[i];
      assert forall j :: 0 <= j < |before| ==> later[j] == before[j];
    }
  }

  // Only rows of this attempt were added.
  ghost predicate Elsewhere(before: seq<Row>, after: seq<Row>, a: string) {
    forall b :: b != a ==> Project(after, b) == Project(before, b)
  }

  lemma ElsewhereRefl(h: seq<Row>, a: string)
    ensures Elsewhere(h, h, a)
  {
  }

  lemma ElsewhereTransitive(f: seq<Row>, g: seq<Row>, h: seq<Row>, a: string)
    requires Elsewhere(f, g, a) && Elsewhere(g, h, a)
    ensures Elsewhere(f, h, a)
  {
  }

  lemma ElsewhereAppend(before: seq<Row>, h: seq<Row>, row: Row)
    requires Elsewhere(before, h, row.id.name)
    ensures Elsewhere(before, h + [row], row.id.name)
  {
    forall b | b != row.id.name ensures Project(h + [row], b) == Project(before, b) {
      ProjectAppend(h, row, b);
      assert Project(h, b) + [] == Project(h, b);
    }
  }

  lemma SetupFits(h: seq<Row>, todo: Id)
    requires Project(h, todo.name) == if todo.Planned? then [] else Interrupted(todo.name)
    ensures Complete(Project(h, todo.name) + [Terminal(todo, None)], todo.name)
    ensures Shape(Project(h, todo.name) + [Terminal(todo, None)], todo.name)
  {
    assert [] + [Terminal(todo, None)] == [Terminal(todo, None)];
  }

  lemma StartFits(h: seq<Row>, todo: Id)
    requires Project(h, todo.name) == if todo.Planned? then [] else Interrupted(todo.name)
    ensures Shape(Project(h, todo.name) + [Started(todo)], todo.name)
    ensures Complete(Project(h, todo.name) + [Started(todo)] + [Terminal(todo, None)], todo.name)
    ensures Shape(Project(h, todo.name) + [Started(todo)] + [Terminal(todo, None)], todo.name)
    ensures todo !in StartedIds(h)
  {
    var p := Project(h, todo.name);
    NotLaunchedYet(h, todo);
    hide Project, StartedIds;
    assert [] + [Started(todo)] == [Started(todo)];
    assert p + [Started(todo)] + [Terminal(todo, None)] == p + [Started(todo), Terminal(todo, None)];
    assert [] + [Started(todo), Terminal(todo, None)] == [Started(todo), Terminal(todo, None)];
  }

  lemma NotLaunchedYet(h: seq<Row>, todo: Id)
    requires Project(h, todo.name) == if todo.Planned? then [] else Interrupted(todo.name)
    ensures todo !in StartedIds(h)
  {
    ProjectReads(h, todo.name, todo);
    ShapeReads(Project(h, todo.name), todo.name);
  }

  lemma StartedNow(h: seq<Row>, id: Id)
    ensures id in StartedIds(h + [Started(id)])
  {
    assert (h + [Started(id)])[..|h|] == h;
  }

  /******* The rows that count *******/

  // `active_rows`, of terminal rows: a replaced row counts until its replacement has a terminal row.
  function Active(rows: seq<Row>, terminal: set<Id>): seq<Row> {
    if rows == [] then []
    else
      var before, last := Active(rows[..|rows| - 1], terminal), rows[|rows| - 1];
      if last.Terminal? && !(last.replacedBy.Some? && last.replacedBy.value in terminal) then before + [last] else before
  }

  lemma {:induction false} ActiveProject(rows: seq<Row>, terminal: set<Id>, a: string)
    ensures Project(Active(rows, terminal), a) == Active(Project(rows, a), terminal)
  {
    if rows != [] {
      var init, last := rows[..|rows| - 1], rows[|rows| - 1];
      ActiveProject(init, terminal, a);
      if Active(rows, terminal) != Active(init, terminal) {
        ProjectAppend(Active(init, terminal), last, a);
      }
      if last.id.name == a {
        assert Project(rows, a)[..|Project(rows, a)| - 1] == Project(init, a);
      } else {
        assert Project(rows, a) == Project(init, a);
      }
    }
  }

  // A completed attempt has exactly one row that counts, and it is the last one written for it.
  lemma CompleteCountsOnce(rows: seq<Row>, a: string)
    requires Complete(Project(rows, a), a)
    ensures var p := Project(rows, a);
            Project(Active(rows, Done(rows).Keys), a) == [p[|p| - 1]]
  {
    var p := Project(rows, a);
    hide Complete;
    ActiveProject(rows, Done(rows).Keys, a);
    ProjectReads(rows, a, Retry(a));
    RetryIsDone(p, a);
    ActiveOfComplete(p, a, Done(rows).Keys);
  }

  lemma RetryIsDone(p: seq<Row>, a: string)
    requires Complete(p, a)
    ensures Interrupted(a) <= p ==> Retry(a) in Done(p)
  {
    ShapeReads(p, a);
  }

  lemma ActiveOfComplete(p: seq<Row>, a: string, terminal: set<Id>)
    requires Complete(p, a) && (Interrupted(a) <= p ==> Retry(a) in terminal)
    ensures Active(p, terminal) == [p[|p| - 1]]
  {
    hide Active;
    if Interrupted(a) <= p {
      ActiveInterrupted(a, terminal);
      ActiveAppend(Interrupted(a), Started(Retry(a)), terminal);
      ActiveAppend(Interrupted(a), Terminal(Retry(a), None), terminal);
      ActiveAppend(Interrupted(a) + [Started(Retry(a))], Terminal(Retry(a), None), terminal);
      assert Interrupted(a) + [Started(Retry(a))] + [Terminal(Retry(a), None)] ==
             Interrupted(a) + [Started(Retry(a)), Terminal(Retry(a), None)];
    } else {
      ActiveAppend([], Terminal(Planned(a), None), terminal);
      ActiveAppend([Started(Planned(a))], Terminal(Planned(a), None), terminal);
      ActiveAppend([], Started(Planned(a)), terminal);
      assert [] + [Terminal(Planned(a), None)] == [Terminal(Planned(a), None)] && [] + [Started(Planned(a))] == [Started(Planned(a))];
      assert [Started(Planned(a))] + [Terminal(Planned(a), None)] == [Started(Planned(a)), Terminal(Planned(a), None)];
    }
  }

  // A row that has been replaced does not count.
  lemma ActiveInterrupted(a: string, terminal: set<Id>)
    requires Retry(a) in terminal
    ensures Active(Interrupted(a), terminal) == []
  {
    hide Active;
    var replaced := Terminal(Planned(a), Some(Retry(a)));
    ActiveAppend([Started(Planned(a))], replaced, terminal);
    assert Interrupted(a) == [Started(Planned(a))] + [replaced];
    ActiveAppend([], Started(Planned(a)), terminal);
    assert [] + [Started(Planned(a))] == [Started(Planned(a))];
  }

  lemma ActiveAppend(rows: seq<Row>, row: Row, terminal: set<Id>)
    ensures Active(rows + [row], terminal) ==
            Active(rows, terminal) +
            if row.Terminal? && !(row.replacedBy.Some? && row.replacedBy.value in terminal) then [row] else []
    ensures Active([], terminal) == []
  {
    assert (rows + [row])[..|rows|] == rows;
    assert Active(rows, terminal) + [] == Active(rows, terminal);
  }

  // Such a journal: the only attempt was started, and the row lacks its newline. A run that finishes glues its
  // next row to it, and every later run raises.
  method SpoiledJournal(a: string) returns (r: Runner, first: Outcome, second: Outcome)
    ensures fresh(r) && r.Valid() && first != Raised
    ensures first == Finished ==> r.tail == Unreadable && second == Raised
  {
    r := new Runner();
    r.rows, r.tail := [Started(Planned(a))], NoNewline;
    r.history, r.launches := r.rows, [Planned(a)];
    StartedOnly(a);
    var plan := [a];
    first := r.Run(plan, {a});
    assert plan[0] == a;
    second := Killed;
    if first == Finished {
      second := r.Run(plan, {a});
    }
  }

  lemma StartedOnly(a: string)
    ensures Project([Started(Planned(a))], a) == [Started(Planned(a))] && !Complete([Started(Planned(a))], a)
    ensures forall b :: b != a ==> Project([Started(Planned(a))], b) == []
    ensures Planned(a) in StartedIds([Started(Planned(a))])
  {
    var row := Started(Planned(a));
    ProjectAppend([], row, a);
    assert [] + [row] == [row];
    forall b | b != a ensures Project([row], b) == [] {
      ProjectAppend([], row, b);
    }
    StartedNow([], Planned(a));
  }

  // After a run that reached its end, unless it spoiled its journal, the file holds exactly one row that
  // counts for each planned attempt; and over all runs no id was ever launched twice.
  lemma FinishedRunCountsOnce(r: Runner, plan: seq<string>, k: nat)
    requires r.Valid() && r.tail != Unreadable && k < |plan|
    requires forall i :: 0 <= i < |plan| ==> Complete(Project(r.history, plan[i]), plan[i])
    ensures |Project(Active(r.rows, Done(r.rows).Keys), plan[k])| == 1
    ensures forall i, j :: 0 <= i < j < |r.launches| ==> r.launches[i] != r.launches[j]
  {
    CompleteCountsOnce(r.rows, plan[k]);
  }
}
