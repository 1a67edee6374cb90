/**
 Transitive invalidation in the context registry. Dependencies may form cycles; the walk still ends, and
 it invalidates exactly the artifacts that were valid and that depend on the given one through artifacts
 that were valid, whatever order the artifacts are visited in.
 */
module ContextRegistry {
  import opened Wrappers

  datatype Artifact = Artifact(valid: bool, dependencies: seq<string>, reason: Option<string>)

  type Artifacts = map<string, Artifact>

  // Each step of the path goes from an artifact to a valid one that depends on it.
  predicate IsPath(artifacts: Artifacts, path: seq<string>) {
    forall i :: 0 < i < |path| ==>
      path[i] in artifacts && artifacts[path[i]].valid && path[i - 1] in artifacts[path[i]].dependencies
  }

  ghost predicate Reaches(artifacts: Artifacts, from: string, to: string) {
    exists path: seq<string> :: |path| >= 2 && path[0] == from && path[|path| - 1] == to && IsPath(artifacts, path)
  }

  lemma ReachesOneMore(artifacts: Artifacts, from: string, via: string, to: string)
    requires via == from || Reaches(artifacts, from, via)
    requires to in artifacts && artifacts[to].valid && via in artifacts[to].dependencies
    ensures Reaches(artifacts, from, to)
  {
    if via == from {
      var path := [from, to];
      assert |path| >= 2 && path[0] == from && path[|path| - 1] == to && IsPath(artifacts, path);
    } else {
      var path: seq<string> :| |path| >= 2 && path[0] == from && path[|path| - 1] == via && IsPath(artifacts, path);
      var longer := path + [to];
      assert longer[0] == from && longer[|longer| - 1] == to && IsPath(artifacts, longer);
    }
  }

  // A set that holds the start and every valid dependent of its members holds everything reachable.
  lemma {:induction false} ClosedHoldsPath(artifacts: Artifacts, closed: set<string>, path: seq<string>, n: nat)
    requires n < |path| && IsPath(artifacts, path) && path[0] in closed
    requires forall a, p :: a in artifacts && artifacts[a].valid && p in closed && p in artifacts[a].dependencies ==> a in closed
    ensures path[n] in closed
  {
    if n > 0 {
      ClosedHoldsPath(artifacts, closed, path, n - 1);
    }
  }

  predicate Apart(a: Artifact, parents: set<string>) {
    forall p :: p in a.dependencies ==> p !in parents
  }

  function ValidIds(artifacts: Artifacts): set<string> {
    set a | a in artifacts && artifacts[a].valid
  }

  // What the walk may have done so far: some valid artifacts that are reachable have been invalidated.
  ghost predicate Between(artifacts: Artifacts, start: Artifacts, id: string, reason: string) {
    && artifacts.Keys == start.Keys
    && forall a :: a in start ==>
         artifacts[a] == start[a] ||
         (start[a].valid && Reaches(start, id, a) && artifacts[a] == start[a].(valid := false, reason := Some(reason)))
  }

  lemma InvalidateOne(artifacts: Artifacts, start: Artifacts, id: string, reason: string, a: string, parent: string)
    requires Between(artifacts, start, id, reason) && a in artifacts && artifacts[a].valid
    requires (parent == id || Reaches(start, id, parent)) && parent in artifacts[a].dependencies
    ensures Reaches(start, id, a)
    ensures Between(artifacts[a := artifacts[a].(valid := false, reason := Some(reason))], start, id, reason)
    ensures |ValidIds(artifacts[a := artifacts[a].(valid := false, reason := Some(reason))])| + 1 == |ValidIds(artifacts)|
  {
    hide Reaches, ValidIds;
    ReachesOneMore(start, id, parent, a);
    OneLess(artifacts, a, artifacts[a].(valid := false, reason := Some(reason)));
  }

  lemma BetweenKeys(artifacts: Artifacts, start: Artifacts, id: string, reason: string)
    requires Between(artifacts, start, id, reason)
    ensures artifacts.Keys == start.Keys
  {
  }

  class ContextRegistry {
    var artifacts: Artifacts

    constructor (artifacts: Artifacts)
      ensures this.artifacts == artifacts
    {
      this.artifacts := artifacts;
    }

    // Invalidated artifacts and the given one have been walked from, or will be.
    ghost predicate Pending(start: Artifacts, id: string, queue: seq<string>, seen: set<string>)
      reads this
      requires artifacts.Keys == start.Keys
    {
      && (id in queue || id in seen)
      && (forall a :: a in start && artifacts[a] != start[a] ==> a in queue || a in seen)
      && (forall q :: q in queue ==> q == id || Reaches(start, id, q))
      && forall a :: a in artifacts && artifacts[a].valid ==> Apart(artifacts[a], seen)
    }

    method InvalidateDependents(id: string, reason: string)
      modifies this
      ensures artifacts.Keys == old(artifacts).Keys
      ensures forall a :: a in artifacts ==>
                artifacts[a] == if old(artifacts)[a].valid && Reaches(old(artifacts), id, a)
                                then old(artifacts)[a].(valid := false, reason := Some(reason))
                                else old(artifacts)[a]
    {
      hide Reaches;
      ghost var start := artifacts;
      var queue, seen := [id], {};
      while queue != []
        invariant Between(artifacts, start, id, reason) && Pending(start, id, queue, seen)
        decreases |ValidIds(artifacts)|, |queue|
      {
        var parent := queue[0];
        ghost var rest := queue[1..];
        assert queue == [parent] + rest;
        queue := queue[1..];
        if parent !in seen {
          var more := InvalidateDirect(start, id, parent, reason, queue, seen);
          queue := queue + more;
          seen := seen + {parent};
        }
      }
      WalkIsComplete(start, id, seen);
    }

    // Invalidate the valid artifacts that depend on the parent, in any order, and return them.
    method InvalidateDirect(ghost start: Artifacts, ghost id: string, parent: string, reason: string,
                            ghost queue: seq<string>, ghost seen: set<string>)
      returns (more: seq<string>)
      requires Between(artifacts, start, id, reason) && (parent == id || Reaches(start, id, parent))
      requires Pending(start, id, [parent] + queue, seen)
      modifies this
      ensures Between(artifacts, start, id, reason) && Pending(start, id, queue + more, seen + {parent})
      ensures more == [] ==> artifacts == old(artifacts)
      ensures more != [] ==> |ValidIds(artifacts)| < |ValidIds(old(artifacts))|
    {
      hide Reaches, Apart, ValidIds, Between;
      BetweenKeys(artifacts, start, id, reason);
      more := [];
      var left := artifacts.Keys;
      while left != {}
        invariant left <= artifacts.Keys == start.Keys && Between(artifacts, start, id, reason)
        invariant forall a :: a in more ==> Reaches(start, id, a)
        invariant forall a :: a in start && artifacts[a] != start[a] ==> a in more || a in [parent] + queue || a in seen
        invariant forall a :: a in artifacts && artifacts[a].valid && a !in left ==> Apart(artifacts[a], {parent})
        invariant forall a :: a in artifacts && artifacts[a].valid ==> Apart(artifacts[a], seen)
        invariant more == [] ==> artifacts == old(artifacts)
        invariant |ValidIds(artifacts)| + |more| <= |ValidIds(old(artifacts))|
        decreases left
      {
        var aid :| aid in left;
        left := left - {aid};
        var a := artifacts[aid];
        if a.valid && parent in a.dependencies {
          InvalidateOne(artifacts, start, id, reason, aid, parent);
          artifacts := artifacts[aid := a.(valid := false, reason := Some(reason))];
          more := more + [aid];
        } else {
          ApartFrom(a, parent);
        }
      }
      forall a | a in artifacts && artifacts[a].valid ensures Apart(artifacts[a], seen + {parent}) {
        ApartBoth(artifacts[a], seen, parent);
      }
    }

    lemma WalkIsComplete(start: Artifacts, id: string, seen: set<string>)
      requires artifacts.Keys == start.Keys && Pending(start, id, [], seen)
      requires forall a :: a in start ==> artifacts[a] == start[a] || !artifacts[a].valid
      requires forall a :: a in start ==> artifacts[a].dependencies == start[a].dependencies
      ensures forall a :: a in start && start[a].valid && Reaches(start, id, a) ==> artifacts[a] != start[a]
    {
      forall a | a in start && start[a].valid && Reaches(start, id, a) ensures artifacts[a] != start[a] {
        var path: seq<string> :| |path| >= 2 && path[0] == id && path[|path| - 1] == a && IsPath(start, path);
        var n := |path| - 2;
        ClosedHoldsPath(start, seen, path, n);
        assert path[n + 1] == a && path[n] in start[a].dependencies;
      }
    }
  }

  lemma ApartFrom(a: Artifact, parent: string)
    ensures parent !in a.dependencies ==> Apart(a, {parent})
  {
  }

  lemma ApartBoth(a: Artifact, seen: set<string>, parent: string)
    requires Apart(a, seen) && Apart(a, {parent})
    ensures Apart(a, seen + {parent})
  {
  }

  lemma OneLess(artifacts: Artifacts, a: string, invalid: Artifact)
    requires a in artifacts && artifacts[a].valid && !invalid.valid
    ensures |ValidIds(artifacts[a := invalid])| + 1 == |ValidIds(artifacts)|
  {
    assert ValidIds(artifacts) == ValidIds(artifacts[a := invalid]) + {a};
  }
}
