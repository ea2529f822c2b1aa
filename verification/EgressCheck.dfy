/** The egress check as the source runs it, with a queue, a parent map and nested loops. */
module EgressCheck {
  import opened Common
  import opened Egress
  import opened EgressPaths

  /** The chain to `dependency`, read back along the parents and then turned round. */
  method ReadChain(g: Graph, start: Id, parent: map<Id, Option<Id>>, dependency: Id, ghost w: Walk)
    returns (chain: seq<Id>)
    requires Tree(g, start, w) && parent == w.parent && dependency in parent
    ensures chain == Chain(w, dependency)
  {
    var backwards := [dependency];
    var node := parent[dependency];
    ghost var at := dependency;
    while node.Some?
      invariant at in parent && node == parent[at] && backwards != [] && backwards[|backwards| - 1] == at
      invariant Chain(w, at) + Reverse(backwards[..|backwards| - 1]) == Chain(w, dependency)
      decreases w.depth[at]
    {
      var next := node.value;
      assert Reverse(backwards) == [at] + Reverse(backwards[..|backwards| - 1]);
      assert Chain(w, at) == Chain(w, next) + [at];
      at := next;
      backwards := backwards + [next];
      assert backwards[..|backwards| - 1] + [next] == backwards;
      node := parent[next];
    }
    assert Chain(w, at) == [at];
    assert Reverse(backwards) == [at] + Reverse(backwards[..|backwards| - 1]);
    chain := Reverse(backwards);
  }

  /** Meets every dependency of `current` not met before, reporting the denied ones. */
  method ExpandNode(g: Graph, start: Id, current: Id, queue0: seq<Id>, parent0: map<Id, Option<Id>>,
                    chains0: seq<seq<Id>>, ghost w: Walk)
    returns (queue: seq<Id>, parent: map<Id, Option<Id>>, chains: seq<seq<Id>>, ghost e: Walk)
    requires queue0 == w.queue && parent0 == w.parent && chains0 == w.reports
    requires Expanding(g, start, w, current, 0)
    ensures e == Expand(g, w, current, Deps(g, current))
    ensures queue == e.queue && parent == e.parent && chains == e.reports
    ensures Expanding(g, start, e, current, |Deps(g, current)|)
  {
    queue, parent, chains, e := queue0, parent0, chains0, w;
    var deps := if current in g.edges then g.edges[current] else [];
    hide Expanding, Tree, ReportsExact, IsDenied, Chain, NameOf;
    for i := 0 to |deps|
      invariant e == Expand(g, w, current, deps[..i])
      invariant queue == e.queue && parent == e.parent && chains == e.reports
      invariant Expanding(g, start, e, current, i)
    {
      VisitExpands(g, start, e, current, i);
      assert deps[..i + 1][..i] == deps[..i];
      queue, parent, chains, e := MeetDependency(g, start, current, deps[i], queue, parent, chains, e, i);
    }
    assert deps[..|deps|] == deps;
  }

  method MeetDependency(g: Graph, start: Id, current: Id, dependency: Id, queue0: seq<Id>, parent0: map<Id, Option<Id>>,
                        chains0: seq<seq<Id>>, ghost w: Walk, ghost n: nat)
    returns (queue: seq<Id>, parent: map<Id, Option<Id>>, chains: seq<seq<Id>>, ghost e: Walk)
    requires queue0 == w.queue && parent0 == w.parent && chains0 == w.reports
    requires n < |Deps(g, current)| && dependency == Deps(g, current)[n] && Expanding(g, start, w, current, n)
    ensures e == Visit(g, w, current, dependency)
    ensures queue == e.queue && parent == e.parent && chains == e.reports
  {
    hide Chain, NameOf, Layered, Settled;
    queue, parent, chains, e := queue0, parent0, chains0, Visit(g, w, current, dependency);
    if dependency in parent {
      return;
    }
    parent := parent[dependency := Some(current)];
    if g.normalise(NameOf(g, dependency)) in g.denied {
      VisitAppends(g, start, w, current, dependency);
      VisitKeepsTree(g, start, w, current, dependency);
      var chain := ReadChain(g, start, parent, dependency, e);
      chains := chains + [chain];
    }
    queue := queue + [dependency];
  }

  /** The walk from one member: everyone it meets, and the chains it reports. */
  method WalkMember(g: Graph, exempt: set<Id>, start: Id) returns (parent: map<Id, Option<Id>>, chains: seq<seq<Id>>)
    requires exempt == Exempt(g)
    ensures parent == WalkFrom(g, start).parent && chains == WalkFrom(g, start).reports
  {
    parent, chains := map[start := None], [];
    var queue := [start];
    ghost var w := Begin(start);
    BeginWalks(g, start);
    while queue != []
      invariant queue == w.queue && parent == w.parent && chains == w.reports
      invariant Walking(g, start, w)
      invariant Finish(g, w) == WalkFrom(g, start)
      decreases Unmet(g, w), |queue|
    {
      hide Finish, WalkFrom, Unmet, Walking, Expanding, Expand;
      var current := queue[0];
      ghost var w1 := w.(queue := w.queue[1..]);
      FinishStep(g, w);
      PoppedNext(g, start, w);
      queue := queue[1..];
      if current in exempt {
        w := w1;
        continue;
      }
      queue, parent, chains, w := ExpandNode(g, start, current, queue, parent, chains, w1);
      ExpandedWalks(g, start, w, current);
    }
    FinishStep(g, w);
  }

  /** One turn of the walk. */
  lemma FinishStep(g: Graph, w: Walk)
    ensures w.queue == [] ==> Finish(g, w) == w
    ensures w.queue != [] && w.queue[0] in Exempt(g) ==>
              && Finish(g, w) == Finish(g, w.(queue := w.queue[1..]))
              && Unmet(g, w.(queue := w.queue[1..])) == Unmet(g, w)
    ensures w.queue != [] && w.queue[0] !in Exempt(g) ==>
              var w1, current := w.(queue := w.queue[1..]), w.queue[0];
              var e := Expand(g, w1, current, Deps(g, current));
              Finish(g, w) == Finish(g, e)
              && (Unmet(g, e) < Unmet(g, w) || (Unmet(g, e) == Unmet(g, w) && e == w1))
  {
    if w.queue != [] && w.queue[0] !in Exempt(g) {
      ExpandMeets(g, w.(queue := w.queue[1..]), w.queue[0], Deps(g, w.queue[0]));
    }
  }

  /** The denied names a member declares that its walk did not meet. */
  method DeclaredBy(g: Graph, member: Id, parent: map<Id, Option<Id>>, ghost w: Walk) returns (found: seq<Problem>)
    requires member in g.packages && parent == w.parent
    ensures found == DeclaredReports(g, member, w, g.packages[member].declared)
  {
    found := [];
    var declared := g.packages[member].declared;
    for k := 0 to |declared|
      invariant found == DeclaredReports(g, member, w, declared[..k])
    {
      var walked := set id | id in parent :: g.normalise(NameOf(g, id));
      assert walked == WalkedNames(g, w);
      assert declared[..k + 1][..k] == declared[..k];
      var name := g.normalise(declared[k]);
      if name in g.denied && name !in walked {
        found := found + [Declared(member, declared[k])];
      }
    }
    assert declared[..|declared|] == declared;
  }

  /** The check: a walk from every member that is not exempt, and then what each declares. */
  method SecondEgressPaths(g: Graph) returns (r: Result<seq<Problem>, CheckError>)
    ensures r == Verdict(g)
  {
    if m :| m in g.members && m !in g.packages {
      return Err(MemberNotAmongPackages);
    }
    var exempt := set m | m in g.members && g.normalise(g.packages[m].name) == CHOKEPOINT;
    assert exempt == Exempt(g);
    if g.members != [] && forall k | k in g.edges :: g.edges[k] == [] {
      return Err(NoEdgeAtAll);
    }
    var problems: seq<Problem> := [];
    for i := 0 to |g.members|
      invariant forall j | 0 <= j < i :: g.members[j] in g.packages
      invariant problems == AllReports(g, g.members[..i])
    {
      var member := g.members[i];
      assert member in g.members;
      assert g.members[..i + 1][..i] == g.members[..i];
      if member in exempt {
        assert problems + [] == problems;
        continue;
      }
      var parent, chains := WalkMember(g, exempt, member);
      ghost var w := WalkFrom(g, member);
      var declared := DeclaredBy(g, member, parent, w);
      problems := problems + (ReachReports(member, chains) + declared);
    }
    assert g.members[..|g.members|] == g.members;
    r := Ok(problems);
  }
}
