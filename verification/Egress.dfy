/** Which workspace members reach a network-capable package without the chokepoint. */
module Egress {
  import opened Common

  type Id = string

  datatype Package = Package(name: string, declared: seq<string>)

  /** What the resolved metadata says, and how crate names are folded before they are compared. */
  datatype Graph = Graph(
    packages: map<Id, Package>,
    members: seq<Id>,
    edges: map<Id, seq<Id>>,
    denied: set<string>,
    normalise: string -> string)

  datatype CheckError = MemberNotAmongPackages | NoEdgeAtAll

  /** A report names a member and either the chain of packages it reaches a denied one by, or a denied
      name it declares. */
  datatype Problem = Reach(member: Id, chain: seq<Id>) | Declared(member: Id, name: string)

  const CHOKEPOINT := "evreos-net"

  function NameOf(g: Graph, id: Id): string {
    if id in g.packages then g.packages[id].name else id
  }

  predicate IsDenied(g: Graph, id: Id) {
    g.normalise(NameOf(g, id)) in g.denied
  }

  function Deps(g: Graph, id: Id): seq<Id> {
    if id in g.edges then g.edges[id] else []
  }

  /** The members that are the chokepoint, by identity. */
  function Exempt(g: Graph): set<Id> {
    set m | m in g.members && g.normalise(NameOf(g, m)) == CHOKEPOINT
  }

  // ---- the walk ----

  /** The walk's state. `depth` counts the edges from the start, and is there for proof alone. */
  datatype Walk = Walk(queue: seq<Id>, parent: map<Id, Option<Id>>, depth: map<Id, nat>, reports: seq<seq<Id>>)

  /** The chain of packages from the start to `x`, by the parents recorded. */
  function Chain(w: Walk, x: Id): seq<Id>
    decreases if x in w.depth then w.depth[x] else 0
  {
    if x in w.parent && w.parent[x].Some? && x in w.depth && w.parent[x].value in w.depth
       && w.depth[w.parent[x].value] < w.depth[x]
    then Chain(w, w.parent[x].value) + [x]
    else [x]
  }

  function DepthOf(w: Walk, x: Id): nat {
    if x in w.depth then w.depth[x] else 0
  }

  /** Meeting one dependency of `current`. */
  function Visit(g: Graph, w: Walk, current: Id, dependency: Id): Walk {
    if dependency in w.parent then w
    else
      var w' := w.(queue := w.queue + [dependency],
                   parent := w.parent[dependency := Some(current)],
                   depth := w.depth[dependency := DepthOf(w, current) + 1]);
      if IsDenied(g, dependency) then w'.(reports := w'.reports + [Chain(w', dependency)]) else w'
  }

  function Expand(g: Graph, w: Walk, current: Id, dependencies: seq<Id>): Walk {
    if dependencies == [] then w
    else Visit(g, Expand(g, w, current, dependencies[..|dependencies| - 1]), current, dependencies[|dependencies| - 1])
  }

  /** Every package some package depends on. */
  function AllDeps(g: Graph): set<Id> {
    set k, i | k in g.edges && 0 <= i < |g.edges[k]| :: g.edges[k][i]
  }

  function Unmet(g: Graph, w: Walk): nat {
    |AllDeps(g) - w.parent.Keys|
  }

  lemma {:induction false} ExpandMeets(g: Graph, w: Walk, current: Id, dependencies: seq<Id>)
    requires dependencies <= Deps(g, current)
    ensures var e := Expand(g, w, current, dependencies);
            && w.parent.Keys <= e.parent.Keys
            && (e.parent.Keys == w.parent.Keys ==> e == w)
            && (e != w ==> Unmet(g, e) < Unmet(g, w))
  {
    if dependencies != [] {
      var init, last := dependencies[..|dependencies| - 1], dependencies[|dependencies| - 1];
      ExpandMeets(g, w, current, init);
      var mid := Expand(g, w, current, init);
      assert last == Deps(g, current)[|init|];
      assert last in AllDeps(g);
      if last !in mid.parent {
        Shrinks(AllDeps(g) - Visit(g, mid, current, last).parent.Keys, AllDeps(g) - mid.parent.Keys, last);
        assert last !in w.parent;
      }
    }
  }

  lemma Shrinks(a: set<Id>, b: set<Id>, x: Id)
    requires a <= b && x in b && x !in a
    ensures |a| < |b|
  {
    assert a <= b - {x};
    SubsetSize(a, b - {x});
  }

  lemma {:induction false} SubsetSize(a: set<Id>, b: set<Id>)
    requires a <= b
    ensures |a| <= |b|
    decreases a
  {
    if a != {} {
      var x :| x in a;
      SubsetSize(a - {x}, b - {x});
    }
  }

  /** The walk from a state until its queue is empty; the chokepoint's own node is never expanded. */
  function Finish(g: Graph, w: Walk): Walk
    decreases Unmet(g, w), |w.queue|
  {
    if w.queue == [] then w
    else
      var current, w1 := w.queue[0], w.(queue := w.queue[1..]);
      if current in Exempt(g) then Finish(g, w1)
      else
        ExpandMeets(g, w1, current, Deps(g, current));
        Finish(g, Expand(g, w1, current, Deps(g, current)))
  }

  function Begin(start: Id): Walk {
    Walk([start], map[start := None], map[start := 0], [])
  }

  function WalkFrom(g: Graph, start: Id): Walk {
    Finish(g, Begin(start))
  }

  // ---- the verdict ----

  function ReachReports(member: Id, chains: seq<seq<Id>>): (reports: seq<Problem>)
    ensures |reports| == |chains| && forall i | 0 <= i < |chains| :: reports[i] == Reach(member, chains[i])
  {
    seq(|chains|, i requires 0 <= i < |chains| => Reach(member, chains[i]))
  }

  function WalkedNames(g: Graph, w: Walk): set<string> {
    set id | id in w.parent :: g.normalise(NameOf(g, id))
  }

  function DeclaredReports(g: Graph, member: Id, w: Walk, declared: seq<string>): seq<Problem> {
    if declared == [] then []
    else
      var earlier := DeclaredReports(g, member, w, declared[..|declared| - 1]);
      var name := g.normalise(declared[|declared| - 1]);
      if name in g.denied && name !in WalkedNames(g, w) then earlier + [Declared(member, declared[|declared| - 1])]
      else earlier
  }

  function MemberReports(g: Graph, member: Id): seq<Problem>
    requires member in g.packages
  {
    var w := WalkFrom(g, member);
    ReachReports(member, w.reports) + DeclaredReports(g, member, w, g.packages[member].declared)
  }

  predicate MembersKnown(g: Graph) {
    forall m | m in g.members :: m in g.packages
  }

  predicate HasEdge(g: Graph) {
    exists k | k in g.edges :: g.edges[k] != []
  }

  function AllReports(g: Graph, members: seq<Id>): seq<Problem>
    requires forall m | m in members :: m in g.packages
  {
    if members == [] then []
    else
      var last := members[|members| - 1];
      AllReports(g, members[..|members| - 1]) + if last in Exempt(g) then [] else MemberReports(g, last)
  }

  function Verdict(g: Graph): Result<seq<Problem>, CheckError> {
    if !MembersKnown(g) then Err(MemberNotAmongPackages)
    else if g.members != [] && !HasEdge(g) then Err(NoEdgeAtAll)
    else Ok(AllReports(g, g.members))
  }
}
