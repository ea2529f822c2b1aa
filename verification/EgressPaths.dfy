/** What the egress verdict means, in paths of the dependency graph. */
module EgressPaths {
  import opened Common
  import opened Egress

  /** A path from `start` along dependencies, expanding no exempt package. */
  ghost predicate IsPath(g: Graph, start: Id, p: seq<Id>) {
    && p != [] && p[0] == start
    && forall i | 0 <= i < |p| - 1 :: p[i] !in Exempt(g) && p[i + 1] in Deps(g, p[i])
  }

  ghost predicate PathTo(g: Graph, start: Id, p: seq<Id>, x: Id) {
    IsPath(g, start, p) && p[|p| - 1] == x
  }

  ghost predicate Reachable(g: Graph, start: Id, x: Id) {
    exists p :: PathTo(g, start, p, x)
  }

  // ---- the tree of parents ----

  /** Whoever was met has a parent one edge nearer the start, which it depends from. */
  ghost predicate Tree(g: Graph, start: Id, w: Walk) {
    && w.depth.Keys == w.parent.Keys
    && start in w.parent && w.parent[start].None? && w.depth[start] == 0
    && forall x | x in w.parent && x != start ::
         && w.parent[x].Some?
         && w.parent[x].value in w.parent
         && w.depth[x] == w.depth[w.parent[x].value] + 1
         && w.parent[x].value !in Exempt(g)
         && x in Deps(g, w.parent[x].value)
  }

  lemma {:induction false} ChainIsPath(g: Graph, start: Id, w: Walk, x: Id)
    requires Tree(g, start, w) && x in w.parent
    ensures PathTo(g, start, Chain(w, x), x) && |Chain(w, x)| == w.depth[x] + 1
    decreases w.depth[x]
  {
    if x != start {
      ChainIsPath(g, start, w, w.parent[x].value);
    }
  }

  /** Meeting more packages leaves the chains to those met before. */
  lemma {:induction false} ChainStays(g: Graph, start: Id, w: Walk, w': Walk, x: Id)
    requires Tree(g, start, w) && x in w.parent
    requires w.parent.Keys <= w'.parent.Keys && w.depth.Keys <= w'.depth.Keys
    requires forall y | y in w.parent :: w'.parent[y] == w.parent[y] && w'.depth[y] == w.depth[y]
    ensures Chain(w', x) == Chain(w, x)
    decreases w.depth[x]
  {
    if x != start {
      ChainStays(g, start, w, w', w.parent[x].value);
    }
  }

  // ---- breadth first ----

  /** The queue is met packages, nearer ones first, none more than one edge beyond `near`; nobody met is
      farther than that. */
  ghost predicate Layered(w: Walk, near: nat) {
    && (forall i | 0 <= i < |w.queue| :: w.queue[i] in w.depth)
    && (forall i, j | 0 <= i < j < |w.queue| :: w.depth[w.queue[i]] <= w.depth[w.queue[j]])
    && (forall i | 0 <= i < |w.queue| :: near <= w.depth[w.queue[i]])
    && (forall x | x in w.depth :: w.depth[x] <= near + 1)
  }

  /** A package all of whose dependencies were met, each at most one edge farther. */
  ghost predicate Settled(g: Graph, w: Walk, y: Id) {
    y in w.depth && forall d | d in Deps(g, y) :: d in w.depth && w.depth[d] <= w.depth[y] + 1
  }

  ghost predicate AllSettled(g: Graph, w: Walk) {
    forall y | y in w.parent && y !in w.queue && y !in Exempt(g) :: Settled(g, w, y)
  }

  // ---- the reports ----

  ghost predicate EndsAt(chain: seq<Id>, x: Id) {
    chain != [] && chain[|chain| - 1] == x
  }

  /** The `i`th report is the chain to a denied package that was met. */
  ghost predicate ReportHolds(g: Graph, start: Id, w: Walk, i: nat)
    requires i < |w.reports|
  {
    && w.reports[i] != []
    && var x := w.reports[i][|w.reports[i]| - 1];
       x in w.parent && x != start && IsDenied(g, x) && w.reports[i] == Chain(w, x)
  }

  ghost predicate Reported(w: Walk, x: Id) {
    exists i :: 0 <= i < |w.reports| && EndsAt(w.reports[i], x)
  }

  /** Every report is the chain to a denied package met, each such package but the start has its report, and no
      two reports are for the same one. */
  ghost predicate ReportsExact(g: Graph, start: Id, w: Walk) {
    && (forall i | 0 <= i < |w.reports| :: ReportHolds(g, start, w, i))
    && (forall x | x in w.parent && x != start && IsDenied(g, x) :: Reported(w, x))
    && (forall i, j | 0 <= i < j < |w.reports| :: w.reports[i] != w.reports[j])
  }

  ghost predicate Sound(g: Graph, start: Id, w: Walk) {
    Tree(g, start, w) && ReportsExact(g, start, w)
  }

  lemma ChainEnds(w: Walk, x: Id)
    ensures Chain(w, x) != [] && Chain(w, x)[|Chain(w, x)| - 1] == x
  {
  }

  lemma VisitKeepsTree(g: Graph, start: Id, w: Walk, current: Id, d: Id)
    requires Tree(g, start, w) && current in w.parent && current !in Exempt(g) && d in Deps(g, current)
    ensures Tree(g, start, Visit(g, w, current, d))
  {
    hide Exempt, Deps, IsDenied, Chain;
  }

  /** What meeting `d` for the first time does to the chains and the reports. */
  lemma VisitAppends(g: Graph, start: Id, w: Walk, current: Id, d: Id)
    requires Tree(g, start, w) && current in w.parent && d !in w.parent
    ensures var w' := Visit(g, w, current, d);
            && (forall x | x in w.parent :: Chain(w', x) == Chain(w, x))
            && w'.reports == (if IsDenied(g, d) then w.reports + [Chain(w', d)] else w.reports)
            && EndsAt(Chain(w', d), d)
  {
    var w' := Visit(g, w, current, d);
    forall x | x in w.parent ensures Chain(w', x) == Chain(w, x) {
      ChainStays(g, start, w, w', x);
    }
    SameChains(w', w'.(reports := w.reports), d);
    ChainEnds(w', d);
  }

  lemma VisitReportsHold(g: Graph, start: Id, w: Walk, current: Id, d: Id, i: nat)
    requires Sound(g, start, w) && current in w.parent && d !in w.parent
    requires i < |Visit(g, w, current, d).reports|
    ensures ReportHolds(g, start, Visit(g, w, current, d), i)
    ensures i == |w.reports| ==> EndsAt(Visit(g, w, current, d).reports[i], d)
  {
    VisitAppends(g, start, w, current, d);
    assert i < |w.reports| ==> ReportHolds(g, start, w, i);
    hide Chain, IsDenied;
  }

  lemma VisitReportsCover(g: Graph, start: Id, w: Walk, current: Id, d: Id, x: Id)
    requires Sound(g, start, w) && current in w.parent && d !in w.parent
    requires x in Visit(g, w, current, d).parent && x != start && IsDenied(g, x)
    ensures Reported(Visit(g, w, current, d), x)
  {
    var w' := Visit(g, w, current, d);
    VisitAppends(g, start, w, current, d);
    if x == d {
      assert EndsAt(w'.reports[|w.reports|], d);
    } else {
      assert Reported(w, x);
      var i :| 0 <= i < |w.reports| && EndsAt(w.reports[i], x);
      assert EndsAt(w'.reports[i], x);
    }
  }

  lemma VisitKeepsReports(g: Graph, start: Id, w: Walk, current: Id, d: Id)
    requires Sound(g, start, w) && current in w.parent
    ensures ReportsExact(g, start, Visit(g, w, current, d))
  {
    if d !in w.parent {
      var w' := Visit(g, w, current, d);
      VisitAppends(g, start, w, current, d);
      forall i | 0 <= i < |w'.reports|
        ensures ReportHolds(g, start, w', i)
        ensures i < |w.reports| ==> w'.reports[i] == w.reports[i] && !EndsAt(w.reports[i], d)
        ensures i == |w.reports| ==> EndsAt(w'.reports[i], d)
      {
        VisitReportsHold(g, start, w, current, d, i);
        assert i < |w.reports| ==> ReportHolds(g, start, w, i);
      }
      forall x | x in w'.parent && x != start && IsDenied(g, x) ensures Reported(w', x) {
        VisitReportsCover(g, start, w, current, d, x);
      }
    }
  }

  /** Chains are read off the parents and depths alone. */
  lemma {:induction false} SameChains(w: Walk, w': Walk, x: Id)
    requires w'.parent == w.parent && w'.depth == w.depth
    ensures Chain(w', x) == Chain(w, x)
    decreases if x in w.depth then w.depth[x] else 0
  {
    if x in w.parent && w.parent[x].Some? && x in w.depth && w.parent[x].value in w.depth
       && w.depth[w.parent[x].value] < w.depth[x] {
      SameChains(w, w', w.parent[x].value);
    }
  }

  lemma VisitKeepsLayers(g: Graph, w: Walk, current: Id, d: Id)
    requires w.depth.Keys == w.parent.Keys && current in w.parent && Layered(w, w.depth[current])
    ensures Layered(Visit(g, w, current, d), w.depth[current])
    ensures d in Visit(g, w, current, d).depth && Visit(g, w, current, d).depth[d] <= w.depth[current] + 1
  {
  }

  /** Whoever was settled stays settled as more packages are met. */
  lemma VisitKeepsSettled(g: Graph, w: Walk, current: Id, d: Id, y: Id)
    requires w.depth.Keys == w.parent.Keys && Settled(g, w, y)
    ensures Settled(g, Visit(g, w, current, d), y)
  {
  }

  /** Expanding `current` up to its first `n` dependencies. */
  ghost predicate Expanding(g: Graph, start: Id, w: Walk, current: Id, n: nat)
    requires n <= |Deps(g, current)|
  {
    && Sound(g, start, w)
    && current in w.parent && current !in Exempt(g)
    && Layered(w, w.depth[current])
    && (forall y | y in w.parent && y !in w.queue && y !in Exempt(g) && y != current :: Settled(g, w, y))
    && (forall i | 0 <= i < n :: Deps(g, current)[i] in w.depth && w.depth[Deps(g, current)[i]] <= w.depth[current] + 1)
  }

  lemma VisitExpands(g: Graph, start: Id, w: Walk, current: Id, n: nat)
    requires n < |Deps(g, current)| && Expanding(g, start, w, current, n)
    ensures Expanding(g, start, Visit(g, w, current, Deps(g, current)[n]), current, n + 1)
  {
    var d := Deps(g, current)[n];
    var w' := Visit(g, w, current, d);
    VisitKeepsTree(g, start, w, current, d);
    VisitKeepsReports(g, start, w, current, d);
    VisitKeepsLayers(g, w, current, d);
    forall y | y in w'.parent && y !in w'.queue && y !in Exempt(g) && y != current ensures Settled(g, w', y) {
      assert d !in w.parent ==> w'.queue[|w.queue|] == d;
      assert forall q | q in w.queue :: q in w'.queue;
      VisitKeepsSettled(g, w, current, d, y);
    }
  }

  lemma {:induction false} ExpandExpands(g: Graph, start: Id, w: Walk, current: Id, n: nat)
    requires n <= |Deps(g, current)| && Expanding(g, start, w, current, 0)
    ensures Expanding(g, start, Expand(g, w, current, Deps(g, current)[..n]), current, n)
  {
    if n > 0 {
      ExpandExpands(g, start, w, current, n - 1);
      assert Deps(g, current)[..n][..n - 1] == Deps(g, current)[..n - 1];
      VisitExpands(g, start, Expand(g, w, current, Deps(g, current)[..n - 1]), current, n - 1);
    }
  }

  /** What the walk keeps between expansions. */
  ghost predicate Walking(g: Graph, start: Id, w: Walk) {
    && Sound(g, start, w)
    && AllSettled(g, w)
    && (w.queue != [] ==> w.queue[0] in w.depth && Layered(w, w.depth[w.queue[0]]))
    && (forall i | 0 <= i < |w.queue| :: w.queue[i] in w.parent)
  }

  lemma SoundIgnoresQueue(g: Graph, start: Id, w: Walk, w': Walk)
    requires Sound(g, start, w) && w'.parent == w.parent && w'.depth == w.depth && w'.reports == w.reports
    ensures Sound(g, start, w')
  {
    forall x ensures Chain(w', x) == Chain(w, x) {
      SameChains(w, w', x);
    }
    forall i | 0 <= i < |w'.reports| ensures ReportHolds(g, start, w', i) {
      assert ReportHolds(g, start, w, i);
    }
    forall x | x in w'.parent && x != start && IsDenied(g, x) ensures Reported(w', x) {
      var i :| 0 <= i < |w.reports| && EndsAt(w.reports[i], x);
      assert EndsAt(w'.reports[i], x);
    }
  }

  /** After `current` is taken off the queue. */
  lemma Popped(g: Graph, start: Id, w: Walk)
    requires Walking(g, start, w) && w.queue != []
    ensures var w1, current := w.(queue := w.queue[1..]), w.queue[0];
            && Sound(g, start, w1)
            && current in w1.parent
            && Layered(w1, w1.depth[current])
            && (forall y | y in w1.parent && y !in w1.queue && y !in Exempt(g) && y != current :: Settled(g, w1, y))
  {
    var w1, current := w.(queue := w.queue[1..]), w.queue[0];
    SoundIgnoresQueue(g, start, w, w1);
    assert w.queue == [current] + w1.queue;
    forall y | y in w1.parent && y !in w1.queue && y !in Exempt(g) && y != current ensures Settled(g, w1, y) {
      assert Settled(g, w, y);
    }
  }

  /** Between expansions the nearest package in the queue sets the layer. */
  lemma Relayered(w: Walk, near: nat)
    requires Layered(w, near)
    ensures w.queue != [] ==> Layered(w, w.depth[w.queue[0]])
  {
  }

  /** What comes next: another package if `current` is exempt, else the expansion of `current`. */
  lemma PoppedNext(g: Graph, start: Id, w: Walk)
    requires Walking(g, start, w) && w.queue != []
    ensures var w1, current := w.(queue := w.queue[1..]), w.queue[0];
            if current in Exempt(g) then Walking(g, start, w1) else Expanding(g, start, w1, current, 0)
  {
    Popped(g, start, w);
    Relayered(w.(queue := w.queue[1..]), w.depth[w.queue[0]]);
  }

  lemma {:induction false} FinishWalks(g: Graph, start: Id, w: Walk)
    requires Walking(g, start, w)
    ensures Walking(g, start, Finish(g, w)) && Finish(g, w).queue == []
    decreases Unmet(g, w), |w.queue|
  {
    hide Walking, Expanding;
    if w.queue != [] {
      var current, w1 := w.queue[0], w.(queue := w.queue[1..]);
      PoppedNext(g, start, w);
      if current in Exempt(g) {
        FinishWalks(g, start, w1);
      } else {
        var deps := Deps(g, current);
        ExpandMeets(g, w1, current, deps);
        ExpandExpands(g, start, w1, current, |deps|);
        assert deps[..|deps|] == deps;
        var e := Expand(g, w1, current, deps);
        ExpandedWalks(g, start, e, current);
        FinishWalks(g, start, e);
      }
    }
  }

  lemma ExpandedWalks(g: Graph, start: Id, e: Walk, current: Id)
    requires Expanding(g, start, e, current, |Deps(g, current)|)
    ensures Walking(g, start, e)
  {
  }

  lemma BeginWalks(g: Graph, start: Id)
    ensures Walking(g, start, Begin(start))
  {
  }

  // ---- the theorems ----

  /** A path's packages are all met, none farther than its place on the path. */
  lemma {:induction false} PathIsMet(g: Graph, start: Id, w: Walk, p: seq<Id>, k: nat)
    requires Walking(g, start, w) && w.queue == [] && IsPath(g, start, p) && k < |p|
    ensures p[k] in w.depth && w.depth[p[k]] <= k
  {
    if k > 0 {
      PathIsMet(g, start, w, p, k - 1);
      assert Settled(g, w, p[k - 1]);
    }
  }

  /** The walk meets exactly what some path reaches. */
  lemma WalkMeetsExactlyTheReachable(g: Graph, start: Id, x: Id)
    ensures x in WalkFrom(g, start).parent <==> Reachable(g, start, x)
  {
    var w := WalkFrom(g, start);
    BeginWalks(g, start);
    FinishWalks(g, start, Begin(start));
    if x in w.parent {
      ChainIsPath(g, start, w, x);
    }
    if Reachable(g, start, x) {
      var p :| PathTo(g, start, p, x);
      PathIsMet(g, start, w, p, |p| - 1);
    }
  }

  /** Every reported chain is a path to a denied package, and none is shorter. */
  lemma ReportedChainsAreShortestPaths(g: Graph, start: Id, i: nat, p: seq<Id>)
    requires i < |WalkFrom(g, start).reports|
    ensures var chain := WalkFrom(g, start).reports[i];
            && IsPath(g, start, chain)
            && chain[|chain| - 1] != start && IsDenied(g, chain[|chain| - 1])
            && (PathTo(g, start, p, chain[|chain| - 1]) ==> |chain| <= |p|)
  {
    var w := WalkFrom(g, start);
    BeginWalks(g, start);
    FinishWalks(g, start, Begin(start));
    assert ReportHolds(g, start, w, i);
    var x := w.reports[i][|w.reports[i]| - 1];
    ChainIsPath(g, start, w, x);
    if PathTo(g, start, p, x) {
      PathIsMet(g, start, w, p, |p| - 1);
    }
  }

  /** A denied package other than the start is reported if and only if some path reaches it, and then once. */
  lemma DeniedIsReportedOnceIffReachable(g: Graph, start: Id, x: Id)
    requires IsDenied(g, x) && x != start
    ensures Reachable(g, start, x) <==>
            exists i :: 0 <= i < |WalkFrom(g, start).reports| && EndsAt(WalkFrom(g, start).reports[i], x)
    ensures forall i, j | 0 <= i < j < |WalkFrom(g, start).reports| ::
              !(EndsAt(WalkFrom(g, start).reports[i], x) && EndsAt(WalkFrom(g, start).reports[j], x))
  {
    var w := WalkFrom(g, start);
    BeginWalks(g, start);
    FinishWalks(g, start, Begin(start));
    WalkMeetsExactlyTheReachable(g, start, x);
    forall i | 0 <= i < |w.reports| && EndsAt(w.reports[i], x)
      ensures x in w.parent && w.reports[i] == Chain(w, x)
    {
      assert ReportHolds(g, start, w, i);
    }
  }

  /** Two graphs that differ only in what the exempt packages depend on. */
  ghost predicate SameBeforeChokepoint(g: Graph, h: Graph) {
    && h.(edges := g.edges) == g
    && forall k | k !in Exempt(g) :: Deps(h, k) == Deps(g, k)
  }

  lemma {:induction false} ExpandSame(g: Graph, h: Graph, w: Walk, current: Id, deps: seq<Id>)
    requires SameBeforeChokepoint(g, h)
    ensures Expand(h, w, current, deps) == Expand(g, w, current, deps)
  {
    if deps != [] {
      ExpandSame(g, h, w, current, deps[..|deps| - 1]);
    }
  }

  lemma {:induction false} FinishSame(g: Graph, h: Graph, w: Walk)
    requires SameBeforeChokepoint(g, h)
    ensures Finish(h, w) == Finish(g, w)
    decreases Unmet(g, w), |w.queue|
  {
    assert Exempt(h) == Exempt(g);
    if w.queue != [] {
      var current, w1 := w.queue[0], w.(queue := w.queue[1..]);
      if current in Exempt(g) {
        FinishSame(g, h, w1);
      } else {
        ExpandMeets(g, w1, current, Deps(g, current));
        ExpandSame(g, h, w1, current, Deps(g, current));
        FinishSame(g, h, Expand(g, w1, current, Deps(g, current)));
      }
    }
  }

  lemma {:induction false} DeclaredSame(g: Graph, h: Graph, member: Id, w: Walk, declared: seq<string>)
    requires SameBeforeChokepoint(g, h)
    ensures DeclaredReports(h, member, w, declared) == DeclaredReports(g, member, w, declared)
  {
    if declared != [] {
      DeclaredSame(g, h, member, w, declared[..|declared| - 1]);
    }
  }

  lemma {:induction false} AllReportsSame(g: Graph, h: Graph, members: seq<Id>)
    requires SameBeforeChokepoint(g, h) && forall m | m in members :: m in g.packages
    ensures AllReports(h, members) == AllReports(g, members)
  {
    assert Exempt(h) == Exempt(g);
    if members != [] {
      var last := members[|members| - 1];
      AllReportsSame(g, h, members[..|members| - 1]);
      FinishSame(g, h, Begin(last));
      DeclaredSame(g, h, last, WalkFrom(g, last), g.packages[last].declared);
    }
  }

  /** What the chokepoint itself depends on changes no report. It can only decide whether there is a verdict at
      all: a graph with no edge anywhere has none. */
  lemma ChokepointEdgesChangeNothing(g: Graph, h: Graph)
    requires SameBeforeChokepoint(g, h) && (HasEdge(g) <==> HasEdge(h))
    ensures Verdict(h) == Verdict(g)
  {
    if MembersKnown(g) {
      AllReportsSame(g, h, g.members);
    }
  }

  /** Two graphs alike before the chokepoint get the same verdict exactly when both or neither have an edge, or
      there is nothing to report on, or the members are unknown to both. */
  lemma ChokepointEdgesDecideOnlyWhetherThereIsAVerdict(g: Graph, h: Graph)
    requires SameBeforeChokepoint(g, h)
    ensures Verdict(h) == Verdict(g) <==> !MembersKnown(g) || g.members == [] || (HasEdge(g) <==> HasEdge(h))
  {
    if MembersKnown(g) {
      AllReportsSame(g, h, g.members);
    }
  }

  // ---- declared names ----

  lemma {:induction false} DeclaredIsReported(g: Graph, member: Id, w: Walk, declared: seq<string>, name: string)
    requires name in declared && g.normalise(name) in g.denied && g.normalise(name) !in WalkedNames(g, w)
    ensures Declared(member, name) in DeclaredReports(g, member, w, declared)
  {
    if name != declared[|declared| - 1] {
      DeclaredIsReported(g, member, w, declared[..|declared| - 1], name);
    }
  }

  lemma {:induction false} OnlyDeclaredIsReported(g: Graph, member: Id, w: Walk, declared: seq<string>, r: Problem)
    requires r in DeclaredReports(g, member, w, declared)
    ensures r.Declared? && r.member == member && r.name in declared
    ensures g.normalise(r.name) in g.denied && g.normalise(r.name) !in WalkedNames(g, w)
  {
    if r in DeclaredReports(g, member, w, declared[..|declared| - 1]) {
      OnlyDeclaredIsReported(g, member, w, declared[..|declared| - 1], r);
    }
  }

  /** Every denied name a member declares is reported, as reached or as declared, unless the member itself
      bears it. */
  lemma DeclaredDeniedNamesAreReported(g: Graph, member: Id, name: string)
    requires member in g.packages && name in g.packages[member].declared
    requires g.normalise(name) in g.denied && g.normalise(name) != g.normalise(NameOf(g, member))
    ensures exists r | r in MemberReports(g, member) ::
              r == Declared(member, name)
              || (r.Reach? && r.member == member && r.chain != []
                  && g.normalise(NameOf(g, r.chain[|r.chain| - 1])) == g.normalise(name))
  {
    var w := WalkFrom(g, member);
    if g.normalise(name) in WalkedNames(g, w) {
      var id :| id in w.parent && g.normalise(NameOf(g, id)) == g.normalise(name);
      BeginWalks(g, member);
      FinishWalks(g, member, Begin(member));
      assert Reported(w, id);
      var i :| 0 <= i < |w.reports| && EndsAt(w.reports[i], id);
      var r := MemberReports(g, member)[i];
      assert r == Reach(member, w.reports[i]);
      assert r in MemberReports(g, member);
    } else {
      DeclaredIsReported(g, member, w, g.packages[member].declared, name);
      assert Declared(member, name) in MemberReports(g, member);
    }
  }
}
