/** What the whole check reports, in paths between members and denied packages. */
module EgressVerdict {
  import opened Common
  import opened Egress
  import opened EgressPaths

  /** A member that is the chokepoint: by its name, folded. */
  predicate IsChokepoint(g: Graph, m: Id) {
    m in g.members && g.normalise(if m in g.packages then g.packages[m].name else m) == "evreos-net"
  }

  /** A member the check walks from. */
  predicate IsChecked(g: Graph, m: Id) {
    m in g.members && !IsChokepoint(g, m)
  }

  /** `y` depends on `d` and is not the chokepoint. */
  predicate Leads(g: Graph, y: Id, d: Id) {
    !IsChokepoint(g, y) && y in g.edges && d in g.edges[y]
  }

  /** A way from `m` to `x` along dependencies that leaves no chokepoint on the way. */
  ghost predicate EgressPath(g: Graph, m: Id, path: seq<Id>, x: Id) {
    && path != [] && path[0] == m && path[|path| - 1] == x
    && forall i | 0 <= i < |path| - 1 :: Leads(g, path[i], path[i + 1])
  }

  ghost predicate Reaches(g: Graph, m: Id, x: Id) {
    exists path :: EgressPath(g, m, path, x)
  }

  /** Some report of the check is a chain from `m` that ends in `x`. */
  ghost predicate ReportsReach(problems: seq<Problem>, m: Id, x: Id) {
    exists chain :: EndsAt(chain, x) && Reach(m, chain) in problems
  }

  /** `m` declares a denied name that nothing it reaches bears. */
  ghost predicate DeclaresUnmet(g: Graph, m: Id, name: string) {
    && m in g.packages && name in g.packages[m].declared && g.normalise(name) in g.denied
    && forall y | Reaches(g, m, y) :: g.normalise(NameOf(g, y)) != g.normalise(name)
  }

  // ---- the walk's vocabulary ----

  lemma LeadsIff(g: Graph, y: Id, d: Id)
    ensures Leads(g, y, d) <==> y !in Exempt(g) && d in Deps(g, y)
  {
  }

  lemma EgressPathIsPath(g: Graph, m: Id, path: seq<Id>, x: Id)
    ensures EgressPath(g, m, path, x) <==> PathTo(g, m, path, x)
  {
    hide Exempt, Deps, Leads;
    if EgressPath(g, m, path, x) {
      forall i | 0 <= i < |path| - 1 ensures path[i] !in Exempt(g) && path[i + 1] in Deps(g, path[i]) {
        LeadsIff(g, path[i], path[i + 1]);
      }
    }
    if PathTo(g, m, path, x) {
      forall i | 0 <= i < |path| - 1 ensures Leads(g, path[i], path[i + 1]) {
        LeadsIff(g, path[i], path[i + 1]);
      }
    }
  }

  lemma ReachesIsReachable(g: Graph, m: Id, x: Id)
    ensures Reaches(g, m, x) <==> Reachable(g, m, x)
  {
    hide EgressPath, PathTo;
    forall path ensures EgressPath(g, m, path, x) <==> PathTo(g, m, path, x) {
      EgressPathIsPath(g, m, path, x);
    }
  }

  lemma CheckedIs(g: Graph, m: Id)
    ensures IsChecked(g, m) <==> m in g.members && m !in Exempt(g)
  {
  }

  // ---- from the members' reports to the verdict ----

  lemma {:induction false} ReportsAreTheMembers(g: Graph, members: seq<Id>, r: Problem)
    requires forall m | m in members :: m in g.packages
    ensures r in AllReports(g, members) <==> exists m :: m in members && m !in Exempt(g) && r in MemberReports(g, m)
  {
    hide MemberReports, Exempt;
    if members != [] {
      var init, last := members[..|members| - 1], members[|members| - 1];
      assert members == init + [last];
      ReportsAreTheMembers(g, init, r);
    }
  }

  lemma MemberReportsBear(g: Graph, m: Id, r: Problem)
    requires m in g.packages && r in MemberReports(g, m)
    ensures r.member == m
    ensures r.Reach? ==> r.chain in WalkFrom(g, m).reports
    ensures r.Declared? ==> r in DeclaredReports(g, m, WalkFrom(g, m), g.packages[m].declared)
  {
    var w := WalkFrom(g, m);
    if r in DeclaredReports(g, m, w, g.packages[m].declared) {
      OnlyDeclaredIsReported(g, m, w, g.packages[m].declared, r);
    }
  }

  lemma ReachIsReported(g: Graph, m: Id, chain: seq<Id>)
    requires m in g.packages
    ensures Reach(m, chain) in MemberReports(g, m) <==> chain in WalkFrom(g, m).reports
  {
    var w := WalkFrom(g, m);
    if chain in w.reports {
      var i :| 0 <= i < |w.reports| && w.reports[i] == chain;
      assert MemberReports(g, m)[i] == Reach(m, chain);
    } else if Reach(m, chain) in MemberReports(g, m) {
      MemberReportsBear(g, m, Reach(m, chain));
    }
  }

  lemma NameIsMet(g: Graph, m: Id, name: string)
    ensures g.normalise(name) in WalkedNames(g, WalkFrom(g, m))
            <==> exists y :: Reaches(g, m, y) && g.normalise(NameOf(g, y)) == g.normalise(name)
  {
    hide Reaches;
    forall y ensures y in WalkFrom(g, m).parent <==> Reaches(g, m, y) {
      WalkMeetsExactlyTheReachable(g, m, y);
      ReachesIsReachable(g, m, y);
    }
  }

  lemma DeclaredIsReportedIff(g: Graph, m: Id, name: string)
    requires m in g.packages
    ensures Declared(m, name) in MemberReports(g, m) <==> DeclaresUnmet(g, m, name)
  {
    hide Reaches, WalkFrom, WalkedNames, MemberReports;
    var w := WalkFrom(g, m);
    NameIsMet(g, m, name);
    DeclaredAmong(g, m, name);
    if DeclaresUnmet(g, m, name) {
      DeclaredIsReported(g, m, w, g.packages[m].declared, name);
    } else if Declared(m, name) in DeclaredReports(g, m, w, g.packages[m].declared) {
      OnlyDeclaredIsReported(g, m, w, g.packages[m].declared, Declared(m, name));
    }
  }

  lemma DeclaredAmong(g: Graph, m: Id, name: string)
    requires m in g.packages
    ensures Declared(m, name) in MemberReports(g, m)
            <==> Declared(m, name) in DeclaredReports(g, m, WalkFrom(g, m), g.packages[m].declared)
  {
    hide WalkFrom;
    var reach := ReachReports(m, WalkFrom(g, m).reports);
    assert Declared(m, name) !in reach;
  }

  lemma ChainsAreOfTheirMember(g: Graph, m: Id, x: Id)
    requires m in g.packages && x != m && IsDenied(g, x)
    ensures (exists chain :: EndsAt(chain, x) && Reach(m, chain) in MemberReports(g, m)) <==> Reaches(g, m, x)
  {
    hide MemberReports, WalkFrom, EndsAt, Reaches, Reachable;
    DeniedIsReportedOnceIffReachable(g, m, x);
    ReachesIsReachable(g, m, x);
    var reports := WalkFrom(g, m).reports;
    if chain :| EndsAt(chain, x) && Reach(m, chain) in MemberReports(g, m) {
      ReachIsReported(g, m, chain);
      var i :| 0 <= i < |reports| && reports[i] == chain;
      assert EndsAt(reports[i], x);
    }
    if i :| 0 <= i < |reports| && EndsAt(reports[i], x) {
      ReachIsReported(g, m, reports[i]);
    }
  }

  lemma InVerdict(g: Graph, r: Problem)
    requires Verdict(g).Ok?
    ensures r in Verdict(g).value <==> IsChecked(g, r.member) && r.member in g.packages && r in MemberReports(g, r.member)
  {
    hide MemberReports, AllReports, IsChecked, HasEdge;
    ReportsAreTheMembers(g, g.members, r);
    CheckedIs(g, r.member);
    if m :| m in g.members && m !in Exempt(g) && r in MemberReports(g, m) {
      MemberReportsBear(g, m, r);
    }
  }

  // ---- the theorems ----

  /** The check reports a denied package for a member if and only if it walks from that member, which does not bear it
      itself, and some way leads from one to the other that leaves no chokepoint. */
  lemma ReportedIffReached(g: Graph, m: Id, x: Id)
    requires Verdict(g).Ok? && IsDenied(g, x) && x != m
    ensures ReportsReach(Verdict(g).value, m, x) <==> IsChecked(g, m) && Reaches(g, m, x)
  {
    hide Verdict, MemberReports, Reaches, IsChecked, EndsAt;
    forall chain
      ensures Reach(m, chain) in Verdict(g).value
              <==> IsChecked(g, m) && m in g.packages && Reach(m, chain) in MemberReports(g, m)
    {
      InVerdict(g, Reach(m, chain));
    }
    MembersArePackages(g, m);
    if m in g.packages {
      ChainsAreOfTheirMember(g, m, x);
    }
  }

  lemma MembersArePackages(g: Graph, m: Id)
    requires Verdict(g).Ok?
    ensures IsChecked(g, m) ==> m in g.packages
  {
  }

  /** Each chain reported is a shortest such way, to a denied package other than the member. */
  lemma ReportedChainsAreEgress(g: Graph, m: Id, chain: seq<Id>, other: seq<Id>)
    requires Verdict(g).Ok? && Reach(m, chain) in Verdict(g).value
    ensures chain != [] && IsChecked(g, m)
    ensures var x := chain[|chain| - 1];
            && EgressPath(g, m, chain, x) && x != m && IsDenied(g, x)
            && (EgressPath(g, m, other, x) ==> |chain| <= |other|)
  {
    hide Verdict, WalkFrom, MemberReports, IsDenied, IsChecked;
    InVerdict(g, Reach(m, chain));
    MemberReportsBear(g, m, Reach(m, chain));
    var i :| 0 <= i < |WalkFrom(g, m).reports| && WalkFrom(g, m).reports[i] == chain;
    ReportedChainsAreShortestPaths(g, m, i, other);
    EgressPathIsPath(g, m, chain, chain[|chain| - 1]);
    EgressPathIsPath(g, m, other, chain[|chain| - 1]);
  }

  /** The check reports a declared name exactly if it is denied and nothing the member reaches bears it. */
  lemma DeclaredIffUnmet(g: Graph, m: Id, name: string)
    requires Verdict(g).Ok?
    ensures Declared(m, name) in Verdict(g).value <==> IsChecked(g, m) && DeclaresUnmet(g, m, name)
  {
    hide Verdict, MemberReports, DeclaresUnmet, IsChecked;
    InVerdict(g, Declared(m, name));
    MembersArePackages(g, m);
    if m in g.packages {
      DeclaredIsReportedIff(g, m, name);
    }
  }

  /** There is a verdict unless a member is no package, or no package depends on any. */
  lemma VerdictIff(g: Graph)
    ensures Verdict(g).Ok? <==>
            && (forall m | m in g.members :: m in g.packages)
            && (g.members == [] || exists k, d :: k in g.edges && d in g.edges[k])
  {
    if k, d :| k in g.edges && d in g.edges[k] {
      assert g.edges[k] != [];
    }
    if HasEdge(g) {
      var k :| k in g.edges && g.edges[k] != [];
      assert g.edges[k][0] in g.edges[k];
    }
  }

  // ---- nothing is reported twice ----

  lemma NoRepeatsJoin<T>(a: seq<T>, b: seq<T>)
    requires NoRepeats(a) && NoRepeats(b) && forall x | x in a :: x !in b
    ensures NoRepeats(a + b)
  {
    forall i, j | 0 <= i < j < |a + b| ensures (a + b)[i] != (a + b)[j] {
      if i < |a| <= j {
        assert a[i] in a && b[j - |a|] in b;
      }
    }
  }

  lemma {:induction false} DeclaredOnce(g: Graph, m: Id, w: Walk, declared: seq<string>)
    requires NoRepeats(declared)
    ensures NoRepeats(DeclaredReports(g, m, w, declared))
  {
    if declared != [] {
      var init := declared[..|declared| - 1];
      DeclaredOnce(g, m, w, init);
      var r := Declared(m, declared[|declared| - 1]);
      if r in DeclaredReports(g, m, w, init) {
        OnlyDeclaredIsReported(g, m, w, init, r);
      }
    }
  }

  lemma MemberOnce(g: Graph, m: Id)
    requires m in g.packages && NoRepeats(g.packages[m].declared)
    ensures NoRepeats(MemberReports(g, m))
  {
    var w := WalkFrom(g, m);
    BeginWalks(g, m);
    FinishWalks(g, m, Begin(m));
    var reach, declared := ReachReports(m, w.reports), DeclaredReports(g, m, w, g.packages[m].declared);
    DeclaredOnce(g, m, w, g.packages[m].declared);
    forall r | r in reach ensures r !in declared {
      if r in declared {
        OnlyDeclaredIsReported(g, m, w, g.packages[m].declared, r);
      }
    }
    hide WalkFrom, DeclaredReports;
    NoRepeatsJoin(reach, declared);
  }

  lemma {:induction false} AllOnce(g: Graph, members: seq<Id>)
    requires NoRepeats(members)
    requires forall m | m in members :: m in g.packages && NoRepeats(g.packages[m].declared)
    ensures NoRepeats(AllReports(g, members))
  {
    hide MemberReports, Exempt;
    if members != [] {
      var init, last := members[..|members| - 1], members[|members| - 1];
      AllOnce(g, init);
      MemberOnce(g, last);
      forall r | r in AllReports(g, init) ensures r !in MemberReports(g, last) {
        ReportsAreTheMembers(g, init, r);
        var m :| m in init && m !in Exempt(g) && r in MemberReports(g, m);
        MemberReportsBear(g, m, r);
        if r in MemberReports(g, last) {
          MemberReportsBear(g, last, r);
        }
      }
      NoRepeatsJoin(AllReports(g, init), if last in Exempt(g) then [] else MemberReports(g, last));
    }
  }

  /** Where neither members nor a member's declared names repeat, neither does a report. */
  lemma NothingIsReportedTwice(g: Graph)
    requires Verdict(g).Ok? && NoRepeats(g.members)
    requires forall m | m in g.members && m in g.packages :: NoRepeats(g.packages[m].declared)
    ensures NoRepeats(Verdict(g).value)
  {
    AllOnce(g, g.members);
  }
}
