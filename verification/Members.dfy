/**
 The member directories of a workspace: those it lists, and every path dependency under its root that a
 member declares or inherits. The walk is a recursion over a graph that may have cycles; it is described by
 how far it has come, so that each call's part can be joined to the part before it.
 */
module Members {
  import opened Common

  /** A directory, resolved. */
  type Dir = string

  /** What a directory's manifest says: the paths it depends on, and the names it takes from the workspace's table. */
  datatype Manifest = Unparsable | Parsed(paths: seq<string>, inherits: seq<string>)

  /** One `members` entry: not a path at all, a pattern with its matches if it is one, or a path. */
  datatype Listed = NotAPath | Pattern(matches: Option<seq<Dir>>) | Plain(path: string)

  /** `resolve` is the file system's reading of a path from a directory; `Unreadable` entries of `exclude` are none. */
  datatype Workspace = Workspace(root: Dir, isPackage: bool, exclude: seq<string>, listed: seq<Listed>,
                                 declared: map<string, string>, manifests: map<Dir, Manifest>,
                                 resolve: (Dir, string) -> Option<Dir>, underRoot: Dir -> bool)

  datatype Problem =
    | BadExclude(path: string)
    | NoManifest(dir: Dir)
    | BadDependency(dir: Dir)
    | BadListed(position: nat)
    | NothingMatches(position: nat)

  // ---- what the members are ----

  predicate Excluded(w: Workspace, d: Dir) {
    exists i :: 0 <= i < |w.exclude| && w.resolve(w.root, w.exclude[i]) == Some(d)
  }

  predicate Eligible(w: Workspace, d: Dir) { !Excluded(w, d) && d in w.manifests }

  function OwnPaths(w: Workspace, d: Dir, paths: seq<string>): seq<Option<Dir>> {
    if paths == [] then [] else [w.resolve(d, paths[0])] + OwnPaths(w, d, paths[1..])
  }

  /** An inherited path is written from the root, where it is declared. */
  function InheritedPaths(w: Workspace, names: seq<string>): seq<Option<Dir>> {
    if names == [] then []
    else if names[0] in w.declared then [w.resolve(w.root, w.declared[names[0]])] + InheritedPaths(w, names[1..])
    else InheritedPaths(w, names[1..])
  }

  function Dependencies(w: Workspace, d: Dir): seq<Option<Dir>>
    requires d in w.manifests
  {
    match w.manifests[d]
    case Unparsable => []
    case Parsed(paths, inherits) => OwnPaths(w, d, paths) + InheritedPaths(w, inherits)
  }

  /** What a directory depends on: what its own paths come to from it, and what the names it takes from the workspace's
      table come to from the root. `to` is none where a path cannot be read. */
  ghost predicate DependsOn(w: Workspace, d: Dir, to: Option<Dir>) {
    && d in w.manifests && w.manifests[d].Parsed?
    && ((exists path :: path in w.manifests[d].paths && w.resolve(d, path) == to)
        || (exists name :: name in w.manifests[d].inherits && name in w.declared && w.resolve(w.root, w.declared[name]) == to))
  }

  lemma {:induction false} OwnPathsHas(w: Workspace, d: Dir, paths: seq<string>, to: Option<Dir>)
    ensures to in OwnPaths(w, d, paths) <==> exists path :: path in paths && w.resolve(d, path) == to
  {
    if paths != [] {
      OwnPathsHas(w, d, paths[1..], to);
      assert paths == [paths[0]] + paths[1..];
    }
  }

  lemma {:induction false} InheritedPathsHas(w: Workspace, names: seq<string>, to: Option<Dir>)
    ensures to in InheritedPaths(w, names)
            <==> exists name :: name in names && name in w.declared && w.resolve(w.root, w.declared[name]) == to
  {
    if names != [] {
      InheritedPathsHas(w, names[1..], to);
      assert names == [names[0]] + names[1..];
    }
  }

  /** The walk follows exactly what is depended on, and under the root. */
  lemma FollowsIff(w: Workspace, d: Dir, x: Dir)
    ensures Follows(w, d, x) <==> DependsOn(w, d, Some(x)) && w.underRoot(x)
    ensures d in w.manifests ==> (None in Dependencies(w, d) <==> DependsOn(w, d, None))
  {
    if d in w.manifests && w.manifests[d].Parsed? {
      OwnPathsHas(w, d, w.manifests[d].paths, Some(x));
      InheritedPathsHas(w, w.manifests[d].inherits, Some(x));
      OwnPathsHas(w, d, w.manifests[d].paths, None);
      InheritedPathsHas(w, w.manifests[d].inherits, None);
    }
  }

  /** `d` depends on `x`, by its own path or an inherited one, and `x` is under the root. */
  predicate Follows(w: Workspace, d: Dir, x: Dir) {
    d in w.manifests && Some(x) in Dependencies(w, d) && w.underRoot(x)
  }

  function ListedAt(w: Workspace, l: Listed): seq<Dir> {
    match l
    case NotAPath => []
    case Pattern(matches) => if matches.Some? then matches.value else []
    case Plain(path) => if w.resolve(w.root, path).Some? then [w.resolve(w.root, path).value] else []
  }

  /** The root's own package, and what the list names. */
  predicate IsListed(w: Workspace, d: Dir) {
    (w.isPackage && d == w.root) || exists i :: 0 <= i < |w.listed| && d in ListedAt(w, w.listed[i])
  }

  /** What is listed: the root's own package if it is one, each match of a pattern, and what each other path comes to. */
  lemma ListedIff(w: Workspace, d: Dir)
    ensures IsListed(w, d) <==>
            || (w.isPackage && d == w.root)
            || exists l :: l in w.listed && ((l.Plain? && w.resolve(w.root, l.path) == Some(d))
                                             || (l.Pattern? && l.matches.Some? && d in l.matches.value))
  {
    if i :| 0 <= i < |w.listed| && d in ListedAt(w, w.listed[i]) {
      assert w.listed[i] in w.listed;
    }
    if l :| l in w.listed && d in ListedAt(w, l) {
      var i :| 0 <= i < |w.listed| && w.listed[i] == l;
    }
  }

  /** Every eligible directory a member of `s` follows is in it. */
  ghost predicate Closed(w: Workspace, s: set<Dir>) {
    forall d, x | d in s && Follows(w, d, x) && Eligible(w, x) :: x in s
  }

  function Set(dirs: seq<Dir>): set<Dir> { set d | d in dirs }

  /** `members` is the least set with every eligible directory listed, or followed from a member, in it. */
  ghost predicate AreTheMembers(w: Workspace, members: set<Dir>) {
    && (forall d | d in members :: Eligible(w, d))
    && (forall d | IsListed(w, d) && Eligible(w, d) :: d in members)
    && Closed(w, members)
    && forall s: set<Dir> | Closed(w, s) && (forall d | IsListed(w, d) && Eligible(w, d) :: d in s) :: members <= s
  }

  lemma TheMembersAreUnique(w: Workspace, a: set<Dir>, b: set<Dir>)
    requires AreTheMembers(w, a) && AreTheMembers(w, b)
    ensures a == b
  {
  }

  // ---- the walk ----

  predicate Missing(w: Workspace, d: Dir) { !Excluded(w, d) && d !in w.manifests }

  /** How far the walk has come: the members and the problems, in the order they were met. */
  datatype Progress = Progress(members: seq<Dir>, problems: seq<Problem>)

  predicate Met(a: Progress, b: Progress, m: Dir) { m in b.members && m !in a.members }

  predicate Reported(a: Progress, b: Progress, x: Dir) { NoManifest(x) in b.problems && NoManifest(x) !in a.problems }

  ghost predicate Sound(w: Workspace, a: Progress) {
    NoRepeats(a.members) && forall d | d in a.members :: Eligible(w, d)
  }

  /** Each directory of `from` is a member or reported. */
  ghost predicate Handled(w: Workspace, b: Progress, from: set<Dir>) {
    forall d | d in from :: (Eligible(w, d) ==> d in b.members) && (Missing(w, d) ==> NoManifest(d) in b.problems)
  }

  /** Whatever a new member follows is a member or reported. */
  ghost predicate Complete(w: Workspace, a: Progress, b: Progress) {
    forall m, x | Met(a, b, m) && Follows(w, m, x) ::
      (Eligible(w, x) ==> x in b.members) && (Missing(w, x) ==> NoManifest(x) in b.problems)
  }

  /** What is new is there because of `from`: a member of every closed set that has it, or reported as followed. */
  ghost predicate Needed(w: Workspace, a: Progress, b: Progress, from: set<Dir>) {
    && (forall s: set<Dir>, m | Closed(w, s) && (forall d | d in from && Eligible(w, d) :: d in s) && Met(a, b, m) :: m in s)
    && (forall x | Reported(a, b, x) :: Missing(w, x) && (x in from || exists m :: Met(a, b, m) && Follows(w, m, x)))
  }

  /** The walk went on from `a` to `b` with the directories of `from`, and with what they lead to, as far as it goes. */
  ghost predicate Explored(w: Workspace, a: Progress, b: Progress, from: set<Dir>) {
    && Sound(w, b) && a.members <= b.members && a.problems <= b.problems
    && Handled(w, b, from) && Complete(w, a, b) && Needed(w, a, b, from)
  }

  lemma ExploredOnwards(w: Workspace, a: Progress, b: Progress, c: Progress, from: set<Dir>, d: Dir)
    requires Explored(w, a, b, from) && Explored(w, b, c, {d})
    ensures Explored(w, a, c, from + {d})
  {
  }

  lemma ExploredNothing(w: Workspace, a: Progress)
    requires Sound(w, a)
    ensures Explored(w, a, a, {})
  {
  }

  lemma SoundWith(w: Workspace, a: Progress, d: Dir)
    requires Sound(w, a) && Eligible(w, d) && d !in a.members
    ensures Sound(w, a.(members := a.members + [d]))
  {
    hide Eligible;
  }

  lemma StartIsSound(w: Workspace, a: Progress)
    requires a.members == []
    ensures Sound(w, a)
  {
  }

  // ---- the other problems ----

  /** Some path the member depends on, its own or an inherited one, cannot be read. */
  predicate HasBadPath(w: Workspace, d: Dir) {
    d in w.manifests && None in Dependencies(w, d)
  }

  predicate OfTheList(p: Problem) { p.BadExclude? || p.BadListed? || p.NothingMatches? }

  /** From `a` to `b` just the new members with a path that cannot be read were noted, and of those whose walk goes on `d`
      if `bad`; and no problem of the list. */
  ghost predicate NotedBut(w: Workspace, a: Progress, b: Progress, d: Dir, bad: bool) {
    && (forall x :: BadDependency(x) in b.problems
                    <==> BadDependency(x) in a.problems || (Met(a, b, x) && HasBadPath(w, x)) || (bad && x == d))
    && (forall p | OfTheList(p) :: p in b.problems <==> p in a.problems)
  }

  ghost predicate Noted(w: Workspace, a: Progress, b: Progress) {
    && (forall x :: BadDependency(x) in b.problems <==> BadDependency(x) in a.problems || (Met(a, b, x) && HasBadPath(w, x)))
    && (forall p | OfTheList(p) :: p in b.problems <==> p in a.problems)
  }

  lemma NotedNothing(w: Workspace, a: Progress, d: Dir)
    ensures Noted(w, a, a) && NotedBut(w, a, a, d, false)
    ensures Noted(w, a, a.(problems := a.problems + [NoManifest(d)]))
  {
    hide HasBadPath;
  }

  lemma NotedBad(w: Workspace, a: Progress, b: Progress, d: Dir, bad: bool)
    requires NotedBut(w, a, b, d, bad)
    ensures NotedBut(w, a, b.(problems := b.problems + [BadDependency(d)]), d, true)
  {
    hide HasBadPath;
  }

  lemma NotedButOn(w: Workspace, a: Progress, b: Progress, c: Progress, d: Dir, bad: bool)
    requires a.members <= b.members <= c.members && NotedBut(w, a, b, d, bad) && Noted(w, b, c)
    ensures NotedBut(w, a, c, d, bad)
  {
    hide HasBadPath;
    MetOnwards(a, b, c);
    hide Met;
  }

  lemma MetOnwards(a: Progress, b: Progress, c: Progress)
    requires a.members <= b.members <= c.members
    ensures forall x :: Met(a, c, x) <==> Met(a, b, x) || Met(b, c, x)
  {
  }

  lemma NotedMember(w: Workspace, a: Progress, d: Dir, b: Progress)
    requires d !in a.members && a.members + [d] <= b.members
    requires NotedBut(w, a.(members := a.members + [d]), b, d, HasBadPath(w, d))
    ensures Noted(w, a, b)
  {
    var a1 := a.(members := a.members + [d]);
    assert d in a1.members && d in b.members by {
      assert a1.members[|a.members|] == d && b.members[|a.members|] == d;
    }
    assert forall x :: Met(a, b, x) <==> x == d || Met(a1, b, x);
    hide HasBadPath, Met;
  }

  /** A problem of another kind changes nothing else. */
  lemma ExploredNoting(w: Workspace, a: Progress, b: Progress, from: set<Dir>, problem: Problem)
    requires Explored(w, a, b, from) && !problem.NoManifest?
    ensures Explored(w, a, b.(problems := b.problems + [problem]), from)
  {
  }

  function FollowedAmong(w: Workspace, dependencies: seq<Option<Dir>>): (r: set<Dir>)
    ensures forall x :: x in r <==> Some(x) in dependencies && w.underRoot(x)
  {
    if dependencies == [] then {}
    else
      var n := |dependencies| - 1;
      var rest := FollowedAmong(w, dependencies[..n]);
      assert dependencies == dependencies[..n] + [dependencies[n]];
      if dependencies[n].Some? && w.underRoot(dependencies[n].value) then rest + {dependencies[n].value} else rest
  }

  /** A new member together with what it follows. */
  lemma ExploredMember(w: Workspace, a: Progress, d: Dir, b: Progress)
    requires Sound(w, a) && Eligible(w, d) && d in w.manifests && d !in a.members
    requires Explored(w, a.(members := a.members + [d]), b, FollowedAmong(w, Dependencies(w, d)))
    ensures Explored(w, a, b, {d})
  {
    assert !Missing(w, d);
    hide Missing, Eligible, Excluded;
    var a1 := a.(members := a.members + [d]);
    var followed := FollowedAmong(w, Dependencies(w, d));
    assert forall x :: Follows(w, d, x) <==> x in followed;
    assert d in b.members by {
      assert a1.members[|a.members|] == d && b.members[|a.members|] == d;
    }
    assert forall m :: Met(a, b, m) <==> m == d || Met(a1, b, m);
    assert a.members <= a1.members <= b.members;
    assert a.problems <= b.problems;
    assert Handled(w, b, {d});
    assert Complete(w, a, b);
    assert Needed(w, a, b, {d}) by {
      forall s: set<Dir>, m | Closed(w, s) && (Eligible(w, d) ==> d in s) && Met(a, b, m) ensures m in s {
        assert forall x | x in followed && Eligible(w, x) :: x in s;
      }
      forall x | Reported(a, b, x) ensures Missing(w, x) && (x == d || exists m :: Met(a, b, m) && Follows(w, m, x)) {
        assert Reported(a1, b, x);
        if x in followed {
          assert Met(a, b, d) && Follows(w, d, x);
        } else {
          var m :| Met(a1, b, m) && Follows(w, m, x);
        }
      }
    }
  }

  lemma PrefixMembers(a: seq<Dir>, b: seq<Dir>)
    requires a <= b
    ensures Set(a) <= Set(b)
  {
  }

  lemma FewerLeft(w: Workspace, before: seq<Dir>, d: Dir, after: seq<Dir>)
    requires before + [d] <= after && d in w.manifests && d !in before
    ensures w.manifests.Keys - Set(after) < w.manifests.Keys - Set(before)
  {
    assert before <= before + [d];
    PrefixMembers(before, after);
    PrefixMembers(before + [d], after);
    assert d in before + [d];
    assert d in w.manifests.Keys - Set(before) && d in Set(after);
  }

  class Walk {
    const w: Workspace
    var members: seq<Dir>
    var problems: seq<Problem>

    constructor (w: Workspace)
      ensures this.w == w && members == [] && problems == []
    {
      this.w, members, problems := w, [], [];
    }

    ghost function Now(): Progress
      reads this
    {
      Progress(members, problems)
    }

    /** Adds a directory and what it leads to; a cycle ends where it comes back to a member. */
    method Add(d: Dir)
      requires Sound(w, Now())
      modifies this
      ensures Explored(w, old(Now()), Now(), {d}) && Noted(w, old(Now()), Now())
      decreases w.manifests.Keys - Set(members)
    {
      hide Explored, Follows, Complete, Needed, Handled, Excluded, Noted, NotedBut, HasBadPath, Sound, Dependencies, Met;
      ghost var before := Now();
      NotedNothing(w, before, d);
      if Excluded(w, d) || d in members {
        AlreadyExplored(w, before, d);
        return;
      }
      if d !in w.manifests {
        problems := problems + [NoManifest(d)];
        ReportedMissing(w, before, d);
        return;
      }
      SoundWith(w, before, d);
      members := members + [d];
      ghost var start := Now();
      ExploredNothing(w, start);
      NotedNothing(w, start, d);
      var dependencies := Dependencies(w, d);
      for i := 0 to |dependencies|
        invariant Explored(w, start, Now(), FollowedAmong(w, dependencies[..i]))
        invariant NotedBut(w, start, Now(), d, None in dependencies[..i])
      {
        assert dependencies[..i + 1][..i] == dependencies[..i];
        ghost var now := Now();
        ExploredIsSound(w, start, now, FollowedAmong(w, dependencies[..i]));
        if dependencies[i].None? {
          problems := problems + [BadDependency(d)];
          ExploredNoting(w, start, now, FollowedAmong(w, dependencies[..i]), BadDependency(d));
          NotedBad(w, start, now, d, None in dependencies[..i]);
        } else if w.underRoot(dependencies[i].value) {
          FewerLeft(w, before.members, d, members);
          Add(dependencies[i].value);
          ExploredIsSound(w, now, Now(), {dependencies[i].value});
          NotedButOn(w, start, now, Now(), d, None in dependencies[..i]);
          ExploredOnwards(w, start, now, Now(), FollowedAmong(w, dependencies[..i]), dependencies[i].value);
        }
      }
      assert dependencies[..|dependencies|] == dependencies;
      ExploredIsSound(w, start, Now(), FollowedAmong(w, dependencies));
      BadPathIs(w, d);
      NotedMember(w, before, d, Now());
      ExploredMember(w, before, d, Now());
    }
  }

  lemma BadPathIs(w: Workspace, d: Dir)
    requires d in w.manifests
    ensures HasBadPath(w, d) <==> None in Dependencies(w, d)
  {
  }

  lemma ExploredIsSound(w: Workspace, a: Progress, b: Progress, from: set<Dir>)
    requires Explored(w, a, b, from)
    ensures Sound(w, b) && NoRepeats(b.members) && a.members <= b.members
  {
  }

  lemma AlreadyExplored(w: Workspace, a: Progress, d: Dir)
    requires Sound(w, a) && (Excluded(w, d) || d in a.members)
    ensures Explored(w, a, a, {d})
  {
  }

  lemma ReportedMissing(w: Workspace, a: Progress, d: Dir)
    requires Sound(w, a) && Missing(w, d)
    ensures Explored(w, a, a.(problems := a.problems + [NoManifest(d)]), {d})
  {
  }

  // ---- the whole walk ----

  /** The directories the list is walked for: the root's own package first. */
  function AllListed(w: Workspace): seq<Dir> {
    (if w.isPackage then [w.root] else []) + ListedUpTo(w, w.listed)
  }

  function ListedUpTo(w: Workspace, listed: seq<Listed>): seq<Dir> {
    if listed == [] then [] else ListedUpTo(w, listed[..|listed| - 1]) + ListedAt(w, listed[|listed| - 1])
  }

  lemma {:induction false} ListedUpToHas(w: Workspace, listed: seq<Listed>, d: Dir)
    ensures d in ListedUpTo(w, listed) <==> exists i :: 0 <= i < |listed| && d in ListedAt(w, listed[i])
  {
    hide ListedAt;
    if listed != [] {
      var n := |listed| - 1;
      ListedUpToHas(w, listed[..n], d);
      if i :| 0 <= i < n && d in ListedAt(w, listed[i]) {
        assert d in ListedAt(w, listed[..n][i]);
      }
    }
  }

  lemma AllListedHas(w: Workspace, d: Dir)
    ensures d in AllListed(w) <==> IsListed(w, d)
  {
    ListedUpToHas(w, w.listed, d);
  }

  /** A directory without a manifest is reported if it is listed or a member follows it, unless it is excluded. */
  ghost predicate MissingAreReported(w: Workspace, members: set<Dir>, problems: seq<Problem>) {
    forall x :: NoManifest(x) in problems
                <==> Missing(w, x) && (IsListed(w, x) || exists m :: m in members && Follows(w, m, x))
  }

  lemma ExploringAllIsTheMembers(w: Workspace, a: Progress, b: Progress)
    requires a.members == [] && (forall x :: NoManifest(x) !in a.problems)
    requires Explored(w, a, b, Set(AllListed(w)))
    ensures AreTheMembers(w, Set(b.members)) && MissingAreReported(w, Set(b.members), b.problems)
  {
    hide Missing, Eligible, Follows, IsListed, AllListed;
    forall d ensures d in Set(AllListed(w)) <==> IsListed(w, d) {
      AllListedHas(w, d);
    }
    assert forall m :: Met(a, b, m) <==> m in b.members;
    forall s: set<Dir> | Closed(w, s) && (forall d | IsListed(w, d) && Eligible(w, d) :: d in s)
      ensures Set(b.members) <= s
    {
      forall m | m in b.members ensures m in s {
        assert Met(a, b, m);
      }
    }
    forall x ensures NoManifest(x) in b.problems
                     <==> Missing(w, x) && (IsListed(w, x) || exists m :: m in Set(b.members) && Follows(w, m, x))
    {
      if NoManifest(x) in b.problems {
        assert Reported(a, b, x);
      }
    }
  }

  /** An entry of the list that cannot be read as one. */
  predicate IsUnreadable(w: Workspace, l: Listed) {
    match l
    case NotAPath => true
    case Pattern(matches) => matches.None?
    case Plain(path) => w.resolve(w.root, path).None?
  }

  /** Whether `p` is a problem of the exclusions, or of the first `n` entries of the list. */
  ghost predicate IsOfTheList(w: Workspace, n: nat, p: Problem) {
    match p
    case BadExclude(path) => path in w.exclude && w.resolve(w.root, path).None?
    case BadListed(i) => i < n && i < |w.listed| && IsUnreadable(w, w.listed[i])
    case NothingMatches(i) => i < n && i < |w.listed| && !IsUnreadable(w, w.listed[i]) && ListedAt(w, w.listed[i]) == []
    case _ => false
  }

  ghost predicate ListNoted(w: Workspace, n: nat, b: Progress) {
    && (forall p | OfTheList(p) :: p in b.problems <==> IsOfTheList(w, n, p))
    && (forall x :: BadDependency(x) in b.problems <==> x in b.members && HasBadPath(w, x))
  }

  /** The first `n` exclusions that cannot be read are noted, and nothing else. */
  ghost predicate ExcludesNoted(w: Workspace, n: nat, problems: seq<Problem>)
    requires n <= |w.exclude|
  {
    forall p :: p in problems <==> p.BadExclude? && p.path in w.exclude[..n] && w.resolve(w.root, p.path).None?
  }

  lemma ExcludesNotedOn(w: Workspace, n: nat, problems: seq<Problem>)
    requires n < |w.exclude| && ExcludesNoted(w, n, problems)
    ensures w.resolve(w.root, w.exclude[n]).None? ==> ExcludesNoted(w, n + 1, problems + [BadExclude(w.exclude[n])])
    ensures w.resolve(w.root, w.exclude[n]).Some? ==> ExcludesNoted(w, n + 1, problems)
  {
    assert w.exclude[..n + 1] == w.exclude[..n] + [w.exclude[n]];
  }

  lemma ListBegins(w: Workspace, problems: seq<Problem>)
    requires ExcludesNoted(w, |w.exclude|, problems)
    ensures ListNoted(w, 0, Progress([], problems)) && forall x :: NoManifest(x) !in problems
  {
    assert w.exclude[..|w.exclude|] == w.exclude;
  }

  lemma ListNotedOn(w: Workspace, n: nat, a: Progress, b: Progress)
    requires a.members <= b.members && Noted(w, a, b) && ListNoted(w, n, a)
    ensures ListNoted(w, n, b)
  {
    hide HasBadPath, IsOfTheList;
    assert forall x :: x in b.members <==> x in a.members || Met(a, b, x);
  }

  lemma ListNotedNext(w: Workspace, n: nat, a: Progress)
    requires n < |w.listed| && ListNoted(w, n, a)
    ensures IsUnreadable(w, w.listed[n]) ==> ListNoted(w, n + 1, a.(problems := a.problems + [BadListed(n)]))
    ensures !IsUnreadable(w, w.listed[n]) && ListedAt(w, w.listed[n]) == [] ==>
              ListNoted(w, n + 1, a.(problems := a.problems + [NothingMatches(n)]))
    ensures !IsUnreadable(w, w.listed[n]) && ListedAt(w, w.listed[n]) != [] ==> ListNoted(w, n + 1, a)
  {
    hide HasBadPath, IsUnreadable, ListedAt;
  }

  /** Adds every directory one entry of the list names. */
  method AddAll(walk: Walk, matches: seq<Dir>, ghost start: Progress, ghost from: seq<Dir>, ghost n: nat)
    requires Explored(walk.w, start, walk.Now(), Set(from)) && ListNoted(walk.w, n, walk.Now())
    modifies walk
    ensures Explored(walk.w, start, walk.Now(), Set(from + matches)) && ListNoted(walk.w, n, walk.Now())
  {
    hide Explored, Sound, Noted, ListNoted;
    assert from + matches[..0] == from;
    for j := 0 to |matches|
      invariant Explored(walk.w, start, walk.Now(), Set(from + matches[..j]))
      invariant ListNoted(walk.w, n, walk.Now())
    {
      ghost var now, so := walk.Now(), from + matches[..j];
      ExploredIsSound(walk.w, start, now, Set(so));
      walk.Add(matches[j]);
      ExploredIsSound(walk.w, now, walk.Now(), {matches[j]});
      ListNotedOn(walk.w, n, now, walk.Now());
      ExploredOnwards(walk.w, start, now, walk.Now(), Set(so), matches[j]);
      assert Set(so + [matches[j]]) == Set(so) + {matches[j]};
      assert from + matches[..j + 1] == so + [matches[j]];
    }
    assert matches[..|matches|] == matches;
  }

  /** What is reported of a workspace with these members, and nothing else is. */
  ghost predicate IsProblem(w: Workspace, members: set<Dir>, p: Problem) {
    match p
    case BadExclude(path) => path in w.exclude && w.resolve(w.root, path).None?
    case NoManifest(dir) => Missing(w, dir) && (IsListed(w, dir) || exists m :: m in members && Follows(w, m, dir))
    case BadDependency(dir) => dir in members && HasBadPath(w, dir)
    case BadListed(i) => i < |w.listed| && IsUnreadable(w, w.listed[i])
    case NothingMatches(i) => i < |w.listed| && !IsUnreadable(w, w.listed[i]) && ListedAt(w, w.listed[i]) == []
  }

  lemma ProblemsAre(w: Workspace, b: Progress, p: Problem)
    requires ListNoted(w, |w.listed|, b) && MissingAreReported(w, Set(b.members), b.problems)
    ensures p in b.problems <==> IsProblem(w, Set(b.members), p)
  {
    hide HasBadPath, Missing, IsListed, Follows, IsUnreadable, ListedAt;
  }

  /** The member directories of a workspace, without repeats, and exactly what is wrong with it. */
  method WorkspaceMembers(w: Workspace) returns (members: seq<Dir>, problems: seq<Problem>)
    ensures NoRepeats(members) && AreTheMembers(w, Set(members))
    ensures forall p :: p in problems <==> IsProblem(w, Set(members), p)
  {
    hide Explored, AreTheMembers, MissingAreReported, Excluded, ListedAt, Sound, Noted, ListNoted, ExcludesNoted, IsUnreadable, IsProblem;
    var walk := new Walk(w);
    NoExcludesNoted(w);
    for i := 0 to |w.exclude|
      invariant walk.w == w && walk.members == [] && fresh(walk)
      invariant ExcludesNoted(w, i, walk.problems)
    {
      ExcludesNotedOn(w, i, walk.problems);
      if w.resolve(w.root, w.exclude[i]).None? {
        walk.problems := walk.problems + [BadExclude(w.exclude[i])];
      }
    }
    ghost var start := walk.Now();
    ListBegins(w, walk.problems);
    StartIsSound(w, start);
    ExploredNothing(w, start);
    ghost var from: seq<Dir> := [];
    if w.isPackage {
      walk.Add(w.root);
      ExploredIsSound(w, start, walk.Now(), {w.root});
      ListNotedOn(w, 0, start, walk.Now());
      ExploredOnwards(w, start, start, walk.Now(), {}, w.root);
      from := [w.root];
      assert Set(from) == {} + {w.root};
    } else {
      assert Set(from) == {};
    }
    ghost var package := from;
    for i := 0 to |w.listed|
      invariant walk.w == w && fresh(walk)
      invariant from == package + ListedUpTo(w, w.listed[..i])
      invariant Explored(w, start, walk.Now(), Set(from)) && ListNoted(w, i, walk.Now())
    {
      assert w.listed[..i + 1][..i] == w.listed[..i];
      var matches := ListedAt(w, w.listed[i]);
      ListNotedNext(w, i, walk.Now());
      if IsUnreadable(w, w.listed[i]) {
        Note(walk, BadListed(i), start, Set(from));
      } else if matches == [] {
        Note(walk, NothingMatches(i), start, Set(from));
      }
      AddAll(walk, matches, start, from, i + 1);
      from := from + matches;
      assert package + (ListedUpTo(w, w.listed[..i]) + matches) == (package + ListedUpTo(w, w.listed[..i])) + matches;
    }
    assert w.listed[..|w.listed|] == w.listed;
    assert from == AllListed(w);
    ExploredIsSound(w, start, walk.Now(), Set(from));
    ExploringAllIsTheMembers(w, start, walk.Now());
    members, problems := walk.members, walk.problems;
    forall p ensures p in problems <==> IsProblem(w, Set(members), p) {
      ProblemsAre(w, walk.Now(), p);
    }
  }

  lemma NoExcludesNoted(w: Workspace)
    ensures ExcludesNoted(w, 0, [])
  {
  }

  method Note(walk: Walk, problem: Problem, ghost start: Progress, ghost from: set<Dir>)
    requires Explored(walk.w, start, walk.Now(), from) && !problem.NoManifest?
    modifies walk
    ensures Explored(walk.w, start, walk.Now(), from)
    ensures walk.Now() == old(walk.Now()).(problems := old(walk.Now()).problems + [problem])
  {
    ghost var now := walk.Now();
    walk.problems := walk.problems + [problem];
    ExploredNoting(walk.w, start, now, from, problem);
  }
}
