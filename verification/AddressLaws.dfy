/**
 What resolving dot segments and cleaning an address guarantee.
 */
module AddressLaws {
  import opened Common
  import opened Address

  // ---- splitting and joining ----

  predicate NoSeparator(s: string) {
    forall i | 0 <= i < |s| :: !IsSeparator(s[i])
  }

  lemma {:induction false} FindAfter(a: string, c: char, b: string, stop: char -> bool)
    requires (forall i | 0 <= i < |a| :: !stop(a[i])) && stop(c)
    ensures Find(a + [c] + b, stop) == |a|
  {
    var s := a + [c] + b;
    assert s[|a|] == c;
    assert forall i | 0 <= i < |a| :: s[i] == a[i];
  }

  lemma SplitPlain(s: string)
    requires NoSeparator(s)
    ensures Split(s) == [s]
  {
  }

  lemma SplitFirst(a: string, c: char, b: string)
    requires NoSeparator(a) && IsSeparator(c)
    ensures Split(a + [c] + b) == [a] + Split(b)
  {
    FindAfter(a, c, b, IsSeparator);
    var s := a + [c] + b;
    assert s[..|a|] == a && s[|a| + 1..] == b;
  }

  lemma {:induction false} SplitPartsArePlain(s: string)
    ensures forall k | 0 <= k < |Split(s)| :: NoSeparator(Split(s)[k])
    decreases |s|
  {
    var i := Find(s, IsSeparator);
    if i < |s| {
      SplitPartsArePlain(s[i + 1..]);
    }
  }

  lemma {:induction false} SplitJoin(segments: seq<string>)
    requires segments != [] && forall k | 0 <= k < |segments| :: NoSeparator(segments[k])
    ensures Split(Join(segments)) == segments
  {
    if |segments| == 1 {
      SplitPlain(segments[0]);
    } else {
      SplitJoin(segments[1..]);
      SplitFirst(segments[0], '/', Join(segments[1..]));
      assert segments == [segments[0]] + segments[1..];
    }
  }

  lemma FindKeepsPrefix(a: string, b: string, stop: char -> bool)
    requires Find(a, stop) < |a|
    ensures Find(a + b, stop) == Find(a, stop)
  {
    var i := Find(a, stop);
    assert (a + b)[i] == a[i] && forall j | 0 <= j < i :: (a + b)[j] == a[j];
  }

  lemma Slices<T>(a: seq<T>, b: seq<T>, i: nat)
    requires i < |a|
    ensures (a + b)[..i] == a[..i] && (a + b)[i + 1..] == a[i + 1..] + b
  {
  }

  lemma SplitAt(s: string, i: nat)
    requires i == Find(s, IsSeparator) && i < |s|
    ensures Split(s) == [s[..i]] + Split(s[i + 1..])
  {
    hide Find, IsSeparator;
  }

  /** Splitting before and after a separator. */
  lemma {:induction false} SplitConcat(a: string, c: char, b: string)
    requires IsSeparator(c)
    ensures Split(a + ([c] + b)) == Split(a) + Split(b)
    decreases |a|
  {
    hide Split;
    var tail := [c] + b;
    var i := Find(a, IsSeparator);
    if i == |a| {
      Associate(a, [c], b);
      SplitFirst(a, c, b);
      SplitPlain(a);
    } else {
      SplitConcat(a[i + 1..], c, b);
      FindKeepsPrefix(a, tail, IsSeparator);
      Slices(a, tail, i);
      SplitAt(a + tail, i);
      SplitAt(a, i);
      Associate([a[..i]], Split(a[i + 1..]), Split(b));
    }
  }

  // ---- resolving dot segments ----

  predicate Ordinary(part: string) {
    !IsDot(part) && !IsDotDot(part)
  }

  predicate AllOrdinary(parts: seq<string>) {
    forall k | 0 <= k < |parts| :: Ordinary(parts[k])
  }

  predicate AllPlain(parts: seq<string>) {
    forall k | 0 <= k < |parts| :: NoSeparator(parts[k])
  }

  predicate NoPathEnd(s: string) {
    forall i | 0 <= i < |s| :: !EndsPath(s[i])
  }

  predicate NoneEndPath(parts: seq<string>) {
    forall k | 0 <= k < |parts| :: NoPathEnd(parts[k])
  }

  lemma {:induction false} StackIsOrdinary(parts: seq<string>)
    ensures AllOrdinary(Stack(parts))
    ensures AllPlain(parts) ==> AllPlain(Stack(parts))
    ensures NoneEndPath(parts) ==> NoneEndPath(Stack(parts))
  {
    if parts != [] {
      StackIsOrdinary(parts[..|parts| - 1]);
    }
  }

  lemma {:induction false} OrdinaryStacksAsItself(parts: seq<string>)
    requires AllOrdinary(parts)
    ensures Stack(parts) == parts
  {
    if parts != [] {
      OrdinaryStacksAsItself(parts[..|parts| - 1]);
    }
  }

  lemma {:induction false} SplitKeepsPathEnds(s: string)
    requires NoPathEnd(s)
    ensures NoneEndPath(Split(s))
    decreases |s|
  {
    var i := Find(s, IsSeparator);
    if i < |s| {
      SplitKeepsPathEnds(s[i + 1..]);
    }
  }

  lemma {:induction false} JoinKeepsPathEnds(segments: seq<string>)
    requires NoneEndPath(segments)
    ensures NoPathEnd(Join(segments))
  {
    if |segments| > 1 {
      JoinKeepsPathEnds(segments[1..]);
    }
  }

  /** The parts of a path whose separators were written `/`. */
  lemma SplitOfJoined(first: string, segments: seq<string>)
    requires NoSeparator(first) && AllPlain(segments)
    ensures Split(first + "/" + Join(segments)) == [first] + (if segments == [] then [""] else segments)
  {
    SplitFirst(first, '/', Join(segments));
    if segments == [] {
      SplitPlain("");
    } else {
      SplitJoin(segments);
    }
  }

  /** The parts of a resolved path: the part before the first separator, and the resolved segments. */
  lemma ResolvedParts(path: string) returns (first: string, segments: seq<string>)
    requires HasSeparator(CutPath(path))
    ensures Resolve(path) == first + "/" + Join(segments)
    ensures AllOrdinary(segments) && Split(Resolve(path)) == [first] + (if segments == [] then [""] else segments)
    ensures NoPathEnd(Resolve(path))
  {
    var p := CutPath(path);
    first, segments := Split(p)[0], Stack(Split(p)[1..]);
    SplitPartsArePlain(p);
    SplitKeepsPathEnds(p);
    StackIsOrdinary(Split(p)[1..]);
    SplitOfJoined(first, segments);
    JoinKeepsPathEnds(segments);
  }

  lemma NothingToCut(s: string)
    requires NoPathEnd(s)
    ensures CutPath(s) == s
  {
  }

  lemma {:induction false} PlainlySplit(s: string)
    ensures HasSeparator(s) <==> |Split(s)| > 1
  {
  }

  /** A resolved path has no dot segment after its first separator. */
  lemma ResolvedHasNoDotSegment(path: string)
    ensures AllOrdinary(Split(Resolve(path))[1..])
  {
    if HasSeparator(CutPath(path)) {
      var first, segments := ResolvedParts(path);
      assert Split(Resolve(path))[1..] == if segments == [] then [""] else segments;
      assert Ordinary("");
    } else {
      PlainlySplit(Resolve(path));
    }
  }

  /** Resolving twice is resolving once. */
  lemma ResolvingTwiceIsResolvingOnce(path: string)
    ensures Resolve(Resolve(path)) == Resolve(path)
  {
    var r := Resolve(path);
    if HasSeparator(CutPath(path)) {
      var first, segments := ResolvedParts(path);
      NothingToCut(r);
      PlainlySplit(r);
      var rest := if segments == [] then [""] else segments;
      assert Split(r)[1..] == rest && Split(r)[0] == first;
      assert Ordinary("");
      OrdinaryStacksAsItself(rest);
      assert Join([""]) == Join([]);
    } else {
      NothingToCut(r);
    }
  }

  lemma {:induction false} StackAppended(parts: seq<string>, x: string)
    requires Ordinary(x)
    ensures Stack(parts + [x, ".."]) == Stack(parts)
  {
    var whole := parts + [x, ".."];
    assert whole[..|whole| - 1] == parts + [x];
    assert (parts + [x])[..|parts|] == parts;
    assert IsDotDot("..") && !IsDot("..");
    assert (Stack(parts) + [x])[..|Stack(parts)|] == Stack(parts);
  }

  lemma AppendedSplit(path: string, x: string)
    requires NoSeparator(x)
    ensures Split(path + "/" + x + "/..") == Split(path) + [x, ".."]
  {
    hide Split, Find;
    var tail := x + ['/'] + "..";
    assert x + "/.." == tail;
    Associate(path, "/", x);
    Associate(path, "/" + x, "/..");
    Associate("/", x, "/..");
    SplitConcat(path, '/', tail);
    SplitFirst(x, '/', "..");
    SplitPlain("..");
  }

  lemma AppendedNoPathEnd(path: string, x: string)
    requires NoPathEnd(path) && NoPathEnd(x)
    ensures NoPathEnd(path + "/" + x + "/..")
  {
  }

  /** An ordinary segment and the `..` after it cancel, exactly when the path has a separator to hang them on
      or a query or fragment cuts them off. */
  lemma DotDotCancelsOrdinarySegment(path: string, x: string)
    requires NoSeparator(x) && NoPathEnd(x) && Ordinary(x)
    ensures Resolve(path + "/" + x + "/..") == Resolve(path) <==> HasSeparator(path) || !NoPathEnd(path)
  {
    var longer := path + "/" + x + "/..";
    if !NoPathEnd(path) {
      assert longer == path + ("/" + x + "/..");
      FindKeepsPrefix(path, "/" + x + "/..", EndsPath);
      assert CutPath(longer) == CutPath(path);
    } else {
      AppendedNoPathEnd(path, x);
      NothingToCut(path);
      NothingToCut(longer);
      AppendedSplit(path, x);
      PlainlySplit(longer);
      PlainlySplit(path);
      var parts := Split(path);
      assert Split(longer)[1..] == parts[1..] + [x, ".."];
      StackAppended(parts[1..], x);
      hide Split, Stack, Find, NoPathEnd;
      assert Resolve(longer) == parts[0] + "/" + Join(Stack(parts[1..]));
      if !HasSeparator(path) {
        SplitOfPlainPath(path);
      }
    }
  }

  lemma SplitOfPlainPath(path: string)
    requires !HasSeparator(path)
    ensures Split(path) == [path] && Join(Stack(Split(path)[1..])) == ""
  {
  }

  // ---- naming a user ----

  /** Some stretch of `path` after two separators or more, before anything that ends an authority, holds an `@`:
      what a browser may read as a user name. */
  ghost predicate NamesUser(path: string) {
    exists k, m :: UserBetween(path, k, m)
  }

  ghost predicate UserBetween(path: string, k: nat, m: nat) {
    && 2 <= k < m <= |path|
    && (forall i | 0 <= i < k :: IsSeparator(path[i]))
    && (forall i | k <= i < m :: !EndsAuthority(path[i]))
    && '@' in path[k..m]
  }

  lemma {:induction false} LeadingIs(path: string, k: nat)
    requires k < |path| && (forall i | 0 <= i < k :: IsSeparator(path[i])) && !IsSeparator(path[k])
    ensures Leading(path) == k
  {
  }

  lemma {:induction false} FindsBeyond(s: string, stop: char -> bool, n: nat)
    requires n <= |s| && forall i | 0 <= i < n :: !stop(s[i])
    ensures Find(s, stop) >= n
  {
  }

  lemma OpensOnAUserIsNamingOne(path: string)
    ensures OpensOnAUser(path) <==> NamesUser(path)
  {
    var k := Leading(path);
    var tail := path[k..];
    var end := Find(tail, EndsAuthority);
    if OpensOnAUser(path) {
      assert path[k..k + end] == tail[..end];
      assert forall i | k <= i < k + end :: path[i] == tail[i - k];
      assert UserBetween(path, k, k + end);
    }
    if NamesUser(path) {
      var k': nat, m: nat :| UserBetween(path, k', m);
      LeadingIs(path, k');
      FindsBeyond(tail, EndsAuthority, m - k);
      var at :| 0 <= at < m - k && path[k..m][at] == '@';
      assert tail[..end][at] == '@';
    }
  }

  // ---- what a cleaned address is ----

  /** The authority a browser reads in an address, if it opens one, and the path after it. */
  datatype Reading = Reading(scheme: string, authority: Option<string>, path: string)

  function ReadAddress(address: string): Reading {
    var colon := Find(address, IsColon);
    if colon == |address| then Reading("", None, address)
    else
      var scheme, after := Lower(address[..colon]), address[colon + 1..];
      if OpensAuthority(after) then
        var rest := after[2..];
        var end := Find(rest, EndsAuthority);
        Reading(scheme, Some(rest[..end]), rest[end..])
      else Reading(scheme, None, after)
  }

  ghost predicate NoUserAnywhere(r: Reading) {
    && (r.authority.Some? ==> '@' !in r.authority.value)
    && (r.scheme == "file" ==> !NamesUser(r.path) && !NamesUser(Resolve(r.path)))
  }

  lemma {:induction false} FindIs(s: string, stop: char -> bool, n: nat)
    requires n <= |s| && (forall i | 0 <= i < n :: !stop(s[i])) && (n < |s| ==> stop(s[n]))
    ensures Find(s, stop) == n
  {
  }

  predicate IsWebScheme(scheme: string) {
    scheme == "http" || scheme == "https" || scheme == "file"
  }

  /** A host that ends where it should, and a path that starts where the host ends. */
  ghost predicate HostThenPath(host: string, path: string) {
    && (forall i | 0 <= i < |host| :: !EndsAuthority(host[i]))
    && (path != "" ==> EndsAuthority(path[0]))
  }

  lemma FindsHostEnd(host: string, path: string)
    requires HostThenPath(host, path)
    ensures Find(host + path, EndsAuthority) == |host|
    ensures (host + path)[..|host|] == host && (host + path)[|host|..] == path
  {
  }

  lemma FindsColon(scheme: string, after: string)
    requires IsWebScheme(scheme)
    ensures Find(scheme + ":" + after, IsColon) == |scheme| < |scheme + ":" + after|
    ensures (scheme + ":" + after)[..|scheme|] == scheme && (scheme + ":" + after)[|scheme| + 1..] == after
    ensures Lower(scheme) == scheme
  {
    var address := scheme + ":" + after;
    assert address[|scheme|] == ':';
    assert forall i | 0 <= i < |scheme| :: address[i] == scheme[i];
    FindIs(address, IsColon, |scheme|);
  }

  /** An address put together from parts, as its scheme and what follows. */
  lemma Assembled(scheme: string, host: string, path: string)
    ensures scheme + "://" + host + path == scheme + ":" + ("//" + (host + path))
    ensures OpensAuthority("//" + (host + path)) && ("//" + (host + path))[2..] == host + path
  {
  }

  /** An address put together from parts is read back as those parts. */
  lemma ReadsBack(scheme: string, host: string, path: string)
    requires IsWebScheme(scheme) && HostThenPath(host, path)
    ensures ReadAddress(scheme + "://" + host + path) == Reading(scheme, Some(host), path)
  {
    hide Find, IsWebScheme;
    Assembled(scheme, host, path);
    FindsColon(scheme, "//" + (host + path));
    FindsHostEnd(host, path);
  }

  lemma ReadsBackPath(after: string)
    requires !OpensAuthority(after)
    ensures ReadAddress("file:" + after) == Reading("file", None, after)
  {
    FindsColon("file", after);
    assert "file:" + after == "file" + ":" + after;
  }

  /** The parts of an address before its user is cut: its scheme, what stands before the host, host and path. */
  ghost predicate Parts(address: string, scheme: string, opening: string, user: string, host: string, path: string) {
    && address == scheme + ":" + opening + user + host + path
    && |opening| == 2 && IsSeparator(opening[0]) && IsSeparator(opening[1])
    && (user != "" ==> user[|user| - 1] == '@')
    && '@' !in host
    && (forall i | 0 <= i < |user| :: !EndsAuthority(user[i]))
    && (forall i | 0 <= i < |host| :: !EndsAuthority(host[i]))
    && (path != "" ==> EndsAuthority(path[0]))
  }

  lemma Glue(a: string, b: string, c: string, d: string, e: string, f: string)
    requires f == c + (d + e)
    ensures a + b + f == a + b + c + d + e
  {
  }

  /** How an address with an authority falls into its parts. */
  lemma SplitsIntoParts(trimmed: string) returns (scheme: string, opening: string, user: string, host: string, path: string)
    requires var colon := Find(trimmed, IsColon); colon < |trimmed| && OpensAuthority(trimmed[colon + 1..])
    ensures Parts(trimmed, scheme, opening, user, host, path)
    ensures scheme == trimmed[..Find(trimmed, IsColon)]
    ensures var rest := trimmed[Find(trimmed, IsColon) + 1..][2..];
            var authority := rest[..Find(rest, EndsAuthority)];
            host == authority[AfterLastAt(authority)..] && path == rest[Find(rest, EndsAuthority)..]
  {
    hide Find, AfterLastAt, EndsAuthority, IsSeparator;
    var colon := Find(trimmed, IsColon);
    var after := trimmed[colon + 1..];
    var rest := after[2..];
    var end := Find(rest, EndsAuthority);
    var authority := rest[..end];
    var at := AfterLastAt(authority);
    scheme, opening, user, host, path := trimmed[..colon], after[..2], authority[..at], authority[at..], rest[end..];
    Rejoined(trimmed, colon, end, at);
  }

  lemma Rejoined(s: string, colon: nat, end: nat, at: nat)
    requires colon + 3 <= |s| && s[colon] == ':' && at <= end <= |s| - colon - 3
    ensures var after := s[colon + 1..];
            var authority := after[2..][..end];
            s == s[..colon] + ":" + after[..2] + authority[..at] + authority[at..] + after[2..][end..]
  {
    var scheme, after := s[..colon], s[colon + 1..];
    var rest := after[2..];
    var authority := rest[..end];
    Cut(authority, at);
    Cut(rest, end);
    Cut(after, 2);
    assert s == scheme + ":" + after;
    Glue(scheme, ":", after[..2], authority, rest[end..], after);
    Associate(scheme + ":" + after[..2], authority[..at], authority[at..]);
  }

  lemma Cut<T>(s: seq<T>, i: nat)
    requires i <= |s|
    ensures s == s[..i] + s[i..]
  {
  }

  lemma PlainIsTrimmed(s: string)
    requires IsPlain(s)
    ensures Trim(s) == s
  {
  }

  /** Cleaning an address with an authority lower-cases its scheme, writes the authority's opening `//`, cuts the
      user, and keeps host and path as they are written. */
  lemma CleanedKeepsHostAndPath(raw: string) returns (scheme: string, opening: string, user: string, host: string, path: string)
    requires Clean(raw).Some? && OpensAuthority(Trim(raw)[Find(Trim(raw), IsColon) + 1..])
    ensures Parts(Trim(raw), scheme, opening, user, host, path)
    ensures Clean(raw).value == Lower(scheme) + "://" + host + path && IsWebScheme(Lower(scheme))
    ensures Lower(scheme) == "file" || host != ""
    ensures Lower(scheme) == "file" ==> !SmugglesCredential(path)
  {
    hide Find, AfterLastAt, OpensAuthority, EndsAuthority, IsSeparator, SmugglesCredential, Lower, Parts, Trim;
    scheme, opening, user, host, path := SplitsIntoParts(Trim(raw));
  }

  /** A path-only `file:` address is kept as it is written, but for its scheme's case. */
  lemma CleanedKeepsPath(raw: string)
    requires Clean(raw).Some? && !OpensAuthority(Trim(raw)[Find(Trim(raw), IsColon) + 1..])
    ensures var after := Trim(raw)[Find(Trim(raw), IsColon) + 1..];
            && Lower(Trim(raw)[..Find(Trim(raw), IsColon)]) == "file"
            && Clean(raw).value == "file:" + after && after != "" && after[0] == '/' && !SmugglesCredential(after)
  {
  }

  /** No cleaned address names a user: not in its authority, and for a `file:` address not after two separators
      either, as written or with its dot segments resolved. */
  lemma CleanedNamesNoUser(raw: string)
    requires Clean(raw).Some?
    ensures NoUserAnywhere(ReadAddress(Clean(raw).value))
  {
    if OpensAuthority(Trim(raw)[Find(Trim(raw), IsColon) + 1..]) {
      var scheme, opening, user, host, path := CleanedKeepsHostAndPath(raw);
      ReadsBack(Lower(scheme), host, path);
      OpensOnAUserIsNamingOne(path);
      OpensOnAUserIsNamingOne(Resolve(path));
    } else {
      var after := Trim(raw)[Find(Trim(raw), IsColon) + 1..];
      CleanedKeepsPath(raw);
      ReadsBackPath(after);
      OpensOnAUserIsNamingOne(after);
      OpensOnAUserIsNamingOne(Resolve(after));
    }
  }

  /** An address put together from clean parts is its own cleaning. */
  lemma CleanPartsAreKept(scheme: string, host: string, path: string)
    requires IsWebScheme(scheme) && HostThenPath(host, path) && '@' !in host
    requires host != "" || scheme == "file"
    requires scheme == "file" ==> !SmugglesCredential(path)
    requires IsPlain(scheme + "://" + host + path)
    ensures Clean(scheme + "://" + host + path) == Some(scheme + "://" + host + path)
  {
    hide Find, SmugglesCredential, Trim, IsPlain;
    PlainIsTrimmed(scheme + "://" + host + path);
    Assembled(scheme, host, path);
    FindsColon(scheme, "//" + (host + path));
    FindsHostEnd(host, path);
    assert AfterLastAt(host) == 0 && host[0..] == host;
  }

  lemma CleanPathIsKept(after: string)
    requires !OpensAuthority(after) && after != "" && after[0] == '/' && !SmugglesCredential(after)
    requires IsPlain("file:" + after)
    ensures Clean("file:" + after) == Some("file:" + after)
  {
    hide Find, SmugglesCredential, Trim, IsPlain;
    PlainIsTrimmed("file:" + after);
    FindsColon("file", after);
    assert "file:" + after == "file" + ":" + after;
  }

  lemma PlainConcat(a: string, b: string)
    ensures IsPlain(a + b) <==> IsPlain(a) && IsPlain(b)
  {
    assert forall i | 0 <= i < |a| :: (a + b)[i] == a[i];
    assert forall i | 0 <= i < |b| :: (a + b)[|a| + i] == b[i];
  }

  /** A cleaned address is plain. */
  lemma CleanedIsPlain(raw: string)
    requires Clean(raw).Some?
    ensures IsPlain(Clean(raw).value)
  {
    hide IsPlain, Find, SmugglesCredential;
    if OpensAuthority(Trim(raw)[Find(Trim(raw), IsColon) + 1..]) {
      var scheme, opening, user, host, path := CleanedKeepsHostAndPath(raw);
      PlainConcat(scheme + ":" + opening + user + host, path);
      PlainConcat(scheme + ":" + opening + user, host);
      WebSchemeIsPlain(Lower(scheme));
      PlainConcat(Lower(scheme), "://");
      PlainConcat(Lower(scheme) + "://", host);
      PlainConcat(Lower(scheme) + "://" + host, path);
    } else {
      var colon := Find(Trim(raw), IsColon);
      CleanedKeepsPath(raw);
      Cut(Trim(raw), colon + 1);
      PlainConcat(Trim(raw)[..colon + 1], Trim(raw)[colon + 1..]);
      WebSchemeIsPlain("file");
      PlainConcat("file:", Trim(raw)[colon + 1..]);
    }
  }

  lemma WebSchemeIsPlain(scheme: string)
    requires IsWebScheme(scheme)
    ensures IsPlain(scheme) && IsPlain("://") && IsPlain("file:")
  {
  }

  /** Cleaning twice is cleaning once. */
  lemma CleaningTwiceIsCleaningOnce(raw: string)
    requires Clean(raw).Some?
    ensures Clean(Clean(raw).value) == Clean(raw)
  {
    CleanedIsPlain(raw);
    hide Clean, Find, IsPlain, SmugglesCredential;
    if OpensAuthority(Trim(raw)[Find(Trim(raw), IsColon) + 1..]) {
      var scheme, opening, user, host, path := CleanedKeepsHostAndPath(raw);
      CleanPartsAreKept(Lower(scheme), host, path);
    } else {
      CleanedKeepsPath(raw);
      CleanPathIsKept(Trim(raw)[Find(Trim(raw), IsColon) + 1..]);
    }
  }
}
