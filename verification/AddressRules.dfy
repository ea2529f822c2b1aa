/** Exactly which addresses are cleaned and to what, and how dot segments are resolved. */
module AddressRules {
  import opened Common
  import opened Address
  import opened AddressLaws

  // ---- cleaning ----

  predicate AllTrimmed(s: string) { forall i | 0 <= i < |s| :: s[i] <= ' ' }

  /** What is cleaned is the address between the control characters and spaces at its ends. */
  lemma TrimIs(before: string, address: string, after: string)
    requires AllTrimmed(before) && AllTrimmed(after)
    requires address != "" ==> address[0] > ' ' && address[|address| - 1] > ' '
    ensures Trim(before + address + after) == address
  {
    StartTrims(before, address + after);
    Associate(before, address, after);
    if address == "" {
      StartTrims(after, "");
      assert address + after == after + "" && before + address + after == before + after + "";
    } else {
      assert (address + after)[0] == address[0];
      EndTrims(address, after);
    }
  }

  lemma {:induction false} StartTrims(before: string, rest: string)
    requires AllTrimmed(before)
    ensures TrimStart(before + rest) == TrimStart(rest)
  {
    if before == "" {
      assert before + rest == rest;
    } else {
      assert (before + rest)[1..] == before[1..] + rest;
      StartTrims(before[1..], rest);
    }
  }

  lemma {:induction false} EndTrims(rest: string, after: string)
    requires AllTrimmed(after)
    requires rest != "" ==> rest[|rest| - 1] > ' '
    ensures TrimEnd(rest + after) == rest
  {
    if after == "" {
      assert rest + after == rest;
    } else {
      assert (rest + after)[..|rest + after| - 1] == rest + after[..|after| - 1];
      EndTrims(rest, after[..|after| - 1]);
    }
  }

  lemma {:induction false} LastAtIs(user: string, host: string)
    requires (user != "" ==> user[|user| - 1] == '@') && '@' !in host
    ensures AfterLastAt(user + host) == |user|
  {
    if host == "" {
      assert user + host == user;
    } else {
      assert (user + host)[..|user + host| - 1] == user + host[..|host| - 1];
      LastAtIs(user, host[..|host| - 1]);
    }
  }

  /** Nothing but visible characters, and those beyond the second block of controls. */
  predicate Visible(s: string) {
    forall i | 0 <= i < |s| :: ' ' < s[i] < '\U{7F}' || '\U{A0}' <= s[i]
  }

  lemma VisibleIsPlain(s: string)
    ensures Visible(s) <==> IsPlain(s)
  {
  }

  predicate IsCleanable(scheme: string) {
    scheme == "http" || scheme == "https" || scheme == "file"
  }

  /** A path that names no user, as it is written or as a browser resolves it. */
  ghost predicate NamesNoUser(path: string) {
    !NamesUser(path) && !NamesUser(Resolve(path))
  }

  lemma NamesNoUserIs(path: string)
    ensures NamesNoUser(path) <==> !SmugglesCredential(path)
  {
    OpensOnAUserIsNamingOne(path);
    OpensOnAUserIsNamingOne(Resolve(path));
  }

  lemma SchemeEnds(address: string, scheme: string, after: string)
    requires address == scheme + ":" + after && ':' !in scheme
    ensures Find(address, IsColon) == |scheme| < |address|
    ensures address[..|scheme|] == scheme && address[|scheme| + 1..] == after
  {
    assert address[|scheme|] == ':';
    forall i | 0 <= i < |scheme| ensures !IsColon(address[i]) {
      assert address[i] == scheme[i];
    }
    FindIs(address, IsColon, |scheme|);
  }

  /** How an address that has a scheme and opens an authority is cleaned. It loses its user and no more, and it is dropped
      exactly if its scheme is another, it has no host where it needs one, or its path names a user a browser may find. */
  lemma CleanedIff(raw: string, scheme: string, opening: string, user: string, host: string, path: string)
    requires Parts(Trim(raw), scheme, opening, user, host, path) && ':' !in scheme
    ensures Clean(raw) ==
            if && Visible(Trim(raw)) && IsCleanable(Lower(scheme)) && (host != "" || Lower(scheme) == "file")
               && (Lower(scheme) == "file" ==> NamesNoUser(path))
            then Some(Lower(scheme) + "://" + host + path) else None
  {
    hide Trim, Find, IsPlain, Visible, SmugglesCredential, NamesNoUser, AfterLastAt, Lower, Parts, OpensAuthority;
    var after := opening + user + host + path;
    PartsFollow(Trim(raw), scheme, opening, user, host, path);
    SchemeEnds(Trim(raw), scheme, after);
    NamesNoUserIs(path);
    VisibleIsPlain(Trim(raw));
    CleansAfterScheme(Lower(scheme), after, user + host + path, user, host, path);
  }

  lemma PartsFollow(address: string, scheme: string, opening: string, user: string, host: string, path: string)
    requires Parts(address, scheme, opening, user, host, path)
    ensures var after, rest := opening + user + host + path, user + host + path;
            && address == scheme + ":" + after && OpensAuthority(after) && after[2..] == rest
            && Find(rest, EndsAuthority) == |user + host| && AfterLastAt(user + host) == |user|
            && rest[..|user + host|] == user + host && rest[|user + host|..] == path && (user + host)[|user|..] == host
  {
    hide Find, AfterLastAt, EndsAuthority, IsSeparator;
    Regrouped(scheme + ":", opening, user, host, path);
    var rest := user + host + path;
    assert opening + user + host + path == opening + rest;
    assert (opening + rest)[2..] == rest && (opening + rest)[0] == opening[0] && (opening + rest)[1] == opening[1];
    forall i | 0 <= i < |user + host| ensures !EndsAuthority((user + host)[i]) {
    }
    FindsHostEnd(user + host, path);
    LastAtIs(user, host);
  }

  lemma Regrouped(a: string, b: string, c: string, d: string, e: string)
    ensures a + b + c + d + e == a + (b + c + d + e)
    ensures b + c + d + e == b + (c + d + e)
  {
  }

  lemma CleansAfterScheme(scheme: string, after: string, rest: string, user: string, host: string, path: string)
    requires OpensAuthority(after) && after[2..] == rest == user + host + path
    requires Find(rest, EndsAuthority) == |user + host| && AfterLastAt(user + host) == |user|
    requires rest[..|user + host|] == user + host && rest[|user + host|..] == path && (user + host)[|user|..] == host
    ensures CleanAfterScheme(scheme, after) ==
            if (host != "" || scheme == "file") && (scheme == "file" ==> !SmugglesCredential(path))
            then Some(scheme + "://" + host + path) else None
  {
    hide Find, SmugglesCredential, AfterLastAt, OpensAuthority;
  }

  /** How one that opens no authority is: only a `file:` path is kept. */
  lemma CleanedPathIff(raw: string, scheme: string, after: string)
    requires Trim(raw) == scheme + ":" + after && ':' !in scheme
    requires !(|after| >= 2 && after[0] in {'/', '\\'} && after[1] in {'/', '\\'})
    ensures Clean(raw) ==
            if Visible(Trim(raw)) && Lower(scheme) == "file" && after != "" && after[0] == '/' && NamesNoUser(after)
            then Some("file:" + after) else None
  {
    SchemeEnds(Trim(raw), scheme, after);
    NamesNoUserIs(after);
    VisibleIsPlain(Trim(raw));
    hide Trim, Find, IsPlain, Visible, SmugglesCredential, NamesNoUser, Lower;
  }

  /** What has no scheme is dropped. */
  lemma NoSchemeIsDropped(raw: string)
    requires ':' !in Trim(raw)
    ensures Clean(raw).None?
  {
  }

  /** Every address with a scheme is one of the two. */
  lemma EveryAddressIsOne(address: string) returns (scheme: string, after: string, opening: string, user: string, host: string, path: string)
    requires ':' in address
    ensures ':' !in scheme && address == scheme + ":" + after
    ensures |after| >= 2 && after[0] in {'/', '\\'} && after[1] in {'/', '\\'} ==>
              Parts(address, scheme, opening, user, host, path)
  {
    hide Parts;
    var colon := Find(address, IsColon);
    scheme, after, opening, user, host, path := address[..colon], address[colon + 1..], "", "", "", "";
    assert address == scheme + ":" + after;
    if OpensAuthority(after) {
      scheme, opening, user, host, path := SplitsIntoParts(address);
    }
  }

  // ---- dot segments ----

  /** Text by its characters, up to six of them. */
  lemma Spelled(s: string)
    ensures |s| == 1 ==> s == [s[0]]
    ensures |s| == 2 ==> s == [s[0], s[1]]
    ensures |s| == 3 ==> s == [s[0], s[1], s[2]]
    ensures |s| == 4 ==> s == [s[0], s[1], s[2], s[3]]
    ensures |s| == 6 ==> s == [s[0], s[1], s[2], s[3], s[4], s[5]]
  {
  }

  lemma DotSpellings(part: string)
    ensures IsDot(part) <==> part in {".", "%2e", "%2E"}
    ensures IsDotDot(part) <==>
            part in {"..", ".%2e", ".%2E", "%2e.", "%2E.", "%2e%2e", "%2e%2E", "%2E%2e", "%2E%2E"}
  {
    Spelled(part);
    Spelled(Lower(part));
  }

  lemma StackSnoc(a: seq<string>, part: string)
    ensures Stack(a + [part]) == Step(Stack(a), part)
  {
  }

  /** What is stacked after the same stack is stacked the same. */
  lemma {:induction false} StackFrom(a: seq<string>, a': seq<string>, b: seq<string>)
    requires Stack(a) == Stack(a')
    ensures Stack(a + b) == Stack(a' + b)
  {
    hide Stack, Step;
    if b == [] {
      assert a + b == a && a' + b == a';
    } else {
      var init, last := b[..|b| - 1], b[|b| - 1];
      StackFrom(a, a', init);
      assert a + b == a + init + [last] && a' + b == a' + init + [last];
      StackSnoc(a + init, last);
      StackSnoc(a' + init, last);
    }
  }

  /** The rules by which segments resolve, wherever they stand: a dot drops; two dots drop the ordinary segment before
      them, and themselves where none is; ordinary segments stand. No list of segments is out of their reach. */
  lemma ResolvingRules(a: seq<string>, b: seq<string>, x: string, dot: string, dots: string)
    requires IsDot(dot) && IsDotDot(dots) && Ordinary(x)
    ensures Stack(a + [dot] + b) == Stack(a + b)
    ensures Stack(a + [x, dots] + b) == Stack(a + b)
    ensures Stack([dots] + b) == Stack(b)
    ensures AllOrdinary(a) ==> Stack(a) == a
  {
    hide IsDot, IsDotDot;
    DotsDiffer(dots);
    StackSnoc(a, dot);
    StackFrom(a + [dot], a, b);
    StackSnoc(a, x);
    StackSnoc(a + [x], dots);
    assert a + [x, dots] == a + [x] + [dots];
    assert (Stack(a) + [x])[..|Stack(a)|] == Stack(a);
    StackFrom(a + [x, dots], a, b);
    StackSnoc([], dots);
    assert [] + [dots] == [dots] && [] + b == b;
    StackFrom([dots], [], b);
    if AllOrdinary(a) {
      OrdinaryStacksAsItself(a);
    }
  }

  lemma DotsDiffer(part: string)
    ensures !(IsDot(part) && IsDotDot(part))
  {
  }

  /** A path as its parts and the separator, either one, before each but the first. */
  function Written(first: string, parts: seq<(char, string)>): string {
    if parts == [] then first
    else Written(first, parts[..|parts| - 1]) + ([parts[|parts| - 1].0] + parts[|parts| - 1].1)
  }

  function Names(parts: seq<(char, string)>): (names: seq<string>)
    ensures |names| == |parts| && forall i | 0 <= i < |parts| :: names[i] == parts[i].1
  {
    seq(|parts|, i requires 0 <= i < |parts| => parts[i].1)
  }

  ghost predicate IsWritten(first: string, parts: seq<(char, string)>) {
    && NoSeparator(first) && NoPathEnd(first)
    && forall i | 0 <= i < |parts| :: IsSeparator(parts[i].0) && NoSeparator(parts[i].1) && NoPathEnd(parts[i].1)
  }

  lemma {:induction false} SplitWritten(first: string, parts: seq<(char, string)>)
    requires IsWritten(first, parts)
    ensures Split(Written(first, parts)) == [first] + Names(parts) && NoPathEnd(Written(first, parts))
  {
    hide Split, Find;
    if parts == [] {
      SplitPlain(first);
      assert [first] + Names(parts) == [first];
    } else {
      var init, last := parts[..|parts| - 1], parts[|parts| - 1];
      SplitWritten(first, init);
      SplitConcat(Written(first, init), last.0, last.1);
      SplitPlain(last.1);
      assert [first] + Names(parts) == [first] + Names(init) + [last.1];
      assert NoPathEnd([last.0] + last.1);
    }
  }

  /** A path's segments, up to a query or fragment if it has one, resolve as the rules say and are written with `/`; one
      with no separator is as it was. */
  lemma ResolvedIs(first: string, parts: seq<(char, string)>, end: string)
    requires IsWritten(first, parts) && (end != "" ==> end[0] in {'?', '#'})
    ensures Resolve(Written(first, parts) + end) ==
            if parts == [] then first else first + "/" + Join(Stack(Names(parts)))
  {
    var p := Written(first, parts);
    SplitWritten(first, parts);
    forall i | 0 <= i < |p| ensures !EndsPath((p + end)[i]) {
      assert (p + end)[i] == p[i];
    }
    FindIs(p + end, EndsPath, |p|);
    assert CutPath(p + end) == p;
    PlainlySplit(p);
    assert ([first] + Names(parts))[1..] == Names(parts);
    hide Split, Stack, Find;
  }
}
