/**
 Which addresses an import carries over, and what it cuts from them: never a user name or a password, whatever
 way a browser would come to read one. A path's dot segments are resolved as a browser resolves them.
 */
module Address {
  import opened Common

  // ---- characters and their places ----

  predicate IsSeparator(c: char) { c == '/' || c == '\\' }

  predicate EndsPath(c: char) { c == '?' || c == '#' }

  predicate EndsAuthority(c: char) { IsSeparator(c) || EndsPath(c) }

  predicate IsColon(c: char) { c == ':' }

  /** The first place `stop` holds at, or the end. */
  function Find(s: string, stop: char -> bool): (i: nat)
    ensures i <= |s|
    ensures forall j | 0 <= j < i :: !stop(s[j])
    ensures i < |s| ==> stop(s[i])
  {
    if s == "" || stop(s[0]) then 0 else 1 + Find(s[1..], stop)
  }

  /** Just after the last `@`, or the start. */
  function AfterLastAt(s: string): (i: nat)
    ensures i <= |s|
    ensures i > 0 ==> s[i - 1] == '@'
    ensures '@' !in s[i..]
  {
    if s == "" then 0
    else if s[|s| - 1] == '@' then |s|
    else AfterLastAt(s[..|s| - 1])
  }

  // ---- dot segments ----

  /** The stretches of `s` between separators. */
  function Split(s: string): (parts: seq<string>)
    ensures parts != []
    decreases |s|
  {
    var i := Find(s, IsSeparator);
    if i == |s| then [s] else [s[..i]] + Split(s[i + 1..])
  }

  function Join(segments: seq<string>): string {
    if segments == [] then ""
    else if |segments| == 1 then segments[0]
    else segments[0] + "/" + Join(segments[1..])
  }

  predicate IsDot(part: string) {
    var p := Lower(part); p == "." || p == "%2e"
  }

  predicate IsDotDot(part: string) {
    var p := Lower(part); p == ".." || p == ".%2e" || p == "%2e." || p == "%2e%2e"
  }

  /** What one part does to the stack of segments. */
  function Step(segments: seq<string>, part: string): seq<string> {
    if IsDot(part) then segments
    else if IsDotDot(part) then (if segments == [] then [] else segments[..|segments| - 1])
    else segments + [part]
  }

  function Stack(parts: seq<string>): seq<string> {
    if parts == [] then [] else Step(Stack(parts[..|parts| - 1]), parts[|parts| - 1])
  }

  function HasSeparator(s: string): bool {
    Find(s, IsSeparator) < |s|
  }

  function CutPath(path: string): string {
    path[..Find(path, EndsPath)]
  }

  /** `path` with its dot segments resolved as a browser resolves them. */
  function Resolve(path: string): string {
    var p := CutPath(path);
    if !HasSeparator(p) then p
    else Split(p)[0] + "/" + Join(Stack(Split(p)[1..]))
  }

  /** The same, with the stack of segments updated part by part. */
  method ResolveDots(path: string) returns (resolved: string)
    ensures resolved == Resolve(path)
  {
    var p := path[..Find(path, EndsPath)];
    if !HasSeparator(p) {
      return p;
    }
    var parts := Split(p);
    var segments: seq<string> := [];
    for i := 1 to |parts|
      invariant segments == Stack(parts[1..i])
    {
      var part := parts[i];
      assert parts[1..i + 1][..i - 1] == parts[1..i];
      if IsDot(part) {
      } else if IsDotDot(part) {
        if segments != [] {
          segments := segments[..|segments| - 1];
        }
      } else {
        segments := segments + [part];
      }
    }
    assert parts[1..|parts|] == parts[1..];
    resolved := parts[0] + "/" + Join(segments);
  }

  // ---- users ----

  /** How many separators `path` opens on. */
  function Leading(path: string): (k: nat)
    ensures k <= |path|
    ensures forall i | 0 <= i < k :: IsSeparator(path[i])
    ensures k < |path| ==> !IsSeparator(path[k])
  {
    if path == "" || !IsSeparator(path[0]) then 0 else 1 + Leading(path[1..])
  }

  predicate OpensOnAUser(path: string) {
    var k := Leading(path);
    k >= 2 && '@' in path[k..][..Find(path[k..], EndsAuthority)]
  }

  predicate SmugglesCredential(path: string) {
    OpensOnAUser(path) || OpensOnAUser(Resolve(path))
  }

  // ---- cleaning ----

  /** `raw` without the control characters and spaces at its ends. */
  function TrimStart(raw: string): string {
    if raw != "" && raw[0] <= ' ' then TrimStart(raw[1..]) else raw
  }

  function TrimEnd(raw: string): string {
    if raw != "" && raw[|raw| - 1] <= ' ' then TrimEnd(raw[..|raw| - 1]) else raw
  }

  function Trim(raw: string): string {
    TrimEnd(TrimStart(raw))
  }

  predicate IsPlain(s: string) {
    forall i | 0 <= i < |s| :: !IsControl(s[i]) && s[i] != ' '
  }

  /** Whether what follows the scheme opens an authority, as a browser opens one. */
  predicate OpensAuthority(after: string) {
    |after| >= 2 && IsSeparator(after[0]) && IsSeparator(after[1])
  }

  function CleanAfterScheme(scheme: string, after: string): Option<string> {
    if !OpensAuthority(after) then
      if scheme == "file" && after != "" && after[0] == '/' && !SmugglesCredential(after)
      then Some("file:" + after) else None
    else
      var rest := after[2..];
      var end := Find(rest, EndsAuthority);
      var host := rest[..end][AfterLastAt(rest[..end])..];
      var path := rest[end..];
      if host == "" && scheme != "file" then None
      else if scheme == "file" && SmugglesCredential(path) then None
      else Some(scheme + "://" + host + path)
  }

  /** The address to import for `raw`, if it is one to import. */
  function Clean(raw: string): Option<string> {
    var trimmed := Trim(raw);
    var colon := Find(trimmed, IsColon);
    if trimmed == "" || !IsPlain(trimmed) || colon == |trimmed| then None
    else
      var scheme := Lower(trimmed[..colon]);
      if scheme != "http" && scheme != "https" && scheme != "file" then None
      else CleanAfterScheme(scheme, trimmed[colon + 1..])
  }
}
