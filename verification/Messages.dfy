/**
 Catalogue messages: literal text with named arguments in braces, their parsing,
 and their resolution against the values a caller supplies.
 */
module Messages {
  import opened Common
  import opened Text

  datatype Piece = Text(text: string) | Argument(name: string)

  predicate IsNameChar(c: char) { 'a' <= c <= 'z' || c == '_' }

  predicate IsBrace(c: char) { c == '{' || c == '}' }

  // ---- parsing ----

  /** How many name characters a text starts with. */
  function NameLength(s: string): (n: nat)
    ensures n <= |s|
  {
    if s != "" && IsNameChar(s[0]) then 1 + NameLength(s[1..]) else 0
  }

  function Flush(text: string): seq<Piece> { if text == "" then [] else [Text(text)] }

  function Joined(text: string, name: string, rest: Option<seq<Piece>>): Option<seq<Piece>> {
    if rest.None? then None else Some(Flush(text) + ([Argument(name)] + rest.value))
  }

  /** The pieces of a message after `text`, or none if its braces do not spell `{name}` and nothing else. */
  function Parse(message: string, text: string): Option<seq<Piece>>
    decreases |message|
  {
    if message == "" then Some(Flush(text))
    else if message[0] == '{' then
      var n := NameLength(message[1..]);
      if n == 0 || n + 1 == |message| || message[n + 1] != '}' then None
      else Joined(text, message[1..n + 1], Parse(message[n + 2..], ""))
    else if message[0] == '}' then None
    else Parse(message[1..], text + [message[0]])
  }

  lemma NameLengthAt(s: string, n: nat)
    requires n <= |s|
    requires forall k | 0 <= k < n :: IsNameChar(s[k])
    requires n < |s| ==> !IsNameChar(s[n])
    ensures NameLength(s) == n
  {
    if n > 0 {
      NameLengthAt(s[1..], n - 1);
    }
  }

  lemma NameIs(message: string, start: nat, i: nat)
    requires 0 < start <= i <= |message|
    requires forall k | start <= k < i :: IsNameChar(message[k])
    requires i < |message| ==> !IsNameChar(message[i])
    ensures NameLength(message[start - 1..][1..]) == i - start && message[start - 1..][1..i - start + 1] == message[start..i]
    ensures i < |message| ==> message[start - 1..][i - start + 1] == message[i]
                              && message[start - 1..][i - start + 2..] == message[i + 1..]
  {
    assert message[start - 1..][1..] == message[start..];
    NameLengthAt(message[start..], i - start);
  }

  /** What the pieces so far come to with the rest of the message. */
  function Onwards(pieces: seq<Piece>, rest: Option<seq<Piece>>): Option<seq<Piece>> {
    if rest.None? then None else Some(pieces + rest.value)
  }

  lemma OnwardsFromNothing(rest: Option<seq<Piece>>)
    ensures Onwards([], rest) == rest
  {
    if rest.Some? {
      assert [] + rest.value == rest.value;
    }
  }

  lemma OnwardsJoined(pieces: seq<Piece>, text: string, name: string, rest: Option<seq<Piece>>)
    ensures Onwards(pieces, Joined(text, name, rest)) == Onwards(pieces + Flush(text) + [Argument(name)], rest)
  {
    if rest.Some? {
      assert pieces + (Flush(text) + ([Argument(name)] + rest.value))
          == (pieces + Flush(text) + [Argument(name)]) + rest.value;
    }
  }

  method ParseMessage(message: string) returns (r: Option<seq<Piece>>)
    ensures r == Parse(message, "")
  {
    hide Joined, IsNameChar, NameLength;
    var pieces: seq<Piece> := [];
    var text := "";
    var i := 0;
    assert message[0..] == message;
    OnwardsFromNothing(Parse(message, ""));
    while i < |message|
      invariant 0 <= i <= |message|
      invariant Onwards(pieces, Parse(message[i..], text)) == Parse(message, "")
    {
      assert message[i..][1..] == message[i + 1..];
      var character := message[i];
      i := i + 1;
      if character == '{' {
        var start := i;
        while i < |message| && IsNameChar(message[i])
          invariant start <= i <= |message|
          invariant forall k | start <= k < i :: IsNameChar(message[k])
        {
          i := i + 1;
        }
        NameIs(message, start, i);
        if i == |message| || message[i] != '}' || i == start {
          return None;
        }
        var name := message[start..i];
        i := i + 1;
        OnwardsJoined(pieces, text, name, Parse(message[i..], ""));
        if text != "" {
          pieces := pieces + [Text(text)];
        } else {
          assert pieces + [] == pieces;
        }
        text := "";
        pieces := pieces + [Argument(name)];
      } else if character == '}' {
        return None;
      } else {
        text := text + [character];
      }
    }
    assert message[i..] == "";
    if text != "" {
      pieces := pieces + [Text(text)];
    } else {
      assert pieces + [] == pieces;
    }
    r := Some(pieces);
  }

  // ---- printing ----

  function PrintPiece(p: Piece): string {
    match p
    case Text(text) => text
    case Argument(name) => "{" + name + "}"
  }

  function Print(pieces: seq<Piece>): string {
    if pieces == [] then "" else PrintPiece(pieces[0]) + Print(pieces[1..])
  }

  predicate Plain(s: string) { forall i | 0 <= i < |s| :: !IsBrace(s[i]) }

  predicate IsName(s: string) { s != "" && forall i | 0 <= i < |s| :: IsNameChar(s[i]) }

  /** No empty text, no brace in a text, no malformed name, and no two texts side by side. */
  predicate Normal(pieces: seq<Piece>) {
    pieces == [] ||
    (&& (match pieces[0] case Text(text) => text != "" && Plain(text) case Argument(name) => IsName(name))
     && (pieces[0].Text? && |pieces| > 1 ==> pieces[1].Argument?)
     && Normal(pieces[1..]))
  }

  lemma NameIsName(s: string)
    ensures forall k | 0 <= k < NameLength(s) :: IsNameChar(s[k])
  {
  }

  lemma {:induction false} PrintConcat(a: seq<Piece>, b: seq<Piece>)
    ensures Print(a + b) == Print(a) + Print(b)
  {
    if a == [] {
      assert a + b == b;
    } else {
      assert (a + b)[0] == a[0] && (a + b)[1..] == a[1..] + b;
      PrintConcat(a[1..], b);
      assert PrintPiece(a[0]) + (Print(a[1..]) + Print(b)) == (PrintPiece(a[0]) + Print(a[1..])) + Print(b);
    }
  }

  lemma FlushPrints(text: string)
    ensures Print(Flush(text)) == text
  {
  }

  lemma ArgumentPrints(name: string, rest: seq<Piece>)
    ensures Print([Argument(name)] + rest) == "{" + name + "}" + Print(rest)
  {
  }

  lemma FlushIsNormal(text: string, rest: seq<Piece>)
    requires Plain(text) && Normal(rest) && (rest == [] || rest[0].Argument?)
    ensures Normal(Flush(text) + rest)
  {
    if text != "" {
      assert (Flush(text) + rest)[1..] == rest;
    } else {
      assert Flush(text) + rest == rest;
    }
  }

  lemma ArgumentIsNormal(name: string, rest: seq<Piece>)
    requires IsName(name) && Normal(rest)
    ensures Normal([Argument(name)] + rest)
  {
  }

  lemma SplitAtName(message: string, n: nat)
    requires n + 1 < |message| && message[0] == '{' && message[n + 1] == '}'
    ensures message == "{" + message[1..n + 1] + "}" + message[n + 2..]
  {
  }

  lemma SpelledIsName(message: string, n: nat)
    requires message != "" && 0 < n == NameLength(message[1..]) && n + 1 <= |message|
    ensures IsName(message[1..n + 1])
  {
    hide NameLength;
    NameIsName(message[1..]);
    var name := message[1..n + 1];
    forall k | 0 <= k < n ensures IsNameChar(name[k]) {
      assert name[k] == message[1..][k];
    }
  }

  /** What parses prints back as it was, and is in normal form. */
  lemma {:induction false} ParsedPrintsBack(message: string, text: string)
    requires Plain(text) && Parse(message, text).Some?
    ensures Print(Parse(message, text).value) == text + message && Normal(Parse(message, text).value)
    decreases |message|
  {
    if message == "" {
      FlushPrints(text);
      FlushIsNormal(text, []);
      assert Flush(text) + [] == Flush(text) && text + "" == text;
    } else if message[0] == '{' {
      var n := NameLength(message[1..]);
      var name, left := message[1..n + 1], message[n + 2..];
      var rest := Parse(left, "").value;
      ParsedPrintsBack(left, "");
      assert "" + left == left;
      SpelledIsName(message, n);
      PrintConcat(Flush(text), [Argument(name)] + rest);
      FlushPrints(text);
      ArgumentPrints(name, rest);
      SplitAtName(message, n);
      ArgumentIsNormal(name, rest);
      FlushIsNormal(text, [Argument(name)] + rest);
    } else {
      ParsedPrintsBack(message[1..], text + [message[0]]);
      assert text + [message[0]] + message[1..] == text + message;
    }
  }

  lemma {:induction false} PlainTextGathers(more: string, message: string, text: string)
    requires Plain(more)
    ensures Parse(more + message, text) == Parse(message, text + more)
    decreases |more|
  {
    if more == "" {
      assert more + message == message && text + more == text;
    } else {
      assert (more + message)[0] == more[0] && (more + message)[1..] == more[1..] + message;
      PlainTextGathers(more[1..], message, text + [more[0]]);
      assert text + [more[0]] + more[1..] == text + more;
    }
  }

  lemma ArgumentParses(name: string, message: string, text: string)
    requires IsName(name)
    ensures Parse("{" + name + "}" + message, text) == Joined(text, name, Parse(message, ""))
  {
    var whole := "{" + name + "}" + message;
    assert whole[1..][|name|] == '}';
    forall k | 0 <= k < |name| ensures whole[1..][k] == name[k] {
    }
    NameLengthAt(whole[1..], |name|);
    assert whole[1..|name| + 1] == name && whole[|name| + 2..] == message;
  }

  lemma GatheredThenArgument(text: string, name: string, last: seq<Piece>)
    requires IsName(name) && Parse(Print(last), "") == Some(last)
    ensures Parse("{" + name + "}" + Print(last), text) == Some(Flush(text) + ([Argument(name)] + last))
  {
    hide Parse, Print, IsName, Flush;
    ArgumentParses(name, Print(last), text);
  }

  lemma LoneTextParses(text: string)
    requires text != "" && Plain(text)
    ensures Parse(text + "", "") == Some([Text(text)])
  {
    PlainTextGathers(text, "", "");
    assert "" + text == text;
  }

  lemma FirstPrints(pieces: seq<Piece>)
    requires pieces != []
    ensures Print(pieces) == PrintPiece(pieces[0]) + Print(pieces[1..])
  {
  }

  lemma NothingPrints()
    ensures Print([]) == ""
  {
  }

  lemma NormalParts(pieces: seq<Piece>)
    requires Normal(pieces) && pieces != []
    ensures Normal(pieces[1..])
    ensures pieces[0].Argument? ==> IsName(pieces[0].name)
    ensures pieces[0].Text? ==> pieces[0].text != "" && Plain(pieces[0].text) && (|pieces| > 1 ==> pieces[1].Argument?)
  {
    hide IsName, Plain;
  }

  /** Pieces in normal form parse back from what they print. */
  lemma {:induction false} PrintedParsesBack(pieces: seq<Piece>)
    requires Normal(pieces)
    ensures Parse(Print(pieces), "") == Some(pieces)
    decreases |pieces|
  {
    if pieces != [] {
      hide Print, Parse, Normal, IsName, Plain;
      var first, rest := pieces[0], pieces[1..];
      NormalParts(pieces);
      PrintedParsesBack(rest);
      FirstPrints(pieces);
      assert pieces == [first] + rest;
      if first.Argument? {
        GatheredThenArgument("", first.name, rest);
        assert Flush("") + pieces == pieces;
      } else if rest == [] {
        LoneTextParses(first.text);
        NothingPrints();
        assert pieces == [first];
      } else {
        NormalParts(rest);
        PrintedParsesBack(rest[1..]);
        FirstPrints(rest);
        assert rest == [rest[0]] + rest[1..];
        PlainTextGathers(first.text, Print(rest), "");
        assert "" + first.text == first.text;
        GatheredThenArgument(first.text, rest[0].name, rest[1..]);
      }
    }
  }

  /** The accepted messages are exactly those that pieces in normal form print. */
  lemma AcceptedIffPrinted(message: string)
    ensures Parse(message, "").Some? <==> exists pieces :: Normal(pieces) && Print(pieces) == message
  {
    if Parse(message, "").Some? {
      ParsedPrintsBack(message, "");
      assert "" + message == message;
    }
    if pieces :| Normal(pieces) && Print(pieces) == message {
      PrintedParsesBack(pieces);
    }
  }

  // ---- the arguments a message names ----

  /** The argument names, in order of first appearance. */
  function Names(pieces: seq<Piece>): seq<string> {
    if pieces == [] then []
    else
      var n := |pieces| - 1;
      var earlier := Names(pieces[..n]);
      if pieces[n].Argument? && pieces[n].name !in earlier then earlier + [pieces[n].name] else earlier
  }

  method Arguments(pieces: seq<Piece>) returns (names: seq<string>)
    ensures names == Names(pieces)
  {
    names := [];
    for i := 0 to |pieces|
      invariant names == Names(pieces[..i])
    {
      assert pieces[..i + 1][..i] == pieces[..i];
      if pieces[i].Argument? && pieces[i].name !in names {
        names := names + [pieces[i].name];
      }
    }
    assert pieces[..|pieces|] == pieces;
  }

  lemma {:induction false} NamesAreTheArguments(pieces: seq<Piece>, name: string)
    ensures name in Names(pieces) <==> Argument(name) in pieces
  {
    if pieces != [] {
      var n := |pieces| - 1;
      NamesAreTheArguments(pieces[..n], name);
      assert pieces == pieces[..n] + [pieces[n]];
    }
  }

  /** Each name is listed once, and a name listed before another appears before it does. */
  lemma {:induction false} NamesAreInOrder(pieces: seq<Piece>, i: nat, j: nat)
    requires i < j < |Names(pieces)|
    ensures Names(pieces)[i] != Names(pieces)[j]
    ensures exists k :: 0 <= k < |pieces| && pieces[k] == Argument(Names(pieces)[i]) && Argument(Names(pieces)[j]) !in pieces[..k + 1]
  {
    var n := |pieces| - 1;
    var earlier := Names(pieces[..n]);
    if j < |earlier| {
      NamesAreInOrder(pieces[..n], i, j);
      var k :| 0 <= k < n && pieces[..n][k] == Argument(earlier[i]) && Argument(earlier[j]) !in pieces[..n][..k + 1];
      assert pieces[..n][..k + 1] == pieces[..k + 1];
      assert pieces[k] == Argument(Names(pieces)[i]);
    } else {
      NamesAreTheArguments(pieces[..n], earlier[i]);
      NamesAreTheArguments(pieces[..n], pieces[n].name);
      var k :| 0 <= k < n && pieces[..n][k] == Argument(earlier[i]);
      assert pieces[..k + 1] <= pieces[..n];
      assert forall x | x in pieces[..k + 1] :: x in pieces[..n];
      assert pieces[k] == Argument(Names(pieces)[i]);
    }
  }

  // ---- resolving ----

  /** The first value supplied under a name. */
  function Lookup(arguments: seq<(string, string)>, name: string): Option<string> {
    if arguments == [] then None
    else if arguments[0].0 == name then Some(arguments[0].1)
    else Lookup(arguments[1..], name)
  }

  /** The text with each argument's value in its place, or the first argument no value is supplied for. */
  function Resolved(pieces: seq<Piece>, arguments: seq<(string, string)>): Result<string, string> {
    if pieces == [] then Ok("")
    else
      var n := |pieces| - 1;
      var earlier := Resolved(pieces[..n], arguments);
      if earlier.Err? then earlier
      else
        match pieces[n]
        case Text(text) => Ok(earlier.value + text)
        case Argument(name) =>
          if Lookup(arguments, name).None? then Err(name) else Ok(earlier.value + Lookup(arguments, name).value)
  }

  method Find(arguments: seq<(string, string)>, name: string) returns (r: Option<string>)
    ensures r == Lookup(arguments, name)
  {
    for i := 0 to |arguments|
      invariant Lookup(arguments[i..], name) == Lookup(arguments, name)
    {
      assert arguments[i..][1..] == arguments[i + 1..];
      if arguments[i].0 == name {
        return Some(arguments[i].1);
      }
    }
    r := None;
  }

  method Resolve(pieces: seq<Piece>, arguments: seq<(string, string)>) returns (r: Result<string, string>)
    ensures r == Resolved(pieces, arguments)
  {
    var resolved := "";
    for i := 0 to |pieces|
      invariant Resolved(pieces[..i], arguments) == Ok(resolved)
    {
      assert pieces[..i + 1][..i] == pieces[..i];
      match pieces[i] {
        case Text(text) => resolved := resolved + text;
        case Argument(name) =>
          var value := Find(arguments, name);
          if value.None? {
            MissingStays(pieces, arguments, i + 1);
            return Err(name);
          }
          resolved := resolved + value.value;
      }
    }
    assert pieces[..|pieces|] == pieces;
    r := Ok(resolved);
  }

  lemma {:induction false} MissingStays(pieces: seq<Piece>, arguments: seq<(string, string)>, i: nat)
    requires i <= |pieces| && Resolved(pieces[..i], arguments).Err?
    ensures Resolved(pieces, arguments) == Resolved(pieces[..i], arguments)
    decreases |pieces|
  {
    if i == |pieces| {
      assert pieces[..i] == pieces;
    } else {
      var n := |pieces| - 1;
      assert pieces[..n][..i] == pieces[..i];
      MissingStays(pieces[..n], arguments, i);
    }
  }

  /** A message resolves just where a value is supplied for every name it lists. */
  lemma {:induction false} ResolvesIffAllSupplied(pieces: seq<Piece>, arguments: seq<(string, string)>)
    ensures Resolved(pieces, arguments).Ok? <==> forall name | name in Names(pieces) :: Lookup(arguments, name).Some?
    ensures Resolved(pieces, arguments).Err? ==>
              Resolved(pieces, arguments).error in Names(pieces) && Lookup(arguments, Resolved(pieces, arguments).error).None?
  {
    if pieces != [] {
      var n := |pieces| - 1;
      ResolvesIffAllSupplied(pieces[..n], arguments);
      assert forall name | name in Names(pieces[..n]) :: name in Names(pieces);
      if pieces[n].Argument? {
        NamesAreTheArguments(pieces, pieces[n].name);
      }
      assert forall name | name in Names(pieces) :: name in Names(pieces[..n]) || pieces[n] == Argument(name);
    }
  }

  /** Only the values found under the names listed matter: later values under a name, and values under other
      names, change nothing. */
  lemma {:induction false} OnlyListedNamesMatter(pieces: seq<Piece>, a: seq<(string, string)>, b: seq<(string, string)>)
    requires forall name | name in Names(pieces) :: Lookup(a, name) == Lookup(b, name)
    ensures Resolved(pieces, a) == Resolved(pieces, b)
  {
    if pieces != [] {
      var n := |pieces| - 1;
      assert forall name | name in Names(pieces[..n]) :: name in Names(pieces);
      OnlyListedNamesMatter(pieces[..n], a, b);
      if pieces[n].Argument? {
        NamesAreTheArguments(pieces, pieces[n].name);
      }
    }
  }

  lemma {:induction false} FirstSuppliedWins(a: seq<(string, string)>, b: seq<(string, string)>, name: string)
    ensures Lookup(a + b, name) == if Lookup(a, name).Some? then Lookup(a, name) else Lookup(b, name)
  {
    if a == [] {
      assert a + b == b;
    } else {
      assert (a + b)[0] == a[0] && (a + b)[1..] == a[1..] + b;
      FirstSuppliedWins(a[1..], b, name);
    }
  }

  /** A message with each `{name}` in it replaced by that name's value, on the text itself. */
  function Substituted(message: string, arguments: seq<(string, string)>): string
    decreases |message|
  {
    if message == "" then ""
    else if message[0] == '{' then
      var n := NameLength(message[1..]);
      if n + 2 <= |message| && Lookup(arguments, message[1..n + 1]).Some?
      then Lookup(arguments, message[1..n + 1]).value + Substituted(message[n + 2..], arguments)
      else ""
    else [message[0]] + Substituted(message[1..], arguments)
  }

  function ResolvedPiece(p: Piece, arguments: seq<(string, string)>): string
    requires p.Argument? ==> Lookup(arguments, p.name).Some?
  {
    match p
    case Text(text) => text
    case Argument(name) => Lookup(arguments, name).value
  }

  lemma {:induction false} ResolvedFirst(first: Piece, rest: seq<Piece>, arguments: seq<(string, string)>)
    requires Resolved([first] + rest, arguments).Ok?
    ensures first.Argument? ==> Lookup(arguments, first.name).Some?
    ensures Resolved(rest, arguments).Ok?
    ensures Resolved([first] + rest, arguments).value == ResolvedPiece(first, arguments) + Resolved(rest, arguments).value
    decreases |rest|
  {
    var whole := [first] + rest;
    if rest == [] {
      assert whole[..0] == [];
    } else {
      var n := |rest| - 1;
      assert whole[..|whole| - 1] == [first] + rest[..n] && whole[|whole| - 1] == rest[n];
      ResolvedFirst(first, rest[..n], arguments);
    }
  }

  /** Resolving a parsed message is substitution into its text. */
  lemma {:induction false} ResolvingIsSubstitution(message: string, text: string, arguments: seq<(string, string)>)
    requires Parse(message, text).Some? && Resolved(Parse(message, text).value, arguments).Ok?
    ensures Resolved(Parse(message, text).value, arguments).value == text + Substituted(message, arguments)
    decreases |message|
  {
    if message == "" {
      FlushResolves(text, [], arguments);
      assert Flush(text) + [] == Flush(text);
    } else if message[0] == '{' {
      var n := NameLength(message[1..]);
      var name := message[1..n + 1];
      var rest := Parse(message[n + 2..], "").value;
      FlushResolves(text, [Argument(name)] + rest, arguments);
      ResolvedFirst(Argument(name), rest, arguments);
      ResolvingIsSubstitution(message[n + 2..], "", arguments);
      assert "" + Substituted(message[n + 2..], arguments) == Substituted(message[n + 2..], arguments);
    } else {
      ResolvingIsSubstitution(message[1..], text + [message[0]], arguments);
      assert text + [message[0]] + Substituted(message[1..], arguments) == text + ([message[0]] + Substituted(message[1..], arguments));
    }
  }

  lemma FlushResolves(text: string, rest: seq<Piece>, arguments: seq<(string, string)>)
    requires Resolved(Flush(text) + rest, arguments).Ok?
    ensures Resolved(rest, arguments).Ok?
    ensures Resolved(Flush(text) + rest, arguments).value == text + Resolved(rest, arguments).value
  {
    if text == "" {
      assert Flush(text) + rest == rest && text + Resolved(rest, arguments).value == Resolved(rest, arguments).value;
    } else {
      ResolvedFirst(Text(text), rest, arguments);
    }
  }
}
