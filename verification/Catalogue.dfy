/**
 A language's catalogue: one `key = message` to a line, read into a table from each key to its message's
 pieces. Lines that are blank or start with a hash say nothing; any other that is not an entry is an error,
 reported with its number.
 */
module Catalogue {
  import opened Common
  import opened Text
  import opened Messages

  datatype CatalogueError =
    | MissingSeparator(line: nat)
    | InvalidKey(line: nat, key: string)
    | EmptyMessage(line: nat, key: string)
    | InvalidPlaceholder(line: nat, key: string)
    | DuplicateKey(line: nat, key: string)

  /** What one line is: blank or a comment, a fault, or an entry. */
  datatype Reading = Skipped | Faulty(error: CatalogueError) | Entry(key: string, pieces: seq<Piece>)

  predicate IsKeyChar(c: char) { 'a' <= c <= 'z' || c == '.' || c == '_' }

  predicate IsKey(s: string) { s != "" && forall i | 0 <= i < |s| :: IsKeyChar(s[i]) }

  /** Where the first equals sign is, or the length. */
  function Separator(s: string): (n: nat)
    ensures n <= |s| && (n < |s| ==> s[n] == '=') && forall i | 0 <= i < n :: s[i] != '='
  {
    if s == "" || s[0] == '=' then 0
    else
      var rest := Separator(s[1..]);
      assert forall i | 1 <= i < 1 + rest :: s[i] == s[1..][i - 1];
      1 + rest
  }

  function ReadLine(raw: string, line: nat): Reading {
    var trimmed := TrimWhite(raw);
    if trimmed == "" || trimmed[0] == '#' then Skipped
    else if Separator(trimmed) == |trimmed| then Faulty(MissingSeparator(line))
    else
      var key := TrimWhite(trimmed[..Separator(trimmed)]);
      var message := TrimWhite(trimmed[Separator(trimmed) + 1..]);
      if !IsKey(key) then Faulty(InvalidKey(line, key))
      else if message == "" then Faulty(EmptyMessage(line, key))
      else if Parse(message, "").None? then Faulty(InvalidPlaceholder(line, key))
      else Entry(key, Parse(message, "").value)
  }

  function ReadAt(lines: seq<string>, i: nat): Reading
    requires i < |lines|
  {
    ReadLine(lines[i], i + 1)
  }

  predicate EntryAt(lines: seq<string>, i: nat, key: string) {
    i < |lines| && ReadAt(lines, i).Entry? && ReadAt(lines, i).key == key
  }

  /** Whether line `i`'s key is one an earlier line has. */
  predicate Repeats(lines: seq<string>, i: nat)
    requires i < |lines|
  {
    ReadAt(lines, i).Entry? && exists j: nat :: j < i && EntryAt(lines, j, ReadAt(lines, i).key)
  }

  predicate SoundAt(lines: seq<string>, i: nat)
    requires i < |lines|
  {
    !ReadAt(lines, i).Faulty? && !Repeats(lines, i)
  }

  /** The table holds each line's entry, and no other. */
  ghost predicate Holds(messages: map<string, seq<Piece>>, lines: seq<string>, n: nat)
    requires n <= |lines|
  {
    && (forall i: nat | i < n && ReadAt(lines, i).Entry? ::
          ReadAt(lines, i).key in messages && messages[ReadAt(lines, i).key] == ReadAt(lines, i).pieces)
    && forall key | key in messages :: exists i: nat :: i < n && EntryAt(lines, i, key)
  }

  /** The first line that is faulty, or repeats a key, and how it is reported. */
  ghost predicate FirstFault(lines: seq<string>, i: nat, error: CatalogueError) {
    && i < |lines| && (forall j: nat | j < i :: SoundAt(lines, j)) && !SoundAt(lines, i)
    && error == if ReadAt(lines, i).Faulty? then ReadAt(lines, i).error else DuplicateKey(i + 1, ReadAt(lines, i).key)
  }

  method ParseCatalogue(lines: seq<string>) returns (r: Result<map<string, seq<Piece>>, CatalogueError>)
    ensures r.Ok? <==> forall i: nat | i < |lines| :: SoundAt(lines, i)
    ensures r.Ok? ==> Holds(r.value, lines, |lines|)
    ensures r.Err? ==> exists i: nat :: FirstFault(lines, i, r.error)
  {
    hide ReadLine;
    var messages: map<string, seq<Piece>> := map[];
    var line := 0;
    while line < |lines|
      invariant 0 <= line <= |lines|
      invariant forall j: nat | j < line :: SoundAt(lines, j)
      invariant Holds(messages, lines, line)
    {
      var entry := ReadOne(lines[line], line + 1);
      match entry {
        case Skipped =>
        case Faulty(error) =>
          assert FirstFault(lines, line, error);
          return Err(error);
        case Entry(key, pieces) =>
          if key in messages {
            var i: nat :| i < line && EntryAt(lines, i, key);
            assert FirstFault(lines, line, DuplicateKey(line + 1, key));
            return Err(DuplicateKey(line + 1, key));
          }
          assert EntryAt(lines, line, key);
          messages := messages[key := pieces];
      }
      line := line + 1;
    }
    r := Ok(messages);
  }

  method ReadOne(raw: string, line: nat) returns (r: Reading)
    ensures r == ReadLine(raw, line)
  {
    var trimmed := TrimWhite(raw);
    if trimmed == "" || trimmed[0] == '#' {
      return Skipped;
    }
    var n := Separator(trimmed);
    if n == |trimmed| {
      return Faulty(MissingSeparator(line));
    }
    var key, message := TrimWhite(trimmed[..n]), TrimWhite(trimmed[n + 1..]);
    if !IsKey(key) {
      return Faulty(InvalidKey(line, key));
    }
    if message == "" {
      return Faulty(EmptyMessage(line, key));
    }
    var pieces := ParseMessage(message);
    if pieces.None? {
      return Faulty(InvalidPlaceholder(line, key));
    }
    r := Entry(key, pieces.value);
  }

  // ---- writing a line ----

  lemma SeparatorAt(s: string, n: nat)
    requires n < |s| && s[n] == '=' && forall i | 0 <= i < n :: s[i] != '='
    ensures Separator(s) == n
  {
  }

  lemma WrittenLineSplits(key: string, message: string)
    requires IsKey(key) && message != "" && Trimmed(message)
    ensures var raw := key + " = " + message;
            && TrimWhite(raw) == raw && raw[0] != '#' && Separator(raw) == |key| + 1
            && raw[..|key| + 1] == key + " " && raw[|key| + 2..] == " " + message
            && Trimmed(key)
  {
    hide TrimRight, TrimLeft;
    var raw := key + " = " + message;
    assert IsKeyChar(key[0]) && IsKeyChar(key[|key| - 1]);
    assert raw[0] == key[0] && raw[|raw| - 1] == message[|message| - 1];
    TrimmedStays(raw);
    assert forall i | 0 <= i < |key| :: raw[i] == key[i] && IsKeyChar(key[i]);
    SeparatorAt(raw, |key| + 1);
    assert raw[..|key| + 1] == key + " " && raw[|key| + 2..] == " " + message;
  }

  /** An entry written `key = message` reads back as it was, on any line. */
  lemma WrittenLineReadsBack(key: string, pieces: seq<Piece>, line: nat)
    requires IsKey(key) && Normal(pieces) && pieces != [] && Trimmed(Print(pieces))
    ensures ReadLine(key + " = " + Print(pieces), line) == Entry(key, pieces)
  {
    PrintedParsesBack(pieces);
    PrintsSomething(pieces);
    hide Parse, Normal, Print, Trim, TrimWhite, Trimmed, Separator;
    WrittenLineSplits(key, Print(pieces));
    SpacedTrims(key, Print(pieces));
  }

  lemma PrintsSomething(pieces: seq<Piece>)
    requires Normal(pieces) && pieces != []
    ensures Print(pieces) != ""
  {
  }

  lemma SpacedTrims(key: string, message: string)
    requires key != "" && message != "" && Trimmed(key) && Trimmed(message)
    ensures TrimWhite(key + " ") == key && TrimWhite(" " + message) == message
  {
    var s := key + " ";
    assert s[..|s| - 1] == key && s[|s| - 1] == ' ';
    assert TrimRight(s, IsWhite) == TrimRight(key, IsWhite) == key;
    var t := " " + message;
    assert t[1..] == message;
    assert TrimRight(t, IsWhite) == t;
    assert TrimLeft(t, IsWhite) == TrimLeft(message, IsWhite) == message;
  }
}
