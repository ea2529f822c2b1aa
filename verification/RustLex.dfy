/** The scanner that blanks the non-code regions of Rust source and keeps every offset. */
module RustLex {
  import opened Common

  datatype Kind = Code | Comment | Literal

  datatype Token = Token(kind: Kind, end: nat)

  /** Whether `a` then `b` stand at `i`. */
  predicate Pair(s: string, i: nat, a: char, b: char) {
    i + 1 < |s| && s[i] == a && s[i + 1] == b
  }

  predicate At(s: string, i: nat, c: char) {
    i < |s| && s[i] == c
  }

  // ---- comments ----

  /** The newline that ends a line comment, or the end of the source. */
  function LineEnd(s: string, i: nat): (end: nat)
    requires i <= |s|
    ensures i <= end <= |s|
    ensures forall j | i <= j < end :: s[j] != '\n'
    ensures end < |s| ==> s[end] == '\n'
    decreases |s| - i
  {
    if i == |s| || s[i] == '\n' then i else LineEnd(s, i + 1)
  }

  /** Where a block comment open `depth` times at `j` ends: its balanced close, or the end of the source. */
  function BlockEnd(s: string, j: nat, depth: nat): (end: nat)
    requires j <= |s|
    ensures j <= end <= |s|
    decreases |s| - j
  {
    if j == |s| || depth == 0 then j
    else if Pair(s, j, '/', '*') then BlockEnd(s, j + 2, depth + 1)
    else if Pair(s, j, '*', '/') then BlockEnd(s, j + 2, depth - 1)
    else BlockEnd(s, j + 1, depth)
  }

  // ---- literals ----

  /** One character or one escape between single quotes. */
  function CharLiteralEnd(s: string, i: nat): Option<nat> {
    if !At(s, i, '\'') then None
    else if At(s, i + 1, '\\') && i + 2 < |s| && s[i + 2] != '\n' && At(s, i + 3, '\'') then Some(i + 4)
    else if i + 1 < |s| && s[i + 1] != '\'' && s[i + 1] != '\\' && At(s, i + 2, '\'') then Some(i + 3)
    else None
  }

  /** The first position from `i` on that holds no `#`. */
  function HashesEnd(s: string, i: nat): (end: nat)
    requires i <= |s|
    ensures i <= end <= |s|
    decreases |s| - i
  {
    if At(s, i, '#') then HashesEnd(s, i + 1) else i
  }

  /** The letters that open a raw string: `br`, `rb` or `r`. */
  function RawLetters(s: string, i: nat): (letters: nat)
    ensures i + letters <= |s| || letters == 0
  {
    if Pair(s, i, 'b', 'r') || Pair(s, i, 'r', 'b') then 2
    else if At(s, i, 'r') then 1
    else 0
  }

  /** How many `#` stand between a raw string's letters and its quote. */
  function RawHashes(s: string, i: nat): Option<nat> {
    var letters := RawLetters(s, i);
    if letters == 0 then None
    else
      var quote := HashesEnd(s, i + letters);
      if At(s, quote, '"') then Some(quote - (i + letters)) else None
  }

  /** Whether `"` and then `hashes` times `#` stand at `i`. */
  predicate ClosesRaw(s: string, i: nat, hashes: nat) {
    && i + 1 + hashes <= |s|
    && s[i] == '"'
    && forall k | i < k <= i + hashes :: s[k] == '#'
  }

  /** Just after the first raw close from `i` on, or the end of the source. */
  function RawClose(s: string, i: nat, hashes: nat): (end: nat)
    requires i <= |s|
    ensures i <= end <= |s|
    decreases |s| - i
  {
    if i == |s| then i
    else if ClosesRaw(s, i, hashes) then i + 1 + hashes
    else RawClose(s, i + 1, hashes)
  }

  function RawLiteralEnd(s: string, i: nat): Option<nat> {
    match RawHashes(s, i)
    case None => None
    case Some(hashes) => Some(RawClose(s, i + RawLetters(s, i) + hashes + 1, hashes))
  }

  /** Just after the quote that closes a plain string whose text begins at `j`, or the end of the source. */
  function PlainClose(s: string, j: nat): (end: nat)
    ensures j <= |s| ==> j <= end <= |s|
    ensures j > |s| ==> end == |s|
    decreases |s| - j
  {
    if j >= |s| then |s|
    else if s[j] == '"' then j + 1
    else if s[j] == '\\' then PlainClose(s, j + 2)
    else PlainClose(s, j + 1)
  }

  function PlainLiteralEnd(s: string, i: nat): Option<nat> {
    if At(s, i, '"') then Some(PlainClose(s, i + 1))
    else if Pair(s, i, 'b', '"') then Some(PlainClose(s, i + 2))
    else None
  }

  /** A character literal, a raw string or a plain string, tried in that order. */
  function LiteralEnd(s: string, i: nat): (end: Option<nat>)
    ensures end.Some? ==> i < end.value <= |s|
  {
    if CharLiteralEnd(s, i).Some? then CharLiteralEnd(s, i)
    else if RawLiteralEnd(s, i).Some? then RawLiteralEnd(s, i)
    else PlainLiteralEnd(s, i)
  }

  /** The region that begins at `i`, in the order Rust's lexer looks. */
  function TokenAt(s: string, i: nat): (t: Token)
    requires i < |s|
    ensures i < t.end <= |s|
  {
    if Pair(s, i, '/', '/') then Token(Comment, LineEnd(s, i + 2))
    else if Pair(s, i, '/', '*') then Token(Comment, BlockEnd(s, i + 2, 1))
    else
      match LiteralEnd(s, i)
      case Some(end) => Token(Literal, end)
      case None => Token(Code, i + 1)
  }

  // ---- blanking ----

  function BlankChar(c: char): char {
    if c == '\n' then '\n' else ' '
  }

  function Blank(text: string): (blanked: string)
    ensures |blanked| == |text| && forall j | 0 <= j < |text| :: blanked[j] == BlankChar(text[j])
  {
    seq(|text|, j requires 0 <= j < |text| => BlankChar(text[j]))
  }

  predicate Keeps(kind: Kind, keepLiterals: bool) {
    kind.Code? || (kind.Literal? && keepLiterals)
  }

  function Render(kind: Kind, text: string, keepLiterals: bool): string {
    if Keeps(kind, keepLiterals) then text else Blank(text)
  }

  function Strip(s: string, i: nat, keepLiterals: bool): (stripped: string)
    requires i <= |s|
    ensures |stripped| == |s| - i
    decreases |s| - i
  {
    if i == |s| then ""
    else
      var t := TokenAt(s, i);
      Render(t.kind, s[i..t.end], keepLiterals) + Strip(s, t.end, keepLiterals)
  }

  // ---- the scanner ----

  method StripNonCode(source: string, keepLiterals: bool) returns (out: string)
    ensures out == Strip(source, 0, keepLiterals)
  {
    hide TokenAt, Render;
    out := "";
    var i, n := 0, |source|;
    while i < n
      invariant 0 <= i <= n
      invariant out + Strip(source, i, keepLiterals) == Strip(source, 0, keepLiterals)
    {
      var j, text := NextRegion(source, i, keepLiterals);
      assert out + (text + Strip(source, j, keepLiterals)) == (out + text) + Strip(source, j, keepLiterals);
      out := out + text;
      i := j;
    }
    assert Strip(source, n, keepLiterals) == "";
  }

  /** One turn of the scanner: where the region at `i` ends, and what is put out for it. */
  method NextRegion(source: string, i: nat, keepLiterals: bool) returns (j: nat, text: string)
    requires i < |source|
    ensures j == TokenAt(source, i).end
    ensures text == Render(TokenAt(source, i).kind, source[i..j], keepLiterals)
  {
    if Pair(source, i, '/', '/') {
      j := FindLineEnd(source, i);
      text := Blank(source[i..j]);
    } else if Pair(source, i, '/', '*') {
      j := FindBlockEnd(source, i + 2);
      text := Blank(source[i..j]);
    } else if CharLiteralEnd(source, i).Some? {
      j := CharLiteralEnd(source, i).value;
      text := if keepLiterals then source[i..j] else Blank(source[i..j]);
    } else if RawHashes(source, i).Some? {
      var hashes := RawHashes(source, i).value;
      j := FindRawClose(source, i + RawLetters(source, i) + hashes + 1, hashes);
      text := if keepLiterals then source[i..j] else Blank(source[i..j]);
    } else if At(source, i, '"') || Pair(source, i, 'b', '"') {
      j := FindPlainClose(source, if source[i] == '"' then i + 1 else i + 2);
      text := if keepLiterals then source[i..j] else Blank(source[i..j]);
    } else {
      j := i + 1;
      text := source[i..i + 1];
    }
  }

  method FindLineEnd(source: string, i: nat) returns (end: nat)
    requires Pair(source, i, '/', '/')
    ensures end == LineEnd(source, i + 2)
  {
    end := i;
    while end < |source| && source[end] != '\n'
      invariant i <= end <= |source|
      invariant end <= i + 1 || LineEnd(source, end) == LineEnd(source, i + 2)
    {
      end := end + 1;
    }
  }

  method FindBlockEnd(source: string, start: nat) returns (j: nat)
    requires start <= |source|
    ensures j == BlockEnd(source, start, 1)
  {
    var depth := 1;
    j := start;
    while j < |source| && depth > 0
      invariant start <= j <= |source|
      invariant BlockEnd(source, j, depth) == BlockEnd(source, start, 1)
    {
      if Pair(source, j, '/', '*') {
        depth, j := depth + 1, j + 2;
      } else if Pair(source, j, '*', '/') {
        depth, j := depth - 1, j + 2;
      } else {
        j := j + 1;
      }
    }
  }

  method FindRawClose(source: string, start: nat, hashes: nat) returns (end: nat)
    requires start <= |source|
    ensures end == RawClose(source, start, hashes)
  {
    var k := start;
    while k < |source|
      invariant start <= k <= |source|
      invariant RawClose(source, k, hashes) == RawClose(source, start, hashes)
    {
      if ClosesRaw(source, k, hashes) {
        return k + 1 + hashes;
      }
      k := k + 1;
    }
    end := |source|;
  }

  method FindPlainClose(source: string, start: nat) returns (end: nat)
    requires start <= |source|
    ensures end == PlainClose(source, start)
  {
    var j := start;
    while j < |source| && source[j] != '"'
      invariant start <= j
      invariant PlainClose(source, j) == PlainClose(source, start)
      decreases |source| - j
    {
      j := j + if source[j] == '\\' then 2 else 1;
    }
    end := if j + 1 < |source| then j + 1 else |source|;
  }
}
