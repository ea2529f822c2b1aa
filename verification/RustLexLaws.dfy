/** What blanking keeps, and what blanking twice does. */
module RustLexLaws {
  import opened Common
  import opened RustLex

  // ---- the partition ----

  /** The kind of the region that holds `j`, scanning from the region boundary `i`. */
  function KindAt(s: string, i: nat, j: nat): Kind
    requires i <= j < |s|
    decreases |s| - i
  {
    var t := TokenAt(s, i);
    if j < t.end then t.kind else KindAt(s, t.end, j)
  }

  /** Whether a region of the source begins at `b`, scanning from the boundary `i`. */
  predicate Boundary(s: string, i: nat, b: nat)
    requires i <= |s|
    decreases |s| - i
  {
    i == b || (i < |s| && Boundary(s, TokenAt(s, i).end, b))
  }

  lemma {:induction false} BoundaryBounds(s: string, i: nat, b: nat)
    requires i <= |s| && Boundary(s, i, b)
    ensures i <= b <= |s|
    decreases |s| - i
  {
    if i != b {
      BoundaryBounds(s, TokenAt(s, i).end, b);
    }
  }

  lemma {:induction false} NextBoundary(s: string, i: nat, b: nat)
    requires i <= |s| && Boundary(s, i, b) && b < |s|
    ensures Boundary(s, i, TokenAt(s, b).end)
    decreases |s| - i
  {
    if i != b {
      NextBoundary(s, TokenAt(s, i).end, b);
    }
  }

  /** From a boundary on, the scan is the same scan. */
  lemma {:induction false} KindFromBoundary(s: string, i: nat, b: nat, j: nat)
    requires i <= |s| && Boundary(s, i, b) && b <= j < |s| && i <= j
    ensures KindAt(s, i, j) == KindAt(s, b, j)
    decreases |s| - i
  {
    if i != b {
      var end := TokenAt(s, i).end;
      BoundaryBounds(s, end, b);
      KindFromBoundary(s, end, b, j);
    }
  }

  /** Each character is kept or blanked by the kind of the region that holds it. */
  lemma {:induction false} StripAt(s: string, i: nat, keep: bool, j: nat)
    requires i <= j < |s|
    ensures Strip(s, i, keep)[j - i] == if Keeps(KindAt(s, i, j), keep) then s[j] else BlankChar(s[j])
    decreases |s| - i
  {
    var t := TokenAt(s, i);
    if j >= t.end {
      StripAt(s, t.end, keep, j);
    }
  }

  /** Offsets, newlines and code survive; a comment becomes spaces, and so does a literal unless it is kept. */
  lemma StrippingKeepsOffsets(s: string, keep: bool, j: nat)
    requires j < |s|
    ensures |Strip(s, 0, keep)| == |s|
    ensures Strip(s, 0, keep)[j] == '\n' <==> s[j] == '\n'
    ensures KindAt(s, 0, j).Code? ==> Strip(s, 0, keep)[j] == s[j]
    ensures KindAt(s, 0, j).Literal? ==> Strip(s, 0, keep)[j] == if keep then s[j] else BlankChar(s[j])
    ensures KindAt(s, 0, j).Comment? ==> Strip(s, 0, keep)[j] == BlankChar(s[j])
  {
    StripAt(s, 0, keep, j);
  }

  // ---- block comments close where they balance ----

  /** The text of a block comment: characters, and comments within it. */
  datatype Part = Text | Nested(body: seq<Part>)

  /** Reads `parts` off the source from `j`, each character of text opening and closing nothing; the
      position after them, if they are what stands there. */
  function Read(s: string, j: nat, parts: seq<Part>): Option<nat>
    decreases parts
  {
    if parts == [] then Some(j)
    else
      var next :=
        match parts[0]
        case Text => if j < |s| && !Pair(s, j, '/', '*') && !Pair(s, j, '*', '/') then Some(j + 1) else None
        case Nested(body) =>
          if !Pair(s, j, '/', '*') then None
          else
            match Read(s, j + 2, body)
            case None => None
            case Some(m) => if Pair(s, m, '*', '/') then Some(m + 2) else None;
      match next
      case None => None
      case Some(n) => Read(s, n, parts[1..])
  }

  lemma {:induction false} ReadBounds(s: string, j: nat, parts: seq<Part>)
    requires j <= |s| && Read(s, j, parts).Some?
    ensures j <= Read(s, j, parts).value <= |s|
    decreases parts
  {
    if parts != [] {
      match parts[0]
      case Text => ReadBounds(s, j + 1, parts[1..]);
      case Nested(body) =>
        ReadBounds(s, j + 2, body);
        ReadBounds(s, Read(s, j + 2, body).value + 2, parts[1..]);
    }
  }

  /** A balanced stretch leaves the depth as it was. */
  lemma {:induction false} BalancedIsSkipped(s: string, j: nat, parts: seq<Part>, depth: nat)
    requires j <= |s| && depth > 0 && Read(s, j, parts).Some?
    ensures Read(s, j, parts).value <= |s|
    ensures BlockEnd(s, j, depth) == BlockEnd(s, Read(s, j, parts).value, depth)
    decreases parts
  {
    ReadBounds(s, j, parts);
    if parts != [] {
      match parts[0]
      case Text => BalancedIsSkipped(s, j + 1, parts[1..], depth);
      case Nested(body) =>
        ReadBounds(s, j + 2, body);
        BalancedIsSkipped(s, j + 2, body, depth + 1);
        BalancedIsSkipped(s, Read(s, j + 2, body).value + 2, parts[1..], depth);
    }
  }

  /** Whether the scan from `j` closes all `depth` comments before the source ends. */
  predicate Closes(s: string, j: nat, depth: nat)
    requires j <= |s|
    decreases |s| - j
  {
    if depth == 0 then true
    else if j == |s| then false
    else if Pair(s, j, '/', '*') then Closes(s, j + 2, depth + 1)
    else if Pair(s, j, '*', '/') then Closes(s, j + 2, depth - 1)
    else Closes(s, j + 1, depth)
  }

  /** A comment that closes is a balanced text and then its close. */
  lemma {:induction false} ClosedIsBalanced(s: string, j: nat, depth: nat) returns (parts: seq<Part>, m: nat)
    requires j <= |s| && depth > 0 && Closes(s, j, depth)
    ensures j <= m && Read(s, j, parts) == Some(m) && Pair(s, m, '*', '/')
    ensures Closes(s, m + 2, depth - 1)
    decreases |s| - j
  {
    if Pair(s, j, '/', '*') {
      var body, k := ClosedIsBalanced(s, j + 2, depth + 1);
      var rest, e := ClosedIsBalanced(s, k + 2, depth);
      parts, m := [Nested(body)] + rest, e;
    } else if Pair(s, j, '*', '/') {
      parts, m := [], j;
    } else {
      var rest, e := ClosedIsBalanced(s, j + 1, depth);
      parts, m := [Text] + rest, e;
    }
  }

  lemma {:induction false} BalancedCloses(s: string, j: nat, parts: seq<Part>, depth: nat)
    requires j <= |s| && depth > 0 && Read(s, j, parts).Some?
    ensures Read(s, j, parts).value <= |s|
    ensures Closes(s, j, depth) == Closes(s, Read(s, j, parts).value, depth)
    decreases parts
  {
    ReadBounds(s, j, parts);
    if parts != [] {
      match parts[0]
      case Text => BalancedCloses(s, j + 1, parts[1..], depth);
      case Nested(body) =>
        ReadBounds(s, j + 2, body);
        BalancedCloses(s, j + 2, body, depth + 1);
        BalancedCloses(s, Read(s, j + 2, body).value + 2, parts[1..], depth);
    }
  }

  /** Where a block comment opens at `i`, its region ends just after the close that balances it; a comment
      with no such close runs to the end of the source. */
  lemma BlockCommentEndsAtItsBalancedClose(s: string, i: nat, j: nat)
    requires Pair(s, i, '/', '*') && j == i + 2
    ensures TokenAt(s, i).kind == Comment
    ensures forall parts | BalancedTo(s, j, parts) :: TokenAt(s, i).end == Read(s, j, parts).value + 2
    ensures Closes(s, j, 1) <==> exists parts :: BalancedTo(s, j, parts)
    ensures !Closes(s, j, 1) ==> TokenAt(s, i).end == |s|
  {
    forall parts | BalancedTo(s, j, parts)
      ensures TokenAt(s, i).end == Read(s, j, parts).value + 2 && Closes(s, j, 1)
    {
      ReadBounds(s, j, parts);
      BalancedIsSkipped(s, j, parts, 1);
      BalancedCloses(s, j, parts, 1);
    }
    if Closes(s, j, 1) {
      var parts, m := ClosedIsBalanced(s, j, 1);
      assert BalancedTo(s, j, parts);
    } else {
      UnclosedRunsOn(s, j, 1);
    }
  }

  ghost predicate BalancedTo(s: string, j: nat, parts: seq<Part>) {
    Read(s, j, parts).Some? && Pair(s, Read(s, j, parts).value, '*', '/')
  }

  lemma {:induction false} UnclosedRunsOn(s: string, j: nat, depth: nat)
    requires j <= |s| && depth > 0 && !Closes(s, j, depth)
    ensures BlockEnd(s, j, depth) == |s|
    decreases |s| - j
  {
    if j < |s| {
      if Pair(s, j, '/', '*') {
        UnclosedRunsOn(s, j + 2, depth + 1);
      } else if Pair(s, j, '*', '/') {
        UnclosedRunsOn(s, j + 2, depth - 1);
      } else {
        UnclosedRunsOn(s, j + 1, depth);
      }
    }
  }

  // ---- blanking what was blanked ----

  /** `t` is `s` with the regions blanking takes replaced by spaces. */
  ghost predicate Stripped(s: string, t: string, keep: bool) {
    && |t| == |s|
    && forall j | 0 <= j < |s| :: t[j] == if Keeps(KindAt(s, 0, j), keep) then s[j] else BlankChar(s[j])
  }

  lemma StripIsStripped(s: string, keep: bool)
    ensures Stripped(s, Strip(s, 0, keep), keep)
  {
    forall j | 0 <= j < |s|
      ensures Strip(s, 0, keep)[j] == if Keeps(KindAt(s, 0, j), keep) then s[j] else BlankChar(s[j])
    {
      StripAt(s, 0, keep, j);
    }
  }

  /** A region that starts at a boundary is kept whole or blanked whole. */
  lemma RegionIsUniform(s: string, t: string, keep: bool, b: nat, j: nat)
    requires Stripped(s, t, keep) && Boundary(s, 0, b) && b < |s| && b <= j < TokenAt(s, b).end
    ensures t[j] == if Keeps(TokenAt(s, b).kind, keep) then s[j] else BlankChar(s[j])
  {
    KindFromBoundary(s, 0, b, j);
  }

  /** A blanked region that is not the last character is longer than one. */
  lemma BlankedRegionsAreLong(s: string, b: nat)
    requires b < |s| && !TokenAt(s, b).kind.Code?
    ensures TokenAt(s, b).end >= b + 2 || TokenAt(s, b).end == |s|
  {
  }

  /** A visible character of `t` is the source's own. */
  lemma VisibleIsSource(s: string, t: string, keep: bool, j: nat)
    requires Stripped(s, t, keep) && j < |s| && t[j] != ' ' && t[j] != '\n'
    ensures t[j] == s[j]
  {
  }

  /** A character of `t` that a quote follows is the source's own. */
  ghost predicate SolidBeforeQuote(s: string, t: string, j: nat) {
    At(t, j + 1, '\'') ==> At(s, j, t[j])
  }

  lemma BoundariesAreSolid(s: string, t: string, keep: bool, b: nat)
    requires Stripped(s, t, keep) && Boundary(s, 0, b)
    ensures SolidBeforeQuote(s, t, b)
  {
    if At(t, b + 1, '\'') {
      RegionIsUniform(s, t, keep, b, b);
      if !Keeps(TokenAt(s, b).kind, keep) {
        BlankedRegionsAreLong(s, b);
        RegionIsUniform(s, t, keep, b, b + 1);
      }
    }
  }

  /** A character literal of `t` is one of the source. */
  lemma CharLiteralWasThere(s: string, t: string, keep: bool, b: nat)
    requires Stripped(s, t, keep) && SolidBeforeQuote(s, t, b + 1)
    requires At(t, b + 1, '\\') ==> SolidBeforeQuote(s, t, b + 2)
    ensures CharLiteralEnd(t, b).Some? ==> CharLiteralEnd(s, b).Some?
  {
  }

  lemma BackslashIsCode(s: string, j: nat)
    requires At(s, j, '\\')
    ensures TokenAt(s, j) == Token(Code, j + 1)
  {
  }

  /** A code character of the source begins no character literal in `t`. */
  lemma NoNewCharLiteral(s: string, t: string, keep: bool, b: nat)
    requires Stripped(s, t, keep) && Boundary(s, 0, b) && b < |s| && TokenAt(s, b) == Token(Code, b + 1)
    ensures CharLiteralEnd(t, b).None?
  {
    NextBoundary(s, 0, b);
    BoundariesAreSolid(s, t, keep, b + 1);
    if At(t, b + 1, '\\') {
      VisibleIsSource(s, t, keep, b + 1);
      BackslashIsCode(s, b + 1);
      NextBoundary(s, 0, b + 1);
      BoundariesAreSolid(s, t, keep, b + 2);
    }
    CharLiteralWasThere(s, t, keep, b);
  }

  lemma {:induction false} HashesAreSource(s: string, t: string, keep: bool, i: nat)
    requires Stripped(s, t, keep) && i <= |s| && At(t, HashesEnd(t, i), '"')
    ensures HashesEnd(s, i) == HashesEnd(t, i)
    decreases |s| - i
  {
    VisibleIsSource(s, t, keep, HashesEnd(t, i));
    if At(t, i, '#') {
      VisibleIsSource(s, t, keep, i);
      HashesAreSource(s, t, keep, i + 1);
    }
  }

  /** A raw string of `t` is one of the source. */
  lemma RawLiteralWasThere(s: string, t: string, keep: bool, b: nat)
    requires Stripped(s, t, keep) && b < |s|
    ensures RawHashes(t, b).Some? ==> RawHashes(s, b).Some?
  {
    if RawHashes(t, b).Some? {
      VisibleIsSource(s, t, keep, b);
      VisibleIsSource(s, t, keep, b + 1);
      HashesAreSource(s, t, keep, b + RawLetters(t, b));
    }
  }

  lemma CodeStaysCode(s: string, t: string, keep: bool, b: nat)
    requires Stripped(s, t, keep) && Boundary(s, 0, b) && b < |s| && TokenAt(s, b).kind.Code?
    ensures TokenAt(t, b) == Token(Code, b + 1)
  {
    NoNewCharLiteral(s, t, keep, b);
    RawLiteralWasThere(s, t, keep, b);
    if t[b] != ' ' && t[b] != '\n' {
      VisibleIsSource(s, t, keep, b);
    }
    if b + 1 < |s| && t[b + 1] != ' ' && t[b + 1] != '\n' {
      VisibleIsSource(s, t, keep, b + 1);
    }
  }

  lemma BlankIsCode(t: string, j: nat)
    requires j < |t| && (t[j] == ' ' || t[j] == '\n')
    ensures TokenAt(t, j) == Token(Code, j + 1)
  {
  }

  // ---- a kept literal is the same literal ----

  /** `t` agrees with `s` from `i` to `e`. */
  ghost predicate Agrees(s: string, t: string, i: nat, e: nat) {
    |t| == |s| && e <= |s| && forall j | i <= j < e :: t[j] == s[j]
  }

  lemma {:induction false} SameHashes(s: string, t: string, i: nat, e: nat)
    requires i <= |s| && HashesEnd(s, i) < e && Agrees(s, t, i, e)
    ensures HashesEnd(t, i) == HashesEnd(s, i)
    decreases |s| - i
  {
    if At(s, i, '#') {
      SameHashes(s, t, i + 1, e);
    }
  }

  lemma {:induction false} SameRawClose(s: string, t: string, i: nat, hashes: nat)
    requires i <= |s| && Agrees(s, t, i, RawClose(s, i, hashes))
    ensures RawClose(t, i, hashes) == RawClose(s, i, hashes)
    decreases |s| - i
  {
    if i < |s| {
      RawCloseFits(s, i, hashes);
      if !ClosesRaw(s, i, hashes) {
        SameRawClose(s, t, i + 1, hashes);
      }
    }
  }

  /** Nothing closes a raw string before its close, in any text that agrees with it up to there. */
  lemma {:induction false} RawCloseFits(s: string, i: nat, hashes: nat)
    requires i < |s|
    ensures ClosesRaw(s, i, hashes) ==> RawClose(s, i, hashes) == i + 1 + hashes
    ensures !ClosesRaw(s, i, hashes) ==> RawClose(s, i, hashes) == |s| || RawClose(s, i, hashes) >= i + 2 + hashes
    decreases |s| - i
  {
    if !ClosesRaw(s, i, hashes) && i + 1 < |s| {
      RawCloseFits(s, i + 1, hashes);
    }
  }

  lemma {:induction false} SamePlainClose(s: string, t: string, j: nat)
    requires Agrees(s, t, j, PlainClose(s, j))
    ensures PlainClose(t, j) == PlainClose(s, j)
    decreases |s| - j
  {
    if j < |s| && s[j] != '"' {
      SamePlainClose(s, t, if s[j] == '\\' then j + 2 else j + 1);
    }
  }

  lemma SameRawLiteral(s: string, t: string, i: nat)
    requires RawLiteralEnd(s, i).Some? && Agrees(s, t, i, RawLiteralEnd(s, i).value)
    ensures RawLiteralEnd(t, i) == RawLiteralEnd(s, i)
  {
    var letters, hashes := RawLetters(s, i), RawHashes(s, i).value;
    SameHashes(s, t, i + letters, RawLiteralEnd(s, i).value);
    SameRawClose(s, t, i + letters + hashes + 1, hashes);
  }

  lemma LiteralIsSame(s: string, t: string, i: nat)
    requires i < |s| && TokenAt(s, i).kind.Literal? && Agrees(s, t, i, TokenAt(s, i).end)
    ensures TokenAt(t, i) == TokenAt(s, i)
  {
    if CharLiteralEnd(s, i).None? {
      if RawLiteralEnd(s, i).Some? {
        SameRawLiteral(s, t, i);
      } else {
        assert RawLetters(t, i) == 0;
        SamePlainClose(s, t, if At(s, i, '"') then i + 1 else i + 2);
      }
    }
  }

  /** From a boundary of the source on, scanning `t` finds its literals where they were kept, and code
      everywhere else. */
  lemma {:induction false} RescanKinds(s: string, t: string, keep: bool, b: nat, i: nat, j: nat)
    requires Stripped(s, t, keep) && Boundary(s, 0, b) && b <= i <= j < |t|
    requires b < |s| ==> i < TokenAt(s, b).end && (i > b ==> !Keeps(TokenAt(s, b).kind, keep))
    ensures KindAt(t, i, j) == if KindAt(s, b, j).Literal? && keep then Literal else Code
    decreases |s| - i
  {
    hide LineEnd, BlockEnd, CharLiteralEnd, LiteralEnd, Pair;
    var region := TokenAt(s, b);
    if !Keeps(region.kind, keep) {
      RegionIsUniform(s, t, keep, b, i);
      BlankIsCode(t, i);
      if j > i {
        if i + 1 == region.end {
          NextBoundary(s, 0, b);
          RescanKinds(s, t, keep, i + 1, i + 1, j);
        } else {
          RescanKinds(s, t, keep, b, i + 1, j);
        }
      }
    } else {
      if region.kind.Code? {
        CodeStaysCode(s, t, keep, b);
      } else {
        forall k | b <= k < region.end ensures t[k] == s[k] {
          RegionIsUniform(s, t, keep, b, k);
        }
        LiteralIsSame(s, t, b);
      }
      if j >= region.end {
        NextBoundary(s, 0, b);
        RescanKinds(s, t, keep, region.end, region.end, j);
      }
    }
  }

  /** Blanking in one mode and then in another is blanking once, keeping literals only if both modes do.
      So blanking twice in either mode is blanking once, and blanking comments first and then everything is
      blanking everything at once. */
  lemma StrippingTwiceIsStrippingOnce(s: string, first: bool, second: bool)
    ensures Strip(Strip(s, 0, first), 0, second) == Strip(s, 0, first && second)
  {
    var t := Strip(s, 0, first);
    StripIsStripped(s, first);
    StripIsStripped(t, second);
    StripIsStripped(s, first && second);
    forall j | 0 <= j < |s| ensures Strip(t, 0, second)[j] == Strip(s, 0, first && second)[j] {
      RescanKinds(s, t, first, 0, 0, j);
    }
  }
}
