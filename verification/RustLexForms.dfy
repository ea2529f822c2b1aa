/** The regions of Rust source in their own terms, and that the scanner finds exactly these. */
module RustLexForms {
  import opened Common
  import opened RustLex
  import opened RustLexLaws

  // ---- what opens a region, and where it ends ----

  /** From `j` to `k` stand characters that are neither quote nor backslash, and backslashes each with the character
      after it. */
  ghost predicate PlainText(s: string, j: nat, k: nat)
    decreases k - j
  {
    || (j == k && k <= |s|)
    || (j < k && j < |s| && s[j] != '"' && s[j] != '\\' && PlainText(s, j + 1, k))
    || (j + 1 < k && j + 1 < |s| && s[j] == '\\' && PlainText(s, j + 2, k))
  }

  /** A plain string whose text begins at `j` ends just after its quote, or with the source. */
  ghost predicate PlainEnds(s: string, j: nat, end: nat) {
    || (exists k: nat :: PlainText(s, j, k) && k < |s| && s[k] == '"' && end == k + 1)
    || ((forall k: nat | PlainText(s, j, k) && k < |s| :: s[k] != '"') && end == |s|)
  }

  /** At `k` stand a quote and `hashes` hashes. */
  ghost predicate RawCloses(s: string, k: nat, hashes: nat) {
    k + hashes < |s| && s[k] == '"' && forall m | k < m <= k + hashes :: s[m] == '#'
  }

  /** A raw string opened with `hashes` hashes whose text begins at `j` ends with the first such close, or with the source. */
  ghost predicate RawEnds(s: string, j: nat, hashes: nat, end: nat) {
    || (exists k: nat :: j <= k && RawCloses(s, k, hashes) && end == k + 1 + hashes
                         && forall m | j <= m < k :: !RawCloses(s, m, hashes))
    || ((forall k: nat | j <= k :: !RawCloses(s, k, hashes)) && end == |s|)
  }

  /** At `i` stand the letters of a raw string, `hashes` hashes and a quote; the text begins at `j`. */
  ghost predicate RawOpens(s: string, i: nat, hashes: nat, j: nat) {
    exists letters: nat ::
      && LettersAt(s, i, letters)
      && j == i + letters + hashes + 1 && j <= |s| && s[j - 1] == '"'
      && forall m | i + letters <= m < j - 1 :: s[m] == '#'
  }

  /** The letters `br`, `rb` or `r`, the longer where both would do. */
  ghost predicate LettersAt(s: string, i: nat, letters: nat) {
    || (letters == 2 && i + 1 < |s| && ((s[i] == 'b' && s[i + 1] == 'r') || (s[i] == 'r' && s[i + 1] == 'b')))
    || (letters == 1 && i < |s| && s[i] == 'r' && (i + 1 < |s| ==> s[i + 1] != 'b'))
  }

  /** At `i` a plain or byte string opens; its text begins at `j`. */
  ghost predicate PlainOpens(s: string, i: nat, j: nat) {
    || (i < |s| && s[i] == '"' && j == i + 1)
    || (i + 1 < |s| && s[i] == 'b' && s[i + 1] == '"' && j == i + 2)
  }

  /** From `i` to `end` stands a character literal: one character, or a backslash and one on the same line. */
  ghost predicate IsCharLiteral(s: string, i: nat, end: nat) {
    && end <= |s| && i < end && s[i] == '\'' && s[end - 1] == '\''
    && ((end == i + 3 && s[i + 1] != '\'' && s[i + 1] != '\\')
        || (end == i + 4 && s[i + 1] == '\\' && s[i + 2] != '\n'))
  }

  ghost predicate OpensChar(s: string, i: nat) { exists end: nat :: IsCharLiteral(s, i, end) }

  ghost predicate OpensRaw(s: string, i: nat) { exists hashes: nat, j: nat :: RawOpens(s, i, hashes, j) }

  ghost predicate OpensPlain(s: string, i: nat) { exists j: nat :: PlainOpens(s, i, j) }

  // ---- character literals ----

  lemma CharLiteralIs(s: string, i: nat, end: nat)
    ensures IsCharLiteral(s, i, end) <==> CharLiteralEnd(s, i) == Some(end)
  {
  }

  lemma OpensCharIff(s: string, i: nat)
    ensures OpensChar(s, i) <==> CharLiteralEnd(s, i).Some?
  {
    hide CharLiteralEnd, IsCharLiteral;
    if CharLiteralEnd(s, i).Some? {
      CharLiteralIs(s, i, CharLiteralEnd(s, i).value);
    } else if end: nat :| IsCharLiteral(s, i, end) {
      CharLiteralIs(s, i, end);
    }
  }

  // ---- plain strings ----

  lemma {:induction false} PlainTextIsPassed(s: string, j: nat, k: nat)
    requires PlainText(s, j, k)
    ensures j <= k <= |s| && PlainClose(s, j) == PlainClose(s, k)
    decreases k - j
  {
    if j < k {
      if s[j] == '\\' {
        PlainTextIsPassed(s, j + 2, k);
      } else {
        PlainTextIsPassed(s, j + 1, k);
      }
    }
  }

  /** Where the text of a string has no quote after it, the scan runs on to the end. */
  lemma {:induction false} PlainCloseEnds(s: string, j: nat)
    requires j <= |s|
    ensures PlainEnds(s, j, PlainClose(s, j))
    decreases |s| - j
  {
    if j == |s| {
      NoTextFurther(s, j);
    } else if s[j] == '"' {
      assert PlainText(s, j, j);
    } else {
      var n := if s[j] == '\\' then j + 2 else j + 1;
      if n > |s| {
        NoTextFurther(s, j);
      } else {
        PlainCloseEnds(s, n);
        PlainEndsEarlier(s, j, n, PlainClose(s, j));
      }
    }
  }

  lemma NoTextFurther(s: string, j: nat)
    requires j == |s| || (j + 1 == |s| && s[j] == '\\')
    ensures PlainEnds(s, j, |s|)
  {
    forall k: nat | PlainText(s, j, k) && k < |s| ensures s[k] != '"' {
      if j < k {
        PlainTextIsPassed(s, j, k);
      }
    }
  }

  lemma PlainEndsEarlier(s: string, j: nat, n: nat, end: nat)
    requires j < |s| && n <= |s| && s[j] != '"' && n == (if s[j] == '\\' then j + 2 else j + 1) && PlainEnds(s, n, end)
    ensures PlainEnds(s, j, end)
  {
    forall k: nat | k < |s| && s[k] == '"' ensures PlainText(s, j, k) <==> PlainText(s, n, k) {
    }
  }

  /** There is one end. */
  lemma PlainEndIsOne(s: string, j: nat, end: nat)
    requires j <= |s| && PlainEnds(s, j, end)
    ensures end == PlainClose(s, j)
  {
    PlainCloseEnds(s, j);
    if k: nat :| PlainText(s, j, k) && k < |s| && s[k] == '"' && end == k + 1 {
      PlainTextIsPassed(s, j, k);
    }
  }

  // ---- raw strings ----

  lemma RawClosesIs(s: string, k: nat, hashes: nat)
    ensures RawCloses(s, k, hashes) <==> ClosesRaw(s, k, hashes)
  {
  }

  lemma {:induction false} RawCloseEnds(s: string, j: nat, hashes: nat)
    requires j <= |s|
    ensures RawEnds(s, j, hashes, RawClose(s, j, hashes))
    decreases |s| - j
  {
    RawClosesIs(s, j, hashes);
    if j < |s| && !ClosesRaw(s, j, hashes) {
      RawCloseEnds(s, j + 1, hashes);
      hide RawCloses;
      if k: nat :| j + 1 <= k && RawCloses(s, k, hashes) && RawClose(s, j, hashes) == k + 1 + hashes
                   && forall m | j + 1 <= m < k :: !RawCloses(s, m, hashes) {
        assert forall m | j <= m < k :: !RawCloses(s, m, hashes);
      } else {
        assert forall k: nat | j <= k :: !RawCloses(s, k, hashes);
      }
    }
  }

  lemma RawEndIsOne(s: string, j: nat, hashes: nat, a: nat, b: nat)
    requires RawEnds(s, j, hashes, a) && RawEnds(s, j, hashes, b)
    ensures a == b
  {
    hide RawCloses;
    if k: nat :| j <= k && RawCloses(s, k, hashes) && a == k + 1 + hashes && forall m | j <= m < k :: !RawCloses(s, m, hashes) {
      var k': nat :| j <= k' && RawCloses(s, k', hashes) && b == k' + 1 + hashes
                     && forall m | j <= m < k' :: !RawCloses(s, m, hashes);
    }
  }

  lemma LettersAre(s: string, i: nat, letters: nat)
    ensures LettersAt(s, i, letters) <==> letters > 0 && RawLetters(s, i) == letters
  {
  }

  lemma {:induction false} HashesEndIs(s: string, i: nat, quote: nat)
    requires i <= quote < |s| && s[quote] != '#' && forall m | i <= m < quote :: s[m] == '#'
    ensures HashesEnd(s, i) == quote
    decreases quote - i
  {
    if i < quote {
      HashesEndIs(s, i + 1, quote);
    }
  }

  lemma {:induction false} HashesAreHashes(s: string, i: nat)
    requires i <= |s|
    ensures forall m | i <= m < HashesEnd(s, i) :: s[m] == '#'
    decreases |s| - i
  {
    if At(s, i, '#') {
      HashesAreHashes(s, i + 1);
    }
  }

  lemma RawOpensIs(s: string, i: nat, hashes: nat, j: nat)
    ensures RawOpens(s, i, hashes, j) <==> RawHashes(s, i) == Some(hashes) && j == i + RawLetters(s, i) + hashes + 1
  {
    hide RawLetters, LettersAt;
    if RawOpens(s, i, hashes, j) {
      var letters: nat :| LettersAt(s, i, letters) && j == i + letters + hashes + 1 && j <= |s| && s[j - 1] == '"'
                          && forall m | i + letters <= m < j - 1 :: s[m] == '#';
      LettersAre(s, i, letters);
      HashesEndIs(s, i + letters, j - 1);
    }
    if RawHashes(s, i) == Some(hashes) && j == i + RawLetters(s, i) + hashes + 1 {
      LettersAre(s, i, RawLetters(s, i));
      HashesAreHashes(s, i + RawLetters(s, i));
    }
  }

  lemma OpensRawIff(s: string, i: nat)
    ensures OpensRaw(s, i) <==> RawHashes(s, i).Some?
  {
    hide RawHashes, RawOpens;
    if RawHashes(s, i).Some? {
      RawOpensIs(s, i, RawHashes(s, i).value, i + RawLetters(s, i) + RawHashes(s, i).value + 1);
    } else if hashes: nat, j: nat :| RawOpens(s, i, hashes, j) {
      RawOpensIs(s, i, hashes, j);
    }
  }

  // ---- every region ----

  /** The comment whose text begins at `j` is `parts`, balanced, and its close, which ends at `end`. */
  ghost predicate ClosesAfter(s: string, j: nat, parts: seq<Part>, end: nat) {
    BalancedTo(s, j, parts) && end == Read(s, j, parts).value + 2
  }

  /** A block comment whose text begins at `j` ends just after the close that balances it, or with the source. */
  ghost predicate CommentEnds(s: string, j: nat, end: nat) {
    || (exists parts :: ClosesAfter(s, j, parts, end))
    || ((forall parts :: !BalancedTo(s, j, parts)) && end == |s|)
  }

  /** From `i` to `end` stands a region of its kind: the first of these forms that begins there, or one character of code. */
  ghost predicate IsRegion(s: string, i: nat, kind: Kind, end: nat) {
    if Pair(s, i, '/', '/') then
      kind.Comment? && i + 2 <= end <= |s| && (forall m | i + 2 <= m < end :: s[m] != '\n') && (end < |s| ==> s[end] == '\n')
    else if Pair(s, i, '/', '*') then
      kind.Comment? && CommentEnds(s, i + 2, end)
    else if OpensChar(s, i) then kind.Literal? && IsCharLiteral(s, i, end)
    else if OpensRaw(s, i) then kind.Literal? && exists hashes: nat, j: nat :: RawOpens(s, i, hashes, j) && RawEnds(s, j, hashes, end)
    else if OpensPlain(s, i) then kind.Literal? && exists j: nat :: PlainOpens(s, i, j) && PlainEnds(s, j, end)
    else kind.Code? && end == i + 1
  }

  lemma {:induction false} LineEndIsOne(s: string, i: nat, end: nat)
    requires i <= end <= |s| && (forall m | i <= m < end :: s[m] != '\n') && (end < |s| ==> s[end] == '\n')
    ensures LineEnd(s, i) == end
    decreases end - i
  {
    if i < end {
      LineEndIsOne(s, i + 1, end);
    }
  }

  lemma OpensPlainIff(s: string, i: nat, end: nat)
    requires i < |s|
    ensures OpensPlain(s, i) <==> PlainLiteralEnd(s, i).Some?
    ensures OpensPlain(s, i) ==>
              ((exists j: nat :: PlainOpens(s, i, j) && PlainEnds(s, j, end)) <==> PlainLiteralEnd(s, i) == Some(end))
  {
    hide PlainEnds, PlainClose;
    forall j: nat | PlainOpens(s, i, j) ensures PlainEnds(s, j, end) <==> end == PlainClose(s, j) {
      if PlainEnds(s, j, end) {
        PlainEndIsOne(s, j, end);
      }
      PlainCloseEnds(s, j);
    }
    assert s[i] == '"' ==> PlainOpens(s, i, i + 1);
    assert Pair(s, i, 'b', '"') ==> PlainOpens(s, i, i + 2);
  }

  lemma RawRegionIs(s: string, i: nat, end: nat)
    requires OpensRaw(s, i)
    ensures (exists hashes: nat, j: nat :: RawOpens(s, i, hashes, j) && RawEnds(s, j, hashes, end)) <==> RawLiteralEnd(s, i) == Some(end)
  {
    hide RawOpens, RawEnds, RawLetters, RawHashes, RawClose;
    OpensRawIff(s, i);
    var hashes := RawHashes(s, i).value;
    var j := i + RawLetters(s, i) + hashes + 1;
    RawOpensIs(s, i, hashes, j);
    RawStarts(s, i);
    RawCloseEnds(s, j, hashes);
    if hashes': nat, j': nat :| RawOpens(s, i, hashes', j') && RawEnds(s, j', hashes', end) {
      RawOpensIs(s, i, hashes', j');
      RawEndIsOne(s, j, hashes, end, RawClose(s, j, hashes));
    }
  }

  lemma RawStarts(s: string, i: nat)
    requires RawHashes(s, i).Some?
    ensures i + RawLetters(s, i) + RawHashes(s, i).value + 1 <= |s|
  {
  }

  lemma CommentIs(s: string, i: nat, kind: Kind, end: nat)
    requires i < |s| && (Pair(s, i, '/', '/') || Pair(s, i, '/', '*'))
    ensures TokenAt(s, i) == Token(kind, end) <==> IsRegion(s, i, kind, end)
  {
    hide Closes, BalancedTo, Read;
    if Pair(s, i, '/', '/') {
      if IsRegion(s, i, kind, end) {
        LineEndIsOne(s, i + 2, end);
      }
    } else {
      var j := i + 2;
      BlockCommentEndsAtItsBalancedClose(s, i, j);
      if Closes(s, j, 1) {
        var parts :| BalancedTo(s, j, parts);
        assert ClosesAfter(s, j, parts, TokenAt(s, i).end);
      }
    }
  }

  lemma LiteralIs(s: string, i: nat, kind: Kind, end: nat)
    requires i < |s| && !Pair(s, i, '/', '/') && !Pair(s, i, '/', '*')
    ensures TokenAt(s, i) == Token(kind, end) <==> IsRegion(s, i, kind, end)
  {
    OpensCharIff(s, i);
    CharLiteralIs(s, i, end);
    OpensRawIff(s, i);
    if OpensRaw(s, i) {
      RawRegionIs(s, i, end);
    }
    OpensPlainIff(s, i, end);
    hide OpensChar, OpensRaw, OpensPlain, CharLiteralEnd, PlainLiteralEnd, RawOpens, RawEnds, PlainOpens, PlainEnds, IsCharLiteral,
      RawHashes, RawClose, RawLetters, Pair;
  }

  /** The scanner's region at any place is the one the forms say. */
  lemma RegionsAreTheForms(s: string, i: nat, kind: Kind, end: nat)
    requires i < |s|
    ensures TokenAt(s, i) == Token(kind, end) <==> IsRegion(s, i, kind, end)
  {
    hide TokenAt, IsRegion;
    if Pair(s, i, '/', '/') || Pair(s, i, '/', '*') {
      CommentIs(s, i, kind, end);
    } else {
      LiteralIs(s, i, kind, end);
    }
  }
}
