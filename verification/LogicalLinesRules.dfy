/** Which lines a workflow's folding joins, and to what. */
module LogicalLinesRules {
  import opened Common
  import opened Text
  import opened LogicalLines

  // ---- text ----

  predicate Spaces(s: string, from: nat, to: nat)
    requires from <= to <= |s|
  {
    forall i | from <= i < to :: IsSpace(s[i])
  }

  predicate AllSpace(s: string) { Spaces(s, 0, |s|) }

  lemma {:induction false} RstripIs(s: string)
    ensures Rstrip(s) <= s && Spaces(s, |Rstrip(s)|, |s|)
    ensures Rstrip(s) != "" ==> !IsSpace(Rstrip(s)[|Rstrip(s)| - 1])
  {
    hide IsSpace;
    if s != "" && IsSpace(s[|s| - 1]) {
      RstripIs(s[..|s| - 1]);
    }
  }

  lemma {:induction false} TrimLeftIs(s: string)
    ensures var n := Indent(s); n <= |s| && TrimLeft(s, IsSpace) == s[n..] && Spaces(s, 0, n) && (n < |s| ==> !IsSpace(s[n]))
  {
    hide IsSpace;
    if s != "" && IsSpace(s[0]) {
      TrimLeftIs(s[1..]);
      var n := Indent(s[1..]);
      assert Indent(s) == n + 1 && s[1..][n..] == s[n + 1..];
      forall i | 0 < i < n + 1 ensures IsSpace(s[i]) {
        assert s[1..][i - 1] == s[i];
      }
    }
  }

  /** The indentation is as far as the first character that is no space. */
  lemma {:induction false} IndentIs(s: string, n: nat)
    requires n < |s| && Spaces(s, 0, n) && !IsSpace(s[n])
    ensures Indent(s) == n
  {
    hide IsSpace;
    if n > 0 {
      forall i | 0 <= i < n - 1 ensures IsSpace(s[1..][i]) {
        assert s[1..][i] == s[i + 1];
      }
      IndentIs(s[1..], n - 1);
    }
  }

  lemma {:induction false} SpacesRstrip(s: string)
    requires AllSpace(s)
    ensures Rstrip(s) == ""
  {
    hide IsSpace;
    if s != "" {
      SpacesRstrip(s[..|s| - 1]);
    }
  }

  lemma BlankIs(s: string)
    ensures Blank(s) <==> AllSpace(s)
    ensures !Blank(s) ==> Indent(s) < |s|
  {
    hide IsSpace;
    var r := Rstrip(s);
    RstripIs(s);
    TrimLeftIs(s);
    TrimLeftIs(r);
    if AllSpace(s) {
      SpacesRstrip(s);
    }
    if Blank(s) {
      assert Indent(r) == |r|;
    }
  }

  /** What is left of text once stripped is what stands between its outer spaces. */
  lemma StripIs(before: string, text: string, after: string)
    requires AllSpace(before) && AllSpace(after)
    requires text != "" ==> !IsSpace(text[0]) && !IsSpace(text[|text| - 1])
    ensures Strip(before + text + after) == text
  {
    hide IsSpace;
    var s := before + text + after;
    if text == "" {
      SpacesRstrip(s);
    } else {
      RstripEnds(before + text, after);
      IndentIs(before + text, |before|);
      TrimLeftIs(before + text);
    }
  }

  lemma {:induction false} RstripEnds(text: string, after: string)
    requires text != "" && !IsSpace(text[|text| - 1]) && AllSpace(after)
    ensures Rstrip(text + after) == text
  {
    hide IsSpace;
    if after == "" {
      assert text + after == text;
    } else {
      assert (text + after)[..|text + after| - 1] == text + after[..|after| - 1];
      RstripEnds(text, after[..|after| - 1]);
    }
  }

  // ---- values below their keys ----

  /** The line `i` begins a value of its own below the line `a`: it is a script's, a key, an item, or no deeper. */
  predicate StandsApart(lines: seq<Line>, a: nat, i: nat, script: set<int>, p: Patterns)
    requires a < |lines| && i < |lines|
  {
    || lines[i].number in script || p.key(lines[i].text) || p.item(lines[i].text)
    || Indent(lines[i].text) <= Indent(lines[a].text)
  }

  /** `starts[k]` is the last of `starts` before `i`. */
  predicate Follows(starts: seq<nat>, k: nat, i: nat) {
    k < |starts| && starts[k] < i && (k + 1 < |starts| ==> i < starts[k + 1])
  }

  ghost predicate Ascending(starts: seq<nat>) { forall k, m | 0 <= k < m < |starts| :: starts[k] < starts[m] }

  predicate Skipped(starts: seq<nat>, i: nat) { forall k | 0 <= k < |starts| :: starts[k] != i }

  /** Of the first `n` lines, `starts` are those that open a logical line: each stands apart from the one before it, and
      every other line that is not blank is read on from the last of them, which it does not stand apart from. */
  ghost predicate Open(lines: seq<Line>, n: nat, starts: seq<nat>, script: set<int>, p: Patterns)
    requires n <= |lines|
  {
    && Ascending(starts)
    && (forall k | 0 <= k < |starts| :: starts[k] < n && !Blank(lines[starts[k]].text))
    && (forall k | 0 < k < |starts| :: OpensApart(lines, starts, k, script, p))
    && (forall i | 0 <= i < n && Skipped(starts, i) && !Blank(lines[i].text) :: ReadOn(lines, starts, i, script, p))
  }

  /** The `k`th start stands apart from the one before it. */
  predicate OpensApart(lines: seq<Line>, starts: seq<nat>, k: nat, script: set<int>, p: Patterns) {
    && 0 < k < |starts| && starts[k - 1] < |lines| && starts[k] < |lines|
    && StandsApart(lines, starts[k - 1], starts[k], script, p)
  }

  /** The line `i` is read on from the last start before it. */
  ghost predicate ReadOn(lines: seq<Line>, starts: seq<nat>, i: nat, script: set<int>, p: Patterns)
    requires i < |lines|
  {
    exists k: nat :: Follows(starts, k, i) && starts[k] < |lines| && !StandsApart(lines, starts[k], i, script, p)
  }

  /** The text of line `a` with that of each line up to `b` that is not blank after it, a space between. */
  function Value(lines: seq<Line>, a: nat, b: nat): string
    requires a < b <= |lines|
  {
    if b == a + 1 then lines[a].text
    else if Blank(lines[b - 1].text) then Value(lines, a, b - 1)
    else Rstrip(Value(lines, a, b - 1)) + " " + Strip(lines[b - 1].text)
  }

  function End(n: nat, starts: seq<nat>, k: nat): nat
    requires k < |starts|
  {
    if k + 1 < |starts| then starts[k + 1] else n
  }

  /** `out` has a line for each of `starts`, with its number, and the text from it up to the next. */
  ghost predicate Valued(lines: seq<Line>, n: nat, starts: seq<nat>, out: seq<Line>)
    requires n <= |lines|
  {
    && |out| == |starts| && Ascending(starts) && (forall k | 0 <= k < |starts| :: starts[k] < n)
    && forall k | 0 <= k < |starts| :: ValuedAt(lines, n, starts, out, k)
  }

  ghost predicate ValuedAt(lines: seq<Line>, n: nat, starts: seq<nat>, out: seq<Line>, k: nat)
    requires n <= |lines| && k < |starts| == |out|
  {
    && starts[k] < End(n, starts, k) <= n
    && out[k] == Line(lines[starts[k]].number, Value(lines, starts[k], End(n, starts, k)))
  }

  lemma {:induction false} ValueKeepsIndent(lines: seq<Line>, a: nat, b: nat)
    requires a < b <= |lines| && !Blank(lines[a].text)
    ensures Indent(Value(lines, a, b)) == Indent(lines[a].text) && !Blank(Value(lines, a, b))
    decreases b
  {
    hide IsSpace, Blank, Indent, Rstrip, Strip;
    if b > a + 1 {
      ValueKeepsIndent(lines, a, b - 1);
      if !Blank(lines[b - 1].text) {
        JoinedKeepsIndent(Value(lines, a, b - 1), Strip(lines[b - 1].text));
      }
    }
  }

  lemma JoinedKeepsIndent(s: string, more: string)
    requires !Blank(s)
    ensures Indent(Rstrip(s) + " " + more) == Indent(s) && !Blank(Rstrip(s) + " " + more)
  {
    hide IsSpace;
    var n, r := Indent(s), Rstrip(s);
    var t := r + " " + more;
    BlankIs(s);
    BlankIs(t);
    TrimLeftIs(s);
    RstripIs(s);
    assert n < |r|;
    assert forall i | 0 <= i <= n :: t[i] == r[i] == s[i];
    IndentIs(t, n);
  }

  lemma OnBlank(lines: seq<Line>, n: nat, starts: seq<nat>, out: seq<Line>, script: set<int>, p: Patterns)
    requires n < |lines| && Open(lines, n, starts, script, p) && Valued(lines, n, starts, out) && Blank(lines[n].text)
    ensures Open(lines, n + 1, starts, script, p) && Valued(lines, n + 1, starts, out)
  {
    hide Blank, Indent, OpensApart, ReadOn;
    var m := n + 1;
    forall k | 0 <= k < |starts| ensures ValuedAt(lines, m, starts, out, k) {
      assert ValuedAt(lines, n, starts, out, k);
    }
  }

  lemma OpenOnContinued(lines: seq<Line>, n: nat, starts: seq<nat>, script: set<int>, p: Patterns)
    requires n < |lines| && Open(lines, n, starts, script, p)
    requires starts != [] && !StandsApart(lines, starts[|starts| - 1], n, script, p)
    ensures Open(lines, n + 1, starts, script, p)
  {
    hide Blank, Indent, StandsApart, OpensApart;
    assert Follows(starts, |starts| - 1, n);
    assert ReadOn(lines, starts, n, script, p);
    hide ReadOn, Follows;
  }

  lemma ValuedOnContinued(lines: seq<Line>, n: nat, starts: seq<nat>, out: seq<Line>)
    requires n < |lines| && Valued(lines, n, starts, out) && !Blank(lines[n].text) && starts != []
    ensures var last := out[|out| - 1];
            Valued(lines, n + 1, starts, out[..|out| - 1] + [Line(last.number, Rstrip(last.text) + " " + Strip(lines[n].text))])
  {
    hide Blank, Rstrip, Strip;
    var last := out[|out| - 1];
    var more := out[..|out| - 1] + [Line(last.number, Rstrip(last.text) + " " + Strip(lines[n].text))];
    var m := n + 1;
    forall k | 0 <= k < |starts| ensures ValuedAt(lines, m, starts, more, k) {
      assert ValuedAt(lines, n, starts, out, k);
    }
  }

  lemma OpenOnStart(lines: seq<Line>, n: nat, starts: seq<nat>, script: set<int>, p: Patterns)
    requires n < |lines| && Open(lines, n, starts, script, p) && !Blank(lines[n].text)
    requires starts == [] || StandsApart(lines, starts[|starts| - 1], n, script, p)
    ensures Open(lines, n + 1, starts + [n], script, p)
  {
    hide Blank, StandsApart, OpensApart, ReadOn, Skipped, Follows;
    var more := starts + [n];
    forall k | 0 < k < |more| ensures OpensApart(lines, more, k, script, p) {
      StartsApartOn(lines, n, starts, k, script, p);
    }
    forall i | 0 <= i < n + 1 && Skipped(more, i) && !Blank(lines[i].text) ensures ReadOn(lines, more, i, script, p) {
      SkippedOn(starts, n, i);
      ReadOnOn(lines, n, starts, i, script, p);
    }
    AscendingOn(starts, n);
  }

  lemma AscendingOn(starts: seq<nat>, n: nat)
    requires Ascending(starts) && forall k | 0 <= k < |starts| :: starts[k] < n
    ensures Ascending(starts + [n]) && forall k | 0 <= k < |starts| :: (starts + [n])[k] == starts[k]
  {
  }

  lemma StartsApartOn(lines: seq<Line>, n: nat, starts: seq<nat>, k: nat, script: set<int>, p: Patterns)
    requires n < |lines| && 0 < k <= |starts| && starts[k - 1] < |lines|
    requires k < |starts| ==> OpensApart(lines, starts, k, script, p)
    requires k == |starts| ==> StandsApart(lines, starts[k - 1], n, script, p)
    ensures OpensApart(lines, starts + [n], k, script, p)
  {
    hide StandsApart;
  }

  lemma SkippedOn(starts: seq<nat>, n: nat, i: nat)
    requires Skipped(starts + [n], i)
    ensures i != n && Skipped(starts, i)
  {
    assert (starts + [n])[|starts|] == n;
    forall k | 0 <= k < |starts| ensures starts[k] != i {
      assert (starts + [n])[k] == starts[k];
    }
  }

  lemma ReadOnOn(lines: seq<Line>, n: nat, starts: seq<nat>, i: nat, script: set<int>, p: Patterns)
    requires i < n < |lines| && ReadOn(lines, starts, i, script, p)
    ensures ReadOn(lines, starts + [n], i, script, p)
  {
    hide StandsApart;
    var k: nat :| Follows(starts, k, i) && starts[k] < |lines| && !StandsApart(lines, starts[k], i, script, p);
    assert Follows(starts + [n], k, i) && (starts + [n])[k] == starts[k];
  }

  lemma ValuedOnStart(lines: seq<Line>, n: nat, starts: seq<nat>, out: seq<Line>)
    requires n < |lines| && Valued(lines, n, starts, out)
    ensures Valued(lines, n + 1, starts + [n], out + [lines[n]])
  {
    hide Blank, Rstrip, Strip;
    var more, m, out' := starts + [n], n + 1, out + [lines[n]];
    forall k | 0 <= k < |more| ensures ValuedAt(lines, m, more, out', k) {
      assert k < |starts| ==> ValuedAt(lines, n, starts, out, k);
    }
  }

  lemma {:induction false} ContinuationsSoFar(lines: seq<Line>, n: nat, script: set<int>, p: Patterns)
    returns (starts: seq<nat>, out: seq<Line>)
    requires n <= |lines|
    ensures Open(lines, n, starts, script, p) && Valued(lines, n, starts, out)
    ensures Onwards(out, lines[n..], script, p) == Continuations(lines, None, script, p)
  {
    hide Blank, Indent, Open, Valued, Onwards, Continuations, StandsApart;
    if n == 0 {
      starts, out := [], [];
      NothingOpen(lines, script, p);
    } else {
      starts, out := ContinuationsSoFar(lines, n - 1, script, p);
      var line, rest := lines[n - 1], lines[n - 1..];
      assert rest[0] == line && rest[1..] == lines[n..];
      if Blank(line.text) {
        OnwardsBlank(out, rest, script, p);
        OnBlank(lines, n - 1, starts, out, script, p);
      } else {
        LastIs(lines, n - 1, starts, out, script, p);
        if starts != [] && !StandsApart(lines, starts[|starts| - 1], n - 1, script, p) {
          OnwardsContinued(out, rest, script, p);
          OpenOnContinued(lines, n - 1, starts, script, p);
          ValuedOnContinued(lines, n - 1, starts, out);
          out := out[..|out| - 1] + [Continued(out[|out| - 1], line)];
        } else {
          OnwardsKept(out, rest, script, p);
          OpenOnStart(lines, n - 1, starts, script, p);
          ValuedOnStart(lines, n - 1, starts, out);
          starts, out := starts + [n - 1], out + [line];
        }
      }
    }
  }

  lemma NothingOpen(lines: seq<Line>, script: set<int>, p: Patterns)
    ensures Open(lines, 0, [], script, p) && Valued(lines, 0, [], [])
    ensures Onwards([], lines[0..], script, p) == Continuations(lines, None, script, p)
  {
    assert lines[0..] == lines;
  }

  lemma LastIs(lines: seq<Line>, n: nat, starts: seq<nat>, out: seq<Line>, script: set<int>, p: Patterns)
    requires n < |lines| && Open(lines, n, starts, script, p) && Valued(lines, n, starts, out)
    ensures |out| == |starts|
    ensures starts != [] ==>
              && starts[|starts| - 1] < |lines|
              && (Continues(Some(out[|out| - 1]), lines[n], script, p) <==> !StandsApart(lines, starts[|starts| - 1], n, script, p))
  {
    hide Blank, Indent, OpensApart, ReadOn;
    if starts != [] {
      assert ValuedAt(lines, n, starts, out, |starts| - 1);
      ValueKeepsIndent(lines, starts[|starts| - 1], n);
    }
  }

  /** The fold of values below their keys: a logical line for each line that is not blank and stands apart from the one
      that opened the last, and in each the text of those below it that do not. */
  lemma ContinuationsAre(lines: seq<Line>, script: set<int>, p: Patterns) returns (starts: seq<nat>)
    ensures Open(lines, |lines|, starts, script, p)
    ensures Valued(lines, |lines|, starts, Continuations(lines, None, script, p))
  {
    var out;
    starts, out := ContinuationsSoFar(lines, |lines|, script, p);
    assert lines[|lines|..] == [];
    OnwardsNothing(out, script, p);
  }

  /** Some line with this number is a key or an item. */
  ghost predicate OpensByForm(lines: seq<Line>, number: int, p: Patterns) {
    exists i :: 0 <= i < |lines| && lines[i].number == number && (p.key(lines[i].text) || p.item(lines[i].text))
  }

  ghost predicate HasNumber(out: seq<Line>, number: int) {
    exists k :: 0 <= k < |out| && out[k].number == number
  }

  ghost predicate DeeperThanOne(out: seq<Line>, line: Line) {
    exists k :: 0 <= k < |out| && Indent(line.text) > Indent(out[k].text)
  }

  /** So each line put out but the first is a script's, a key, an item, or opens no deeper than the line before it. */
  lemma LinesPutOutStandApart(lines: seq<Line>, script: set<int>, p: Patterns, k: nat)
    requires 0 < k < |Continuations(lines, None, script, p)|
    ensures var out := Continuations(lines, None, script, p);
            || out[k].number in script || OpensByForm(lines, out[k].number, p)
            || Indent(out[k].text) <= Indent(out[k - 1].text)
  {
    var starts := ContinuationsAre(lines, script, p);
    hide Blank, Indent, Continuations, Rstrip, Strip;
    var out := Continuations(lines, None, script, p);
    assert ValuedAt(lines, |lines|, starts, out, k - 1) && ValuedAt(lines, |lines|, starts, out, k);
    assert OpensApart(lines, starts, k, script, p);
    hide Open, Valued;
    ValueKeepsIndent(lines, starts[k - 1], starts[k]);
    ValueKeepsIndent(lines, starts[k], End(|lines|, starts, k));
  }

  /** And a line that is not blank and whose number is not put out was none of these, and deeper than the line it joined. */
  lemma JoinedLinesAreDeeper(lines: seq<Line>, script: set<int>, p: Patterns, i: nat)
    requires i < |lines| && !Blank(lines[i].text) && !HasNumber(Continuations(lines, None, script, p), lines[i].number)
    ensures lines[i].number !in script && !p.key(lines[i].text) && !p.item(lines[i].text)
    ensures DeeperThanOne(Continuations(lines, None, script, p), lines[i])
  {
    var out := Continuations(lines, None, script, p);
    var starts := ContinuationsAre(lines, script, p);
    hide Blank, Indent, Continuations, Rstrip, Strip;
    forall k | 0 <= k < |starts| ensures starts[k] != i {
      assert ValuedAt(lines, |lines|, starts, out, k);
    }
    assert ReadOn(lines, starts, i, script, p);
    var k: nat :| Follows(starts, k, i) && starts[k] < |lines| && !StandsApart(lines, starts[k], i, script, p);
    assert ValuedAt(lines, |lines|, starts, out, k) && !Blank(lines[starts[k]].text);
    hide Open, Valued;
    ValueKeepsIndent(lines, starts[k], End(|lines|, starts, k));
    assert Indent(lines[i].text) > Indent(out[k].text);
  }
}
