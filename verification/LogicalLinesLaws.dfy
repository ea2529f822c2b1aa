/**
 What folding keeps: the text apart from spaces and backslashes, the order and
 numbers of the lines, and balance.
 */
module LogicalLinesLaws {
  import opened Common
  import opened Text
  import opened LogicalLines

  // ---- the text apart from spaces and backslashes ----

  predicate Kept(c: char) { !IsSpace(c) && c != '\\' }

  function Content(s: string): string {
    if s == "" then ""
    else if Kept(s[|s| - 1]) then Content(s[..|s| - 1]) + [s[|s| - 1]]
    else Content(s[..|s| - 1])
  }

  function Contents(lines: seq<Line>): string {
    if lines == [] then "" else Content(lines[0].text) + Contents(lines[1..])
  }

  lemma {:induction false} ContentConcat(a: string, b: string)
    ensures Content(a + b) == Content(a) + Content(b)
  {
    hide IsSpace;
    if b == "" {
      assert a + b == a && Content(a) + "" == Content(a);
    } else {
      ContentConcat(a, b[..|b| - 1]);
      assert (a + b)[..|a + b| - 1] == a + b[..|b| - 1];
    }
  }

  lemma ContentOfNothing(s: string)
    requires |s| == 1 && !Kept(s[0])
    ensures Content(s) == ""
  {
  }

  lemma {:induction false} ContentTrimRight(s: string)
    ensures Content(Rstrip(s)) == Content(s)
  {
    if s != "" && IsSpace(s[|s| - 1]) {
      ContentTrimRight(s[..|s| - 1]);
    }
  }

  lemma {:induction false} ContentTrimLeft(s: string)
    ensures Content(TrimLeft(s, IsSpace)) == Content(s)
  {
    if s != "" && IsSpace(s[0]) {
      ContentTrimLeft(s[1..]);
      ContentOfNothing(s[..1]);
      ContentConcat(s[..1], s[1..]);
      assert s == s[..1] + s[1..];
    }
  }

  lemma ContentStrip(s: string)
    ensures Content(Strip(s)) == Content(s)
  {
    ContentTrimLeft(Rstrip(s));
    ContentTrimRight(s);
  }

  lemma ContentSpaced(a: string, b: string)
    ensures Content(a + " " + b) == Content(a) + Content(b)
  {
    ContentConcat(a + " ", b);
    ContentConcat(a, " ");
    ContentOfNothing(" ");
    assert Content(a) + "" == Content(a);
  }

  lemma {:induction false} ContentsConcat(a: seq<Line>, b: seq<Line>)
    ensures Contents(a + b) == Contents(a) + Contents(b)
  {
    hide Content;
    if a == [] {
      assert a + b == b;
    } else {
      assert (a + b)[1..] == a[1..] + b;
      ContentsConcat(a[1..], b);
      Associate(Content(a[0].text), Contents(a[1..]), Contents(b));
    }
  }

  lemma ContentsOfOne(line: Line)
    ensures Contents([line]) == Content(line.text)
  {
  }

  lemma ContentsCons(line: Line, rest: seq<Line>)
    ensures Contents([line] + rest) == Content(line.text) + Contents(rest)
  {
  }

  // ---- order ----

  function Numbers(lines: seq<Line>): seq<int> {
    if lines == [] then [] else [lines[0].number] + Numbers(lines[1..])
  }

  /** `a` is what is left of `b` when some of it is left out. */
  predicate Within(a: seq<int>, b: seq<int>) {
    a == [] || (b != [] && ((a[0] == b[0] && Within(a[1..], b[1..])) || Within(a, b[1..])))
  }

  predicate Increasing(a: seq<int>) { forall i, j | 0 <= i < j < |a| :: a[i] < a[j] }

  lemma {:induction false} WithinPrefixed(a: seq<int>, more: seq<int>, b: seq<int>)
    requires Within(a, b)
    ensures Within(a, more + b)
  {
    if more == [] {
      assert more + b == b;
    } else {
      WithinPrefixed(a, more[1..], b);
      assert (more + b)[1..] == more[1..] + b;
    }
  }

  lemma {:induction false} WithinConcat(a: seq<int>, b: seq<int>, c: seq<int>, d: seq<int>)
    requires Within(a, b) && Within(c, d)
    ensures Within(a + c, b + d)
    decreases |b|
  {
    if a == [] {
      assert a + c == c;
      WithinPrefixed(c, b, d);
    } else {
      assert (b + d)[0] == b[0] && (b + d)[1..] == b[1..] + d;
      assert (a + c)[0] == a[0] && (a + c)[1..] == a[1..] + c;
      if a[0] == b[0] && Within(a[1..], b[1..]) {
        WithinConcat(a[1..], b[1..], c, d);
      } else {
        WithinConcat(a, b[1..], c, d);
      }
    }
  }

  lemma {:induction false} WithinTransitive(a: seq<int>, b: seq<int>, c: seq<int>)
    requires Within(a, b) && Within(b, c)
    ensures Within(a, c)
    decreases |c|
  {
    if a != [] {
      if b[0] == c[0] && Within(b[1..], c[1..]) {
        if a[0] == b[0] && Within(a[1..], b[1..]) {
          WithinTransitive(a[1..], b[1..], c[1..]);
        } else {
          WithinTransitive(a, b[1..], c[1..]);
        }
      } else {
        WithinTransitive(a, b, c[1..]);
      }
    }
  }

  lemma {:induction false} WithinItself(a: seq<int>)
    ensures Within(a, a)
  {
    if a != [] {
      WithinItself(a[1..]);
    }
  }

  lemma {:induction false} WithinMembers(a: seq<int>, b: seq<int>, x: int)
    requires Within(a, b) && x in a
    ensures x in b
    decreases |b|
  {
    if a[0] == b[0] && Within(a[1..], b[1..]) {
      if x != a[0] {
        WithinMembers(a[1..], b[1..], x);
      }
    } else {
      WithinMembers(a, b[1..], x);
    }
  }

  lemma {:induction false} WithinIncreases(a: seq<int>, b: seq<int>)
    requires Within(a, b) && Increasing(b)
    ensures Increasing(a)
    decreases |b|
  {
    if a != [] {
      if a[0] == b[0] && Within(a[1..], b[1..]) {
        WithinIncreases(a[1..], b[1..]);
        forall j | 0 < j < |a| ensures a[0] < a[j] {
          WithinMembers(a[1..], b[1..], a[1..][j - 1]);
        }
        forall i, j | 0 <= i < j < |a| ensures a[i] < a[j] {
          if i > 0 {
            assert a[1..][i - 1] < a[1..][j - 1];
          }
        }
      } else {
        WithinIncreases(a, b[1..]);
      }
    }
  }

  lemma {:induction false} NumbersConcat(a: seq<Line>, b: seq<Line>)
    ensures Numbers(a + b) == Numbers(a) + Numbers(b)
  {
    if a == [] {
      assert a + b == b;
    } else {
      assert (a + b)[0] == a[0] && (a + b)[1..] == a[1..] + b;
      NumbersConcat(a[1..], b);
    }
  }

  /** `out` keeps everything of `lines` but spaces and backslashes, and their order. */
  ghost predicate Keeps(out: seq<Line>, lines: seq<Line>) {
    Contents(out) == Contents(lines) && Within(Numbers(out), Numbers(lines))
  }

  lemma KeepsConcat(a: seq<Line>, b: seq<Line>, c: seq<Line>, d: seq<Line>)
    requires Keeps(a, b) && Keeps(c, d)
    ensures Keeps(a + c, b + d)
  {
    ContentsConcat(a, c);
    ContentsConcat(b, d);
    NumbersConcat(a, c);
    NumbersConcat(b, d);
    WithinConcat(Numbers(a), Numbers(b), Numbers(c), Numbers(d));
  }

  lemma KeepsTransitive(a: seq<Line>, b: seq<Line>, c: seq<Line>)
    requires Keeps(a, b) && Keeps(b, c)
    ensures Keeps(a, c)
  {
    WithinTransitive(Numbers(a), Numbers(b), Numbers(c));
  }

  lemma KeepsItself(a: seq<Line>)
    ensures Keeps(a, a)
  {
    WithinItself(Numbers(a));
  }

  /** Changing only spaces and backslashes of the first line. */
  lemma KeepsRespelled(line: Line, respelled: Line, rest: seq<Line>)
    requires line.number == respelled.number && Content(line.text) == Content(respelled.text)
    ensures Keeps([respelled] + rest, [line] + rest)
  {
    ContentsOfOne(line);
    ContentsOfOne(respelled);
    assert Numbers([line]) == [line.number] == Numbers([respelled]);
    KeepsItself([line]);
    assert Keeps([respelled], [line]);
    KeepsItself(rest);
    KeepsConcat([respelled], [line], rest, rest);
  }

  /** Joining the second line onto the first. */
  lemma KeepsJoined(first: Line, second: Line, joined: Line, rest: seq<Line>)
    requires joined.number == first.number && Content(joined.text) == Content(first.text) + Content(second.text)
    ensures Keeps([joined] + rest, [first] + ([second] + rest))
  {
    ContentsOfOne(joined);
    ContentsCons(first, [second]);
    ContentsOfOne(second);
    assert Numbers([joined]) == [first.number];
    assert Numbers([first] + [second]) == [first.number, second.number] by {
      NumbersConcat([first], [second]);
    }
    assert Keeps([joined], [first] + [second]);
    KeepsItself(rest);
    KeepsConcat([joined], [first] + [second], rest, rest);
    Associate([first], [second], rest);
  }

  // ---- folding onto a pending line ----

  ghost predicate HoldsContent(held: string -> Option<string>) {
    forall t: string :: held(t).Some? ==> Content(held(t).value) == Content(t)
  }

  lemma OntoKeeps(pending: Option<Line>, line: Line, rest: seq<Line>)
    ensures Keeps([Onto(pending, line)] + rest, AsLines(pending) + ([line] + rest))
  {
    if pending.None? {
      KeepsItself([line] + rest);
      assert AsLines(pending) + ([line] + rest) == [line] + rest;
    } else {
      ContentSpaced(pending.value.text, Strip(line.text));
      ContentStrip(line.text);
      KeepsJoined(pending.value, line, Onto(pending, line), rest);
    }
  }

  lemma {:induction false} FoldKeeps(lines: seq<Line>, pending: Option<Line>, held: string -> Option<string>)
    requires HoldsContent(held)
    ensures Keeps(Fold(lines, pending, held), AsLines(pending) + lines)
    decreases |lines|
  {
    hide Keeps, HoldsContent;
    if lines == [] {
      KeepsItself(AsLines(pending));
      assert AsLines(pending) + lines == AsLines(pending);
    } else {
      var line, rest := Onto(pending, lines[0]), lines[1..];
      OntoKeeps(pending, lines[0], rest);
      assert [lines[0]] + rest == lines;
      if held(line.text).Some? {
        var kept := line.(text := held(line.text).value);
        FoldKeeps(rest, Some(kept), held);
        HeldContent(held, line.text);
        KeepsRespelled(line, kept, rest);
        KeepsTransitive(Fold(lines, pending, held), [kept] + rest, [line] + rest);
      } else {
        FoldKeeps(rest, None, held);
        assert AsLines(None) + rest == rest;
        KeepsItself([line]);
        KeepsConcat([line], [line], Fold(rest, None, held), rest);
      }
      KeepsTransitive(Fold(lines, pending, held), [line] + rest, AsLines(pending) + lines);
    }
  }

  lemma HeldContent(held: string -> Option<string>, t: string)
    requires HoldsContent(held) && held(t).Some?
    ensures Content(held(t).value) == Content(t)
  {
  }

  /** Every folded line but the last is one that nothing keeps open. */
  lemma {:induction false} FoldedAreClosed(lines: seq<Line>, pending: Option<Line>, held: string -> Option<string>, k: nat)
    requires k + 1 < |Fold(lines, pending, held)|
    ensures held(Fold(lines, pending, held)[k].text).None?
    decreases |lines|
  {
    if lines != [] {
      var line := Onto(pending, lines[0]);
      if held(line.text).Some? {
        FoldedAreClosed(lines[1..], Some(line.(text := held(line.text).value)), held, k);
      } else if k > 0 {
        FoldedAreClosed(lines[1..], None, held, k - 1);
      }
    }
  }

  lemma SlashesHoldContent()
    ensures HoldsContent(HeldBySlash)
  {
    forall t: string | HeldBySlash(t).Some? ensures Content(HeldBySlash(t).value) == Content(t) {
      var stripped := Rstrip(t);
      var cut := stripped[..|stripped| - 1];
      ContentTrimRight(t);
      ContentTrimRight(cut);
    }
  }

  lemma FlowsHoldContent()
    ensures HoldsContent(HeldByFlow)
  {
    forall t: string | HeldByFlow(t).Some? ensures Content(HeldByFlow(t).value) == Content(t) {
      ContentTrimRight(t);
    }
  }

  lemma SlashesKeep(lines: seq<Line>)
    ensures Keeps(FoldSlashes(lines), lines)
  {
    SlashesHoldContent();
    FoldKeeps(lines, None, HeldBySlash);
    assert AsLines(None) + lines == lines;
  }

  // ---- block scalars ----

  lemma BlankContent(s: string)
    requires Blank(s)
    ensures Content(s) == ""
  {
    ContentStrip(s);
  }

  lemma {:induction false} JoinedContent(lines: seq<Line>)
    ensures Content(Joined(lines)) == Contents(lines)
  {
    if lines != [] {
      var rest := Joined(lines[1..]);
      JoinedContent(lines[1..]);
      ContentStrip(lines[0].text);
      if Blank(lines[0].text) {
        BlankContent(lines[0].text);
        assert "" + Contents(lines[1..]) == Contents(lines[1..]);
      } else if rest == "" {
        assert Content(lines[0].text) + "" == Content(lines[0].text);
      } else {
        ContentSpaced(Strip(lines[0].text), rest);
      }
    }
  }

  lemma BodyFoldedKeeps(line: Line, h: Header, body: seq<Line>)
    ensures Keeps(BodyFolded(line, h, body), [line] + body)
  {
    if IsScript(h) {
      KeepsItself([line]);
      SlashesKeep(body);
      KeepsConcat([line], [line], FoldSlashes(body), body);
    } else {
      var text := Rstrip(line.text) + " " + Joined(body);
      ContentTrimRight(text);
      ContentSpaced(Rstrip(line.text), Joined(body));
      ContentTrimRight(line.text);
      JoinedContent(body);
      var folded := line.(text := Rstrip(text));
      ContentsOfOne(folded);
      ContentsCons(line, body);
      NumbersConcat([line], body);
      assert Numbers([folded]) == [line.number] == Numbers([line]);
    }
  }

  lemma {:induction false} BlocksKeep(lines: seq<Line>, header: string -> Option<Header>)
    ensures Keeps(Blocks(lines, header), lines)
    decreases |lines|
  {
    hide Keeps, BodyFolded, BodyLength;
    if lines == [] {
      KeepsItself(lines);
    } else if header(lines[0].text).None? {
      BlocksKeep(lines[1..], header);
      KeepsItself([lines[0]]);
      KeepsConcat([lines[0]], [lines[0]], Blocks(lines[1..], header), lines[1..]);
      assert [lines[0]] + lines[1..] == lines;
    } else {
      var h := header(lines[0].text).value;
      var n := BodyLength(lines[1..], h.column);
      var body, rest := lines[1..][..n], lines[1..][n..];
      BlocksKeep(rest, header);
      BodyFoldedKeeps(lines[0], h, body);
      KeepsConcat(BodyFolded(lines[0], h, body), [lines[0]] + body, Blocks(rest, header), rest);
      assert [lines[0]] + body + rest == lines;
    }
  }

  // ---- values below their keys ----

  lemma BlankKeeps(lines: seq<Line>)
    requires lines != [] && Blank(lines[0].text)
    ensures Keeps(lines[1..], lines)
  {
    BlankContent(lines[0].text);
    ContentsCons(lines[0], lines[1..]);
    assert [lines[0]] + lines[1..] == lines;
    WithinItself(Numbers(lines[1..]));
    WithinPrefixed(Numbers(lines[1..]), [lines[0].number], Numbers(lines[1..]));
  }

  lemma {:induction false} ContinuationsKeep(lines: seq<Line>, last: Option<Line>, script: set<int>, p: Patterns)
    ensures Keeps(Continuations(lines, last, script, p), AsLines(last) + lines)
    decreases |lines|
  {
    hide Keeps, Blank, Continues;
    if lines == [] {
      KeepsItself(AsLines(last));
      assert AsLines(last) + lines == AsLines(last);
    } else {
      var rest := lines[1..];
      assert [lines[0]] + rest == lines;
      if Blank(lines[0].text) {
        ContinuationsKeep(rest, last, script, p);
        BlankKeeps(lines);
        KeepsItself(AsLines(last));
        KeepsConcat(AsLines(last), AsLines(last), rest, lines);
        KeepsTransitive(Continuations(lines, last, script, p), AsLines(last) + rest, AsLines(last) + lines);
      } else if Continues(last, lines[0], script, p) {
        ContinuesLast(last, lines[0], script, p);
        var joined := Continued(last.value, lines[0]);
        ContinuationsKeep(rest, Some(joined), script, p);
        ContentSpaced(Rstrip(last.value.text), Strip(lines[0].text));
        ContentTrimRight(last.value.text);
        ContentStrip(lines[0].text);
        KeepsJoined(last.value, lines[0], joined, rest);
        KeepsTransitive(Continuations(lines, last, script, p), [joined] + rest, AsLines(last) + lines);
      } else {
        ContinuationsKeep(rest, Some(lines[0]), script, p);
        KeepsItself(AsLines(last));
        KeepsConcat(AsLines(last), AsLines(last), Continuations(rest, Some(lines[0]), script, p), lines);
      }
    }
  }

  lemma ContinuesLast(last: Option<Line>, line: Line, script: set<int>, p: Patterns)
    requires Continues(last, line, script, p)
    ensures last.Some?
  {
  }

  /** A script's line is never read as the rest of the value above it: it stands on its own, whole, with what its
      own continuations add. */
  lemma {:induction false} ScriptLinesStand(lines: seq<Line>, last: Option<Line>, script: set<int>, p: Patterns, i: nat)
    requires i < |lines| && lines[i].number in script && !Blank(lines[i].text)
    ensures exists k :: 0 <= k < |Continuations(lines, last, script, p)|
                        && Continuations(lines, last, script, p)[k].number == lines[i].number
    decreases |lines|
  {
    var out := Continuations(lines, last, script, p);
    if i == 0 {
      var rest := Continuations(lines[1..], Some(lines[0]), script, p);
      StartsWithLast(lines[1..], lines[0], script, p);
      assert out[|AsLines(last)|] == rest[0];
    } else if Blank(lines[0].text) {
      ScriptLinesStand(lines[1..], last, script, p, i - 1);
    } else if Continues(last, lines[0], script, p) {
      ScriptLinesStand(lines[1..], Some(Continued(last.value, lines[0])), script, p, i - 1);
    } else {
      var rest := Continuations(lines[1..], Some(lines[0]), script, p);
      ScriptLinesStand(lines[1..], Some(lines[0]), script, p, i - 1);
      var k :| 0 <= k < |rest| && rest[k].number == lines[i].number;
      assert out[|AsLines(last)| + k] == rest[k];
    }
  }

  lemma {:induction false} StartsWithLast(lines: seq<Line>, last: Line, script: set<int>, p: Patterns)
    ensures Continuations(lines, Some(last), script, p) != []
    ensures Continuations(lines, Some(last), script, p)[0].number == last.number
    decreases |lines|
  {
    if lines != [] {
      if Blank(lines[0].text) {
        StartsWithLast(lines[1..], last, script, p);
      } else if Continues(Some(last), lines[0], script, p) {
        StartsWithLast(lines[1..], Continued(last, lines[0]), script, p);
      }
    }
  }

  // ---- all four ----

  /** Logical lines lose nothing but spaces and backslashes and reorder nothing, and each is numbered as the
      physical line it opens on. */
  lemma LogicalLinesKeepTheText(lines: seq<Line>, yaml: bool, p: Patterns)
    ensures Contents(Logical(lines, yaml, p)) == Contents(lines)
    ensures Within(Numbers(Logical(lines, yaml, p)), Numbers(lines))
    ensures Increasing(Numbers(lines)) ==> Increasing(Numbers(Logical(lines, yaml, p)))
  {
    hide Logical, Increasing, Within, Contents, Numbers;
    LogicalKeeps(lines, yaml, p);
    if Increasing(Numbers(lines)) {
      WithinIncreases(Numbers(Logical(lines, yaml, p)), Numbers(lines));
    }
  }

  lemma LogicalKeeps(lines: seq<Line>, yaml: bool, p: Patterns)
    ensures Keeps(Logical(lines, yaml, p), lines)
  {
    hide Keeps, Blocks, Continuations, Fold, FoldSlashes, ScriptLines;
    SlashesKeep(lines);
    if yaml {
      var blocks, script := Blocks(lines, p.header), ScriptLines(lines, p.header);
      var slashed := FoldSlashes(blocks);
      var continued := Continuations(slashed, None, script, p);
      BlocksKeep(lines, p.header);
      SlashesKeep(blocks);
      KeepsTransitive(slashed, blocks, lines);
      ContinuationsKeep(slashed, None, script, p);
      assert AsLines(None) + slashed == slashed && AsLines(None) + continued == continued;
      KeepsTransitive(continued, slashed, lines);
      FlowsHoldContent();
      FoldKeeps(continued, None, HeldByFlow);
      KeepsTransitive(Logical(lines, yaml, p), continued, lines);
    }
  }

  /** Every logical line of a workflow but the last closes each collection it opens. */
  lemma LogicalLinesAreBalanced(lines: seq<Line>, p: Patterns, k: nat)
    requires k + 1 < |Logical(lines, true, p)|
    ensures FlowDepth(Logical(lines, true, p)[k].text) == 0
  {
    var continued := Continuations(FoldSlashes(Blocks(lines, p.header)), None, ScriptLines(lines, p.header), p);
    FoldedAreClosed(continued, None, HeldByFlow, k);
  }

  /** Outside YAML every line but the last is one that no backslash continues. */
  lemma PlainLinesAreWhole(lines: seq<Line>, p: Patterns, k: nat)
    requires k + 1 < |Logical(lines, false, p)|
    ensures var text := Rstrip(Logical(lines, false, p)[k].text); text == "" || text[|text| - 1] != '\\'
  {
    FoldedAreClosed(lines, None, HeldBySlash, k);
  }

  // ---- flow collections ----

  /** Every pair the scan reports is in the text as a key, a colon and a space, and a value, from a bracket or a
      comma to a bracket, a comma or the end. */
  lemma PairsAreInTheText(text: string)
    ensures RealPairs(text, RawPairs(text))
  {
    var r := WholeScan(text);
    if r.depth > 0 {
      PairToIsReal(text, |text| + 1, r.element, |text|);
    }
    RealPairsJoin(text, r.pairs, PairTo(text, |text| + 1, r.element, |text|));
  }
}
