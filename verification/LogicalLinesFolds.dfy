/** Which lines a backslash, an open collection or a block scalar joins, and to what. */
module LogicalLinesFolds {
  import opened Common
  import opened Text
  import opened LogicalLines
  import opened LogicalLinesRules

  // ---- lines kept open ----

  type Holding = string -> Option<string>

  /** What is left of text to be continued; other text is as it is. */
  function Left(held: Holding, t: string): string {
    if held(t).Some? then held(t).value else t
  }

  /** The text of line `a` with that of each line up to `b` after it. */
  function Gathered(lines: seq<Line>, a: nat, b: nat, held: Holding): string
    requires a < b <= |lines|
  {
    if b == a + 1 then lines[a].text
    else Left(held, Gathered(lines, a, b - 1, held)) + " " + Strip(lines[b - 1].text)
  }

  /** Whether what stands from line `a` to line `b` is to be continued. */
  predicate Continued(lines: seq<Line>, a: nat, b: nat, held: Holding) {
    a < b <= |lines| && held(Gathered(lines, a, b, held)).Some?
  }

  /** The start `k` comes where what the one before it gathered was whole. */
  predicate StartsWhole(lines: seq<Line>, starts: seq<nat>, k: nat, held: Holding) {
    0 < k < |starts| && starts[k - 1] < starts[k] <= |lines| && !Continued(lines, starts[k - 1], starts[k], held)
  }

  /** The line `i` continues what the last start before it gathered. */
  ghost predicate Joins(lines: seq<Line>, starts: seq<nat>, i: nat, held: Holding) {
    exists k: nat :: Follows(starts, k, i) && Continued(lines, starts[k], i, held)
  }

  /** Of the first `n` lines, `starts` are those that open a logical line: the first, and each that comes where the last
      logical line was whole. Every other one continues it. */
  ghost predicate Starting(lines: seq<Line>, n: nat, starts: seq<nat>, held: Holding)
    requires n <= |lines|
  {
    && Ascending(starts) && (forall k | 0 <= k < |starts| :: starts[k] < n) && (n > 0 ==> starts != [] && starts[0] == 0)
    && (forall k | 0 < k < |starts| :: StartsWhole(lines, starts, k, held))
    && (forall i | 0 <= i < n && Skipped(starts, i) :: Joins(lines, starts, i, held))
  }

  ghost predicate GatheredAt(lines: seq<Line>, n: nat, starts: seq<nat>, out: seq<Line>, held: Holding, k: nat)
    requires n <= |lines| && k < |starts| == |out|
  {
    && starts[k] < End(n, starts, k) <= n
    && out[k] == Line(lines[starts[k]].number, Left(held, Gathered(lines, starts[k], End(n, starts, k), held)))
  }

  /** `out` has a line for each of `starts`, with its number and what is gathered up to the next. */
  ghost predicate GatheredBy(lines: seq<Line>, n: nat, starts: seq<nat>, out: seq<Line>, held: Holding)
    requires n <= |lines|
  {
    |out| == |starts| && forall k | 0 <= k < |starts| :: GatheredAt(lines, n, starts, out, held, k)
  }

  /** The last of the first `n` lines is to be continued. */
  ghost predicate EndsOpen(lines: seq<Line>, n: nat, starts: seq<nat>, held: Holding) {
    starts != [] && Continued(lines, starts[|starts| - 1], n, held)
  }

  lemma StartOn(lines: seq<Line>, n: nat, starts: seq<nat>, held: Holding)
    requires n < |lines| && Starting(lines, n, starts, held) && !EndsOpen(lines, n, starts, held)
    ensures Starting(lines, n + 1, starts + [n], held)
  {
    hide Continued, Follows, Joins, Skipped, StartsWhole;
    var more := starts + [n];
    AscendingOn(starts, n);
    forall k | 0 < k < |more| ensures StartsWhole(lines, more, k, held) {
      StartsWholeOn(lines, n, starts, k, held);
    }
    forall i | 0 <= i < n + 1 && Skipped(more, i) ensures Joins(lines, more, i, held) {
      SkippedOn(starts, n, i);
      JoinsOn(lines, n, starts, i, held);
    }
  }

  lemma StartsWholeOn(lines: seq<Line>, n: nat, starts: seq<nat>, k: nat, held: Holding)
    requires n < |lines| && 0 < k <= |starts| && starts[k - 1] < n
    requires k < |starts| ==> StartsWhole(lines, starts, k, held)
    requires k == |starts| ==> !Continued(lines, starts[k - 1], n, held)
    ensures StartsWhole(lines, starts + [n], k, held)
  {
    hide Continued;
  }

  lemma JoinsOn(lines: seq<Line>, n: nat, starts: seq<nat>, i: nat, held: Holding)
    requires i < n && Joins(lines, starts, i, held)
    ensures Joins(lines, starts + [n], i, held)
  {
    hide Continued;
    var k: nat :| Follows(starts, k, i) && Continued(lines, starts[k], i, held);
    assert Follows(starts + [n], k, i) && (starts + [n])[k] == starts[k];
  }

  lemma JoinOn(lines: seq<Line>, n: nat, starts: seq<nat>, held: Holding)
    requires n < |lines| && Starting(lines, n, starts, held) && EndsOpen(lines, n, starts, held)
    ensures Starting(lines, n + 1, starts, held)
  {
    hide Continued, StartsWhole;
    assert Follows(starts, |starts| - 1, n);
    assert Joins(lines, starts, n, held);
    hide Joins, Follows;
  }

  lemma GatheredOnStart(lines: seq<Line>, n: nat, starts: seq<nat>, out: seq<Line>, held: Holding)
    requires n < |lines| && GatheredBy(lines, n, starts, out, held)
    ensures GatheredBy(lines, n + 1, starts + [n], out + [Line(lines[n].number, Left(held, lines[n].text))], held)
  {
    hide Left;
    var more, m, out' := starts + [n], n + 1, out + [Line(lines[n].number, Left(held, lines[n].text))];
    forall k | 0 <= k < |more| ensures GatheredAt(lines, m, more, out', held, k) {
      assert k < |starts| ==> GatheredAt(lines, n, starts, out, held, k);
    }
  }

  lemma GatheredOnJoin(lines: seq<Line>, n: nat, starts: seq<nat>, out: seq<Line>, held: Holding)
    requires n < |lines| && GatheredBy(lines, n, starts, out, held) && starts != []
    ensures var last := out[|out| - 1];
            GatheredBy(lines, n + 1, starts,
                       out[..|out| - 1] + [Line(last.number, Left(held, last.text + " " + Strip(lines[n].text)))], held)
  {
    hide Left, Strip;
    var last := out[|out| - 1];
    var m, out' := n + 1, out[..|out| - 1] + [Line(last.number, Left(held, last.text + " " + Strip(lines[n].text)))];
    forall k | 0 <= k < |starts| ensures GatheredAt(lines, m, starts, out', held, k) {
      assert GatheredAt(lines, n, starts, out, held, k);
    }
  }

  /** What the fold has put out after `n` lines, and the line it holds, if it holds one. */
  ghost predicate Halfway(lines: seq<Line>, n: nat, starts: seq<nat>, out: seq<Line>, pending: Option<Line>, held: Holding)
    requires n <= |lines|
  {
    && Starting(lines, n, starts, held) && GatheredBy(lines, n, starts, out + AsLines(pending), held)
    && (pending.Some? <==> EndsOpen(lines, n, starts, held))
    && out + Fold(lines[n..], pending, held) == Fold(lines, None, held)
  }

  lemma HalfwayStarts(lines: seq<Line>, held: Holding)
    ensures Halfway(lines, 0, [], [], None, held)
  {
    assert lines[0..] == lines && [] + Fold(lines, None, held) == Fold(lines, None, held);
  }

  /** What the fold makes of its next line. */
  lemma FoldNext(lines: seq<Line>, n: nat, pending: Option<Line>, held: Holding)
    requires n < |lines|
    ensures var line := Onto(pending, lines[n]);
            Fold(lines[n..], pending, held) ==
            if held(line.text).Some? then Fold(lines[n + 1..], Some(Line(line.number, held(line.text).value)), held)
            else [line] + Fold(lines[n + 1..], None, held)
  {
    assert lines[n..][0] == lines[n] && lines[n..][1..] == lines[n + 1..];
  }

  lemma HalfwayOnStart(lines: seq<Line>, n: nat, starts: seq<nat>, out: seq<Line>, held: Holding)
    returns (out': seq<Line>, pending: Option<Line>)
    requires n < |lines| && Halfway(lines, n, starts, out, None, held)
    ensures Halfway(lines, n + 1, starts + [n], out', pending, held)
  {
    hide Fold, Starting, GatheredBy, EndsOpen;
    var t := lines[n].text;
    assert out + AsLines(None) == out;
    StartOn(lines, n, starts, held);
    GatheredOnStart(lines, n, starts, out, held);
    FoldNext(lines, n, None, held);
    out', pending := out, None;
    if held(t).Some? {
      pending := Some(Line(lines[n].number, held(t).value));
    } else {
      out' := out + [lines[n]];
      Associate(out, [lines[n]], Fold(lines[n + 1..], None, held));
      assert out' + AsLines(None) == out';
    }
    OpenAtStart(lines, n, starts, held);
  }

  lemma OpenAtStart(lines: seq<Line>, n: nat, starts: seq<nat>, held: Holding)
    requires n < |lines|
    ensures EndsOpen(lines, n + 1, starts + [n], held) <==> held(lines[n].text).Some?
  {
    assert Gathered(lines, n, n + 1, held) == lines[n].text;
  }

  lemma HalfwayOnJoin(lines: seq<Line>, n: nat, starts: seq<nat>, out: seq<Line>, was: Line, held: Holding)
    returns (out': seq<Line>, pending: Option<Line>)
    requires n < |lines| && Halfway(lines, n, starts, out, Some(was), held)
    ensures Halfway(lines, n + 1, starts, out', pending, held)
  {
    HeldIsGathered(lines, n, starts, out, was, held);
    hide Fold, Starting, GatheredBy, EndsOpen, Strip, Left;
    var all := out + AsLines(Some(was));
    assert all[|all| - 1] == was && all[..|all| - 1] == out;
    var line := Line(was.number, was.text + " " + Strip(lines[n].text));
    JoinOn(lines, n, starts, held);
    GatheredOnJoin(lines, n, starts, all, held);
    FoldNext(lines, n, Some(was), held);
    LeftIs(held, line.text);
    out', pending := out, None;
    if held(line.text).Some? {
      pending := Some(Line(line.number, held(line.text).value));
    } else {
      out' := out + [line];
      Associate(out, [line], Fold(lines[n + 1..], None, held));
      assert out' + AsLines(None) == out';
    }
  }

  lemma LeftIs(held: Holding, t: string)
    ensures Left(held, t) == if held(t).Some? then held(t).value else t
  {
  }

  lemma HeldIsGathered(lines: seq<Line>, n: nat, starts: seq<nat>, out: seq<Line>, was: Line, held: Holding)
    requires n < |lines| && Halfway(lines, n, starts, out, Some(was), held)
    ensures starts != []
    ensures EndsOpen(lines, n + 1, starts, held) <==> held(was.text + " " + Strip(lines[n].text)).Some?
  {
    hide Fold, Strip, StartsWhole, Joins;
    var all, last := out + AsLines(Some(was)), |starts| - 1;
    assert GatheredAt(lines, n, starts, all, held, last);
    assert all[last] == was;
    assert Gathered(lines, starts[last], n + 1, held) == was.text + " " + Strip(lines[n].text);
  }

  lemma {:induction false} FoldSoFar(lines: seq<Line>, n: nat, held: Holding)
    returns (starts: seq<nat>, out: seq<Line>, pending: Option<Line>)
    requires n <= |lines|
    ensures Halfway(lines, n, starts, out, pending, held)
  {
    hide Halfway;
    if n == 0 {
      starts, out, pending := [], [], None;
      HalfwayStarts(lines, held);
    } else {
      starts, out, pending := FoldSoFar(lines, n - 1, held);
      if pending.None? {
        out, pending := HalfwayOnStart(lines, n - 1, starts, out, held);
        starts := starts + [n - 1];
      } else {
        out, pending := HalfwayOnJoin(lines, n - 1, starts, out, pending.value, held);
      }
    }
  }

  /** A fold by what is held open: a logical line for the first line and for each that comes where the last was whole, and
      in each the text of those that continue it. */
  lemma FoldIs(lines: seq<Line>, held: Holding) returns (starts: seq<nat>)
    ensures Starting(lines, |lines|, starts, held)
    ensures GatheredBy(lines, |lines|, starts, Fold(lines, None, held), held)
  {
    hide Starting, GatheredBy;
    var out, pending;
    starts, out, pending := FoldSoFar(lines, |lines|, held);
    assert lines[|lines|..] == [];
  }

  /** A shell line is held open by a backslash with nothing but spaces after it, and loses it with the spaces before it;
      any other is whole. */
  lemma BackslashHolds(t: string, before: string, after: string)
    requires t == before + "\\" + after && AllSpace(after)
    ensures HeldBySlash(t) == Some(Rstrip(before))
  {
    hide IsSpace;
    var cut := before + "\\";
    BackslashIsNoSpace();
    RstripEnds(cut, after);
    assert cut[..|cut| - 1] == before;
  }

  lemma BackslashIsNoSpace()
    ensures !IsSpace('\\')
  {
  }

  lemma NothingElseHolds(t: string)
    requires HeldBySlash(t).Some?
    ensures exists i :: 0 <= i < |t| && t[i] == '\\' && Spaces(t, i + 1, |t|)
  {
    hide IsSpace;
    RstripIs(t);
    var i := |Rstrip(t)| - 1;
    assert t[i] == '\\';
  }

  /** A workflow's line is held open by a collection it leaves open, and loses the spaces after it. */
  lemma OpenCollectionHolds(t: string)
    ensures FlowDepth(t) > 0 ==> HeldByFlow(t) == Some(Rstrip(t))
    ensures FlowDepth(t) == 0 ==> HeldByFlow(t).None?
  {
  }

  // ---- block scalars ----

  /** The lines of a block's body: blank, or deeper than its key. */
  predicate IsBody(lines: seq<Line>, column: nat) {
    forall i | 0 <= i < |lines| :: AllSpace(lines[i].text) || Indent(lines[i].text) > column
  }

  /** And the line after it: neither. */
  predicate EndsBody(lines: seq<Line>, column: nat) {
    lines != [] ==> !AllSpace(lines[0].text) && Indent(lines[0].text) <= column
  }

  predicate IsShell(h: Header) {
    h.literal && h.key in {"run", "script", "cmd", "shell", "entrypoint", "args"}
  }

  /** The lines that are not blank, stripped. */
  function Words(lines: seq<Line>): seq<string> {
    if lines == [] then []
    else
      var init, last := lines[..|lines| - 1], lines[|lines| - 1];
      if AllSpace(last.text) then Words(init) else Words(init) + [Strip(last.text)]
  }

  function Spaced(words: seq<string>): string {
    if words == [] then "" else if |words| == 1 then words[0]
    else Spaced(words[..|words| - 1]) + " " + words[|words| - 1]
  }

  lemma {:induction false} BodyIsTaken(body: seq<Line>, after: seq<Line>, column: nat)
    requires IsBody(body, column) && EndsBody(after, column)
    ensures BodyLength(body + after, column) == |body|
  {
    hide Blank, AllSpace, Indent;
    forall i | 0 <= i < |body| ensures Blank(body[i].text) || Indent(body[i].text) > column {
      BlankIs(body[i].text);
    }
    if after != [] {
      BlankIs(after[0].text);
    }
    BodyLengthAt(body + after, column, |body|);
  }

  lemma {:induction false} WordsConcat(a: seq<Line>, b: seq<Line>)
    ensures Words(a + b) == Words(a) + Words(b)
  {
    hide AllSpace, Strip;
    if b == [] {
      assert a + b == a;
    } else {
      assert (a + b)[..|a + b| - 1] == a + b[..|b| - 1];
      WordsConcat(a, b[..|b| - 1]);
    }
  }

  lemma {:induction false} SpacedFirst(word: string, words: seq<string>)
    ensures Spaced([word] + words) == if words == [] then word else word + " " + Spaced(words)
  {
    if |words| > 1 {
      var init, last := words[..|words| - 1], words[|words| - 1];
      assert ([word] + words)[..|words|] == [word] + init;
      SpacedFirst(word, init);
      Associate(word + " ", Spaced(init), " ");
      Associate(word + " ", Spaced(init) + " ", last);
    } else if |words| == 1 {
      assert ([word] + words)[..1] == [word];
    }
  }

  lemma StrippedIsThere(s: string)
    requires !AllSpace(s)
    ensures Strip(s) != ""
  {
    BlankIs(s);
  }

  lemma {:induction false} JoinedIsSpaced(lines: seq<Line>)
    ensures Joined(lines) == Spaced(Words(lines))
    ensures Joined(lines) == "" <==> Words(lines) == []
  {
    hide AllSpace, Strip, Blank;
    if lines != [] {
      var first, rest := lines[0], lines[1..];
      JoinedIsSpaced(rest);
      BlankIs(first.text);
      assert lines == [first] + rest;
      WordsConcat([first], rest);
      assert [first][..0] == [];
      if AllSpace(first.text) {
        assert Words([first]) == [];
        assert [] + Words(rest) == Words(rest);
      } else {
        assert Words([first]) == [Strip(first.text)];
        StrippedIsThere(first.text);
        SpacedFirst(Strip(first.text), Words(rest));
      }
    }
  }

  /** A block scalar's header and its body become one line, the body's words after it with single spaces, unless the block
      is a literal one of shell: then the header stands, and the body after it with its continuations folded, whose lines
      are the script's. What comes after the body is folded by itself. */
  lemma BlockFolds(line: Line, h: Header, body: seq<Line>, after: seq<Line>, header: string -> Option<Header>)
    requires header(line.text) == Some(h) && IsBody(body, h.column) && EndsBody(after, h.column)
    ensures Blocks([line] + body + after, header) ==
            (if IsShell(h) then [line] + FoldSlashes(body)
             else [Line(line.number, Rstrip(Rstrip(line.text) + " " + Spaced(Words(body))))]) + Blocks(after, header)
    ensures ScriptLines([line] + body + after, header) ==
            (if IsShell(h) then NumberSet(FoldSlashes(body)) else {}) + ScriptLines(after, header)
  {
    hide Rstrip, Joined, Words, Spaced, FoldSlashes, IsBody, EndsBody, BodyLength, NumberSet;
    var lines := [line] + body + after;
    assert lines[1..] == body + after && (body + after)[..|body|] == body && (body + after)[|body|..] == after;
    BodyIsTaken(body, after, h.column);
    JoinedIsSpaced(body);
  }

  /** A line that is no header stands. */
  lemma OtherLinesStand(line: Line, after: seq<Line>, header: string -> Option<Header>)
    requires header(line.text).None?
    ensures Blocks([line] + after, header) == [line] + Blocks(after, header)
    ensures ScriptLines([line] + after, header) == ScriptLines(after, header)
  {
    assert ([line] + after)[1..] == after;
  }

  // ---- together ----

  /** A value on the line below its key is read as one line with it, and one a collection leaves open over two lines too. */
  lemma TwoLinesAreRead(first: Line, second: Line, p: Patterns)
    requires p.header(first.text).None? && p.header(second.text).None? && !Blank(first.text) && !Blank(second.text)
    requires HeldBySlash(first.text).None? && HeldBySlash(second.text).None?
    ensures var lines, below := [first, second], Rstrip(first.text) + " " + Strip(second.text);
            var joins := FlowDepth(first.text) > 0
                         || (Indent(second.text) > Indent(first.text) && !p.key(second.text) && !p.item(second.text));
            joins && FlowDepth(below) == 0 ==> Logical(lines, true, p) == [Line(first.number, below)]
  {
    hide Blank, Indent, Strip, FlowDepth, HeldBySlash, Rstrip;
    var lines := [first, second];
    assert lines == [first] + ([second] + []) && [second] + [] == [second];
    OtherLinesStand(first, [second] + [], p.header);
    OtherLinesStand(second, [], p.header);
    assert Blocks(lines, p.header) == lines && ScriptLines(lines, p.header) == {};
    assert lines[1..] == [second] && [second][1..] == [];
    assert Onto(None, first) == first && Onto(None, second) == second;
    FoldFirst(first, [second], None, HeldBySlash);
    FoldFirst(second, [], None, HeldBySlash);
    TwoContinue(first, second, p);
    TwoInFlow(first, second);
    hide Fold, Continuations, FoldSlashes, Blocks;
  }

  lemma TwoContinue(first: Line, second: Line, p: Patterns)
    requires !Blank(first.text) && !Blank(second.text)
    ensures Continuations([first, second], None, {}, p) ==
            if Indent(second.text) > Indent(first.text) && !p.key(second.text) && !p.item(second.text)
            then [Line(first.number, Rstrip(first.text) + " " + Strip(second.text))] else [first, second]
  {
    hide Blank, Indent, Strip, Rstrip;
    assert [first, second] == [first] + [second] && [second] == [second] + [];
    ContinuationsFirst(first, [second], None, p);
    ContinuationsFirst(second, [], Some(first), p);
  }

  lemma ContinuationsFirst(line: Line, rest: seq<Line>, last: Option<Line>, p: Patterns)
    requires !Blank(line.text)
    ensures Continuations([line] + rest, last, {}, p) ==
            if last.Some? && Indent(line.text) > Indent(last.value.text) && !p.key(line.text) && !p.item(line.text)
            then Continuations(rest, Some(Line(last.value.number, Rstrip(last.value.text) + " " + Strip(line.text))), {}, p)
            else AsLines(last) + Continuations(rest, Some(line), {}, p)
  {
    hide Blank, Indent, Strip, Rstrip;
    assert ([line] + rest)[1..] == rest;
  }

  lemma FoldFirst(line: Line, rest: seq<Line>, pending: Option<Line>, held: Holding)
    ensures var l := Onto(pending, line);
            Fold([line] + rest, pending, held) ==
            if held(l.text).Some? then Fold(rest, Some(Line(l.number, held(l.text).value)), held) else [l] + Fold(rest, None, held)
  {
    assert ([line] + rest)[1..] == rest;
  }

  lemma TwoInFlow(first: Line, second: Line)
    ensures FlowDepth(first.text) == 0 ==> Fold([first], None, HeldByFlow) == [first]
    ensures var below := Line(first.number, Rstrip(first.text) + " " + Strip(second.text));
            && (FlowDepth(first.text) > 0 && FlowDepth(below.text) == 0 ==> Fold([first, second], None, HeldByFlow) == [below])
            && (FlowDepth(below.text) == 0 ==> Fold([below], None, HeldByFlow) == [below])
  {
    hide Strip, Rstrip, FlowDepth, HeldByFlow;
    var below := Line(first.number, Rstrip(first.text) + " " + Strip(second.text));
    assert [first, second] == [first] + [second] && [second] == [second] + [] && [first] == [first] + [] && [below] == [below] + [];
    OpenCollectionHolds(first.text);
    OpenCollectionHolds(below.text);
    FoldFirst(first, [], None, HeldByFlow);
    FoldFirst(first, [second], None, HeldByFlow);
    FoldFirst(second, [], Some(Line(first.number, Rstrip(first.text))), HeldByFlow);
    FoldFirst(below, [], None, HeldByFlow);
  }
}
