/**
 A workflow's logical lines: block scalars, shell continuations, values below their keys and flow
 collections, each folded into the line it opens on. Every pass is a loop over lines, and beside it the
 function it computes.
 */
module LogicalLines {
  import opened Common
  import opened Text

  datatype Line = Line(number: int, text: string)

  function Indent(s: string): nat { |s| - |TrimLeft(s, IsSpace)| }

  // ---- folding onto a pending line ----

  /** A line joined onto the one it continues. */
  function Onto(pending: Option<Line>, line: Line): Line {
    if pending.None? then line else Line(pending.value.number, pending.value.text + " " + Strip(line.text))
  }

  function AsLines(pending: Option<Line>): seq<Line> {
    if pending.None? then [] else [pending.value]
  }

  /** Folds each line that `held` keeps open onto the next; what it keeps is the text to be continued. */
  function Fold(lines: seq<Line>, pending: Option<Line>, held: string -> Option<string>): seq<Line>
    decreases |lines|
  {
    if lines == [] then AsLines(pending)
    else
      var line := Onto(pending, lines[0]);
      if held(line.text).Some? then Fold(lines[1..], Some(line.(text := held(line.text).value)), held)
      else [line] + Fold(lines[1..], None, held)
  }

  /** A shell line ending in a backslash, without it. */
  function HeldBySlash(text: string): Option<string> {
    var stripped := Rstrip(text);
    if stripped != "" && stripped[|stripped| - 1] == '\\' then Some(Rstrip(stripped[..|stripped| - 1])) else None
  }

  function FoldSlashes(lines: seq<Line>): seq<Line> { Fold(lines, None, HeldBySlash) }

  method FoldBackslashes(lines: seq<Line>) returns (out: seq<Line>)
    ensures out == FoldSlashes(lines)
  {
    out := [];
    var pending: Option<Line> := None;
    for i := 0 to |lines|
      invariant out + Fold(lines[i..], pending, HeldBySlash) == FoldSlashes(lines)
    {
      assert lines[i..][0] == lines[i] && lines[i..][1..] == lines[i + 1..];
      var number, text := lines[i].number, lines[i].text;
      var stripped := Rstrip(text);
      ghost var was := pending;
      if pending.Some? {
        number, text := pending.value.number, pending.value.text + " " + Strip(text);
        stripped := Rstrip(text);
        pending := None;
      }
      assert Line(number, text) == Onto(was, lines[i]);
      if stripped != "" && stripped[|stripped| - 1] == '\\' {
        pending := Some(Line(number, Rstrip(stripped[..|stripped| - 1])));
      } else {
        Associate(out, [Line(number, text)], Fold(lines[i + 1..], None, HeldBySlash));
        out := out + [Line(number, text)];
      }
    }
    assert lines[|lines|..] == [];
    if pending.Some? {
      out := out + [pending.value];
    } else {
      assert out + [] == out;
    }
  }

  // ---- flow collections ----

  /** Where an element being read begins, and where its key ends once a separating colon is seen. */
  datatype Element = Element(start: Option<nat>, colon: Option<nat>)

  const NOTHING := Element(None, None)

  datatype Scan = Scan(pairs: seq<(string, string)>, stack: seq<Element>, depth: nat, element: Element,
                       quote: Option<char>, mayOpen: bool)

  const SCAN_START := Scan([], [], 0, NOTHING, None, true)

  predicate FollowedBy(text: string, i: nat, what: set<char>) {
    i + 1 < |text| && text[i + 1] in what
  }

  /** An element of a collection: it begins after a bracket or a comma, and its key ends at a colon and a space. */
  ghost predicate Placed(text: string, i: nat, e: Element) {
    && e.start.Some? && 0 < e.start.value <= i && e.start.value <= |text|
    && text[e.start.value - 1] in {'{', '[', ','}
    && (e.colon.Some? ==> e.start.value <= e.colon.value < i && e.colon.value < |text|
                          && text[e.colon.value] == ':' && FollowedBy(text, e.colon.value, {' '}))
  }

  /** A pair the text really holds: between a bracket or comma and a bracket, comma or the end. */
  ghost predicate PairAt(text: string, pair: (string, string), b: nat, c: nat, e: nat) {
    && 0 < b <= c < e <= |text|
    && text[b - 1] in {'{', '[', ','} && text[c] == ':' && FollowedBy(text, c, {' '})
    && (e < |text| ==> text[e] in {',', '}', ']'})
    && pair == (text[b..c], text[c + 1..e])
  }

  ghost predicate RealPair(text: string, pair: (string, string)) {
    exists b, c, e :: PairAt(text, pair, b, c, e)
  }

  ghost predicate RealPairs(text: string, pairs: seq<(string, string)>) {
    forall k | 0 <= k < |pairs| :: RealPair(text, pairs[k])
  }

  /** The depth is the height of the stack, and there is an element to read just where something is open. */
  ghost predicate Sound(text: string, i: nat, s: Scan) {
    && s.depth == |s.stack|
    && (if s.depth == 0 then s.element == NOTHING else s.stack[0] == NOTHING && Placed(text, i, s.element))
    && (forall k | 0 < k < |s.stack| :: Placed(text, i, s.stack[k]))
    && RealPairs(text, s.pairs)
  }

  function PairTo(text: string, i: nat, e: Element, end: nat): seq<(string, string)>
    requires e == NOTHING || Placed(text, i, e)
    requires e.colon.Some? ==> e.colon.value < end <= |text|
  {
    if e.colon.None? then [] else [(text[e.start.value..e.colon.value], text[e.colon.value + 1..end])]
  }

  /** Whether a value may begin after the character at `i`, outside every collection. */
  predicate MayOpenAfter(text: string, i: nat, mayOpen: bool)
    requires i < |text|
  {
    if text[i] == ':' && (i + 1 == |text| || FollowedBy(text, i, {' ', '\t'})) then true
    else if text[i] == ' ' || text[i] == '\t' then mayOpen
    else if text[i] == '-' && mayOpen && FollowedBy(text, i, {' ', '\t'}) then mayOpen
    else false
  }

  /** The state after the character at `i`. */
  function ScanStep(text: string, i: nat, s: Scan): Scan
    requires i < |text| && Sound(text, i, s)
  {
    var c := text[i];
    if s.quote.Some? then
      if c == '\\' && s.quote.value == '"' then s
      else if c == s.quote.value then s.(quote := None)
      else s
    else if c == '"' || c == '\'' then s.(quote := Some(c), mayOpen := false)
    else if (c == '{' || c == '[') && (s.depth > 0 || s.mayOpen) then
      s.(stack := s.stack + [s.element], depth := s.depth + 1, element := Element(Some(i + 1), None))
    else if (c == '}' || c == ']') && s.depth > 0 then
      s.(pairs := s.pairs + PairTo(text, i, s.element, i), stack := s.stack[..s.depth - 1], depth := s.depth - 1,
         element := s.stack[s.depth - 1])
    else if c == ',' && s.depth > 0 then
      s.(pairs := s.pairs + PairTo(text, i, s.element, i), element := Element(Some(i + 1), None))
    else if c == ':' && s.depth > 0 && s.element.colon.None? && FollowedBy(text, i, {' '}) then
      s.(element := s.element.(colon := Some(i)))
    else if s.depth == 0 then s.(mayOpen := MayOpenAfter(text, i, s.mayOpen))
    else s
  }

  /** Where the scan goes on: an escape in a double-quoted scalar takes two characters. */
  function NextAt(text: string, i: nat, s: Scan): nat
    requires i < |text|
  {
    if s.quote == Some('"') && text[i] == '\\' then i + 2 else i + 1
  }

  lemma PlacedStays(text: string, i: nat, j: nat, e: Element)
    requires Placed(text, i, e) && i <= j
    ensures Placed(text, j, e)
  {
  }

  lemma PairToIsReal(text: string, i: nat, e: Element, end: nat)
    requires Placed(text, i, e) && (e.colon.Some? ==> e.colon.value < end <= |text|)
    requires end < |text| ==> text[end] in {',', '}', ']'}
    ensures RealPairs(text, PairTo(text, i, e, end))
  {
    if e.colon.Some? {
      assert PairAt(text, PairTo(text, i, e, end)[0], e.start.value, e.colon.value, end);
    }
  }

  lemma RealPairsJoin(text: string, a: seq<(string, string)>, b: seq<(string, string)>)
    requires RealPairs(text, a) && RealPairs(text, b)
    ensures RealPairs(text, a + b)
  {
  }

  lemma StepKeepsSound(text: string, i: nat, s: Scan)
    requires i < |text| && Sound(text, i, s)
    ensures Sound(text, NextAt(text, i, s), ScanStep(text, i, s))
  {
    hide RealPairs;
    var j, t := NextAt(text, i, s), ScanStep(text, i, s);
    if s.depth > 0 {
      PlacedStays(text, i, j, s.element);
      if text[i] in {',', '}', ']'} {
        PairToIsReal(text, i, s.element, i);
        RealPairsJoin(text, s.pairs, PairTo(text, i, s.element, i));
      }
    }
    forall k | 0 < k < |s.stack| ensures Placed(text, j, s.stack[k]) {
      PlacedStays(text, i, j, s.stack[k]);
    }
  }

  lemma SoundLater(text: string, i: nat, j: nat, s: Scan)
    requires Sound(text, i, s) && i <= j
    ensures Sound(text, j, s)
  {
  }

  function ScanFrom(text: string, i: nat, s: Scan): (r: Scan)
    requires Sound(text, i, s) && i <= |text| + 1
    ensures Sound(text, |text| + 1, r)
    decreases |text| - i
  {
    if i >= |text| then
      SoundLater(text, i, |text| + 1, s);
      s
    else
      StepKeepsSound(text, i, s);
      ScanFrom(text, NextAt(text, i, s), ScanStep(text, i, s))
  }

  lemma StartIsSound(text: string)
    ensures Sound(text, 0, SCAN_START)
  {
  }

  function WholeScan(text: string): (r: Scan)
    ensures Sound(text, |text| + 1, r)
  {
    StartIsSound(text);
    ScanFrom(text, 0, SCAN_START)
  }

  /** How many collections the text leaves open. */
  function FlowDepth(text: string): nat { WholeScan(text).depth }

  /** The pairs as written; one a collection left open was in the middle of comes last. */
  function RawPairs(text: string): seq<(string, string)> {
    var r := WholeScan(text);
    r.pairs + PairTo(text, |text| + 1, r.element, |text|)
  }

  predicate IsQuote(c: char) { c == '"' || c == '\'' }

  function KeysTrimmed(pairs: seq<(string, string)>): seq<(string, string)> {
    if pairs == [] then []
    else [(Trim(Strip(pairs[0].0), IsQuote), pairs[0].1)] + KeysTrimmed(pairs[1..])
  }

  /** What the scan slices is there. */
  lemma SoundElement(text: string, i: nat, s: Scan)
    requires Sound(text, i, s)
    ensures s.depth == |s.stack|
    ensures s.element == NOTHING || Placed(text, i, s.element)
    ensures s.element.colon.Some? ==> s.element.start.Some? && s.element.start.value <= s.element.colon.value < i
    ensures s.element.colon.Some? ==> s.element.colon.value < |text|
  {
  }

  lemma StepOn(text: string, i: nat, s: Scan)
    requires i < |text| && Sound(text, i, s) && Sound(text, NextAt(text, i, s), ScanStep(text, i, s))
    ensures ScanFrom(text, i, s) == ScanFrom(text, NextAt(text, i, s), ScanStep(text, i, s))
  {
  }

  lemma ScanEnds(text: string, i: nat, s: Scan)
    requires |text| <= i <= |text| + 1 && Sound(text, i, s)
    ensures ScanFrom(text, i, s) == s
  {
  }

  /** Adds the pair an element makes, if its key is complete. */
  method AddPair(text: string, i: nat, found: seq<(string, string)>, e: Element, end: nat)
    returns (all: seq<(string, string)>)
    requires e == NOTHING || Placed(text, i, e)
    requires e.colon.Some? ==> e.colon.value < end <= |text|
    ensures all == found + PairTo(text, i, e, end)
  {
    all := found;
    if e.colon.Some? {
      all := all + [(text[e.start.value..e.colon.value], text[e.colon.value + 1..end])];
    }
  }

  /** The scan as one loop; the depth it counts is always the height of its stack. */
  method FlowScan(text: string) returns (pairs: seq<(string, string)>, open: nat)
    ensures pairs == KeysTrimmed(RawPairs(text)) && open == FlowDepth(text)
  {
    hide Sound, Placed, RealPairs, ScanFrom, FollowedBy, PairTo, MayOpenAfter;
    StartIsSound(text);
    var found: seq<(string, string)> := [];
    var stack: seq<Element> := [];
    var depth: nat := 0;
    var quote: Option<char> := None;
    var start: Option<nat>, colon: Option<nat> := None, None;
    var mayOpen := true;
    var i: nat := 0;
    while i < |text|
      invariant depth == |stack|
      invariant Sound(text, i, Scan(found, stack, depth, Element(start, colon), quote, mayOpen))
      invariant i <= |text| + 1
      invariant ScanFrom(text, i, Scan(found, stack, depth, Element(start, colon), quote, mayOpen))
             == ScanFrom(text, 0, SCAN_START)
      decreases |text| - i
    {
      ghost var was := Scan(found, stack, depth, Element(start, colon), quote, mayOpen);
      StepKeepsSound(text, i, was);
      SoundElement(text, i, was);
      StepOn(text, i, was);
      ghost var at := i;
      var ch := text[i];
      if quote.Some? {
        if ch == '\\' && quote.value == '"' {
          i := i + 2;
        } else {
          if ch == quote.value {
            quote := None;
          }
          i := i + 1;
        }
      } else if ch == '"' || ch == '\'' {
        quote := Some(ch);
        mayOpen := false;
        i := i + 1;
      } else if (ch == '{' || ch == '[') && (depth > 0 || mayOpen) {
        stack := stack + [Element(start, colon)];
        depth := depth + 1;
        start, colon := Some(i + 1), None;
        i := i + 1;
      } else if (ch == '}' || ch == ']') && depth > 0 {
        found := AddPair(text, i, found, Element(start, colon), i);
        depth := depth - 1;
        start, colon := stack[|stack| - 1].start, stack[|stack| - 1].colon;
        stack := stack[..|stack| - 1];
        i := i + 1;
      } else if ch == ',' && depth > 0 {
        found := AddPair(text, i, found, Element(start, colon), i);
        start, colon := Some(i + 1), None;
        i := i + 1;
      } else if ch == ':' && depth > 0 && colon.None? && FollowedBy(text, i, {' '}) {
        colon := Some(i);
        i := i + 1;
      } else {
        if depth == 0 {
          mayOpen := MayOpenAfter(text, i, mayOpen);
        }
        i := i + 1;
      }
      assert Scan(found, stack, depth, Element(start, colon), quote, mayOpen) == ScanStep(text, at, was);
      assert i == NextAt(text, at, was);
    }
    ghost var end := Scan(found, stack, depth, Element(start, colon), quote, mayOpen);
    SoundLater(text, i, |text| + 1, end);
    SoundElement(text, |text| + 1, end);
    ScanEnds(text, i, end);
    found := AddPair(text, |text| + 1, found, Element(start, colon), |text|);
    pairs, open := KeysTrimmed(found), depth;
  }

  /** A line that leaves a collection open, without the spaces at its end. */
  function HeldByFlow(text: string): Option<string> {
    if FlowDepth(text) > 0 then Some(Rstrip(text)) else None
  }

  method FoldFlow(lines: seq<Line>) returns (out: seq<Line>)
    ensures out == Fold(lines, None, HeldByFlow)
  {
    out := [];
    var pending: Option<Line> := None;
    for i := 0 to |lines|
      invariant out + Fold(lines[i..], pending, HeldByFlow) == Fold(lines, None, HeldByFlow)
    {
      assert lines[i..][0] == lines[i] && lines[i..][1..] == lines[i + 1..];
      var number, text := lines[i].number, lines[i].text;
      ghost var was := pending;
      if pending.Some? {
        number, text := pending.value.number, pending.value.text + " " + Strip(text);
        pending := None;
      }
      assert Line(number, text) == Onto(was, lines[i]);
      var pairs, depth := FlowScan(text);
      if depth > 0 {
        pending := Some(Line(number, Rstrip(text)));
      } else {
        Associate(out, [Line(number, text)], Fold(lines[i + 1..], None, HeldByFlow));
        out := out + [Line(number, text)];
      }
    }
    assert lines[|lines|..] == [];
    if pending.Some? {
      out := out + [pending.value];
    } else {
      assert out + [] == out;
    }
  }

  // ---- block scalars ----

  /** What a block scalar's header says: its key in lower case, whether the body is literal, and the key's column. */
  datatype Header = Header(key: string, literal: bool, column: nat)

  /** The three patterns the folding consults. */
  datatype Patterns = Patterns(header: string -> Option<Header>, key: string -> bool, item: string -> bool)

  const SCRIPT_KEYS := {"run", "script", "cmd", "shell", "entrypoint", "args"}

  predicate IsScript(h: Header) { h.key in SCRIPT_KEYS && h.literal }

  /** How many lines a block body has: up to the first that is not blank and no deeper than its key. */
  function BodyLength(lines: seq<Line>, column: nat): (n: nat)
    ensures n <= |lines|
  {
    if lines == [] || (!Blank(lines[0].text) && Indent(lines[0].text) <= column) then 0
    else 1 + BodyLength(lines[1..], column)
  }

  /** The lines' texts stripped, without the blank ones, joined with spaces. */
  function Joined(lines: seq<Line>): string {
    if lines == [] then ""
    else
      var rest := Joined(lines[1..]);
      if Blank(lines[0].text) then rest
      else if rest == "" then Strip(lines[0].text)
      else Strip(lines[0].text) + " " + rest
  }

  function BodyFolded(line: Line, h: Header, body: seq<Line>): seq<Line> {
    if IsScript(h) then [line] + FoldSlashes(body)
    else [line.(text := Rstrip(Rstrip(line.text) + " " + Joined(body)))]
  }

  function Blocks(lines: seq<Line>, header: string -> Option<Header>): seq<Line>
    decreases |lines|
  {
    if lines == [] then []
    else if header(lines[0].text).None? then [lines[0]] + Blocks(lines[1..], header)
    else
      var h := header(lines[0].text).value;
      var n := BodyLength(lines[1..], h.column);
      BodyFolded(lines[0], h, lines[1..][..n]) + Blocks(lines[1..][n..], header)
  }

  /** The numbers of the lines that are shell, and so no value's continuation. */
  function ScriptLines(lines: seq<Line>, header: string -> Option<Header>): set<int>
    decreases |lines|
  {
    if lines == [] then {}
    else if header(lines[0].text).None? then ScriptLines(lines[1..], header)
    else
      var h := header(lines[0].text).value;
      var n := BodyLength(lines[1..], h.column);
      (if IsScript(h) then NumberSet(FoldSlashes(lines[1..][..n])) else {}) + ScriptLines(lines[1..][n..], header)
  }

  function NumberSet(lines: seq<Line>): set<int> { set l | l in lines :: l.number }

  lemma BodyLengthAt(lines: seq<Line>, column: nat, n: nat)
    requires n <= |lines|
    requires forall k | 0 <= k < n :: Blank(lines[k].text) || Indent(lines[k].text) > column
    requires n < |lines| ==> !Blank(lines[n].text) && Indent(lines[n].text) <= column
    ensures BodyLength(lines, column) == n
  {
    if n > 0 {
      BodyLengthAt(lines[1..], column, n - 1);
    }
  }

  method BlockBody(lines: seq<Line>, i: nat, column: nat) returns (body: seq<Line>, j: nat)
    requires i <= |lines|
    ensures i <= j <= |lines| && j - i == BodyLength(lines[i..], column)
    ensures body == lines[i..][..j - i] && lines[i..][j - i..] == lines[j..]
  {
    hide Blank, Indent;
    body, j := [], i;
    while j < |lines| && (Blank(lines[j].text) || Indent(lines[j].text) > column)
      invariant i <= j <= |lines|
      invariant body == lines[i..j]
      invariant forall k | i <= k < j :: Blank(lines[k].text) || Indent(lines[k].text) > column
    {
      body := body + [lines[j]];
      j := j + 1;
    }
    BodyIs(lines, i, j, column);
  }

  lemma BodyIs(lines: seq<Line>, i: nat, j: nat, column: nat)
    requires i <= j <= |lines|
    requires forall k | i <= k < j :: Blank(lines[k].text) || Indent(lines[k].text) > column
    requires j < |lines| ==> !Blank(lines[j].text) && Indent(lines[j].text) <= column
    ensures BodyLength(lines[i..], column) == j - i
    ensures lines[i..][..j - i] == lines[i..j] && lines[i..][j - i..] == lines[j..]
  {
    hide Blank, Indent;
    BodyLengthAt(lines[i..], column, j - i);
  }

  method FoldBlocks(lines: seq<Line>, header: string -> Option<Header>) returns (out: seq<Line>, script: set<int>)
    ensures out == Blocks(lines, header) && script == ScriptLines(lines, header)
  {
    hide BodyLength, IsScript, FoldSlashes, Joined, NumberSet, Rstrip;
    out, script := [], {};
    var i := 0;
    while i < |lines|
      invariant 0 <= i <= |lines|
      invariant out + Blocks(lines[i..], header) == Blocks(lines, header)
      invariant script + ScriptLines(lines[i..], header) == ScriptLines(lines, header)
    {
      var line := lines[i];
      assert lines[i..][0] == line && lines[i..][1..] == lines[i + 1..];
      var found := header(line.text);
      var next: seq<Line>, j := [line], i + 1;
      ghost var more := {};
      if found.Some? {
        var h, body := found.value, [];
        body, j := BlockBody(lines, i + 1, h.column);
        if IsScript(h) {
          var folded := FoldBackslashes(body);
          more := NumberSet(folded);
          script := script + NumberSet(folded);
          next := [line] + folded;
        } else {
          next := [line.(text := Rstrip(Rstrip(line.text) + " " + Joined(body)))];
        }
      }
      assert Blocks(lines[i..], header) == next + Blocks(lines[j..], header);
      assert ScriptLines(lines[i..], header) == more + ScriptLines(lines[j..], header);
      Associate(out, next, Blocks(lines[j..], header));
      out := out + next;
      i := j;
    }
    assert lines[i..] == [] && out + [] == out;
  }

  // ---- values below their keys ----

  /** Whether `line` continues the value of the line `last`. */
  predicate Continues(last: Option<Line>, line: Line, script: set<int>, p: Patterns) {
    && last.Some? && line.number !in script
    && Indent(line.text) > Indent(last.value.text)
    && !p.key(line.text) && !p.item(line.text)
  }

  function Continued(last: Line, line: Line): Line {
    last.(text := Rstrip(last.text) + " " + Strip(line.text))
  }

  /** Folds each continuation onto the last line kept, dropping blank lines. */
  function Continuations(lines: seq<Line>, last: Option<Line>, script: set<int>, p: Patterns): seq<Line>
    decreases |lines|
  {
    if lines == [] then AsLines(last)
    else if Blank(lines[0].text) then Continuations(lines[1..], last, script, p)
    else if Continues(last, lines[0], script, p) then
      Continuations(lines[1..], Some(Continued(last.value, lines[0])), script, p)
    else AsLines(last) + Continuations(lines[1..], Some(lines[0]), script, p)
  }

  /** What comes of the rest of the lines once `out` is what the lines before them came to. */
  function Onwards(out: seq<Line>, lines: seq<Line>, script: set<int>, p: Patterns): seq<Line> {
    if out == [] then Continuations(lines, None, script, p)
    else out[..|out| - 1] + Continuations(lines, Some(out[|out| - 1]), script, p)
  }

  lemma OnwardsContinued(out: seq<Line>, lines: seq<Line>, script: set<int>, p: Patterns)
    requires out != [] && lines != [] && !Blank(lines[0].text) && Continues(Some(out[|out| - 1]), lines[0], script, p)
    ensures Onwards(out[..|out| - 1] + [Continued(out[|out| - 1], lines[0])], lines[1..], script, p)
         == Onwards(out, lines, script, p)
  {
  }

  lemma OnwardsKept(out: seq<Line>, lines: seq<Line>, script: set<int>, p: Patterns)
    requires lines != [] && !Blank(lines[0].text)
    requires out == [] || !Continues(Some(out[|out| - 1]), lines[0], script, p)
    ensures Onwards(out + [lines[0]], lines[1..], script, p) == Onwards(out, lines, script, p)
  {
    hide Blank, Indent;
    var rest := Continuations(lines[1..], Some(lines[0]), script, p);
    assert Onwards(out + [lines[0]], lines[1..], script, p) == out + rest;
    if out == [] {
      assert AsLines(None) + rest == rest == out + rest;
    } else {
      Associate(out[..|out| - 1], [out[|out| - 1]], rest);
      assert out[..|out| - 1] + [out[|out| - 1]] == out;
    }
  }

  lemma OnwardsBlank(out: seq<Line>, lines: seq<Line>, script: set<int>, p: Patterns)
    requires lines != [] && Blank(lines[0].text)
    ensures Onwards(out, lines[1..], script, p) == Onwards(out, lines, script, p)
  {
  }

  lemma OnwardsNothing(out: seq<Line>, script: set<int>, p: Patterns)
    ensures Onwards(out, [], script, p) == out
  {
  }

  method FoldContinuations(lines: seq<Line>, script: set<int>, p: Patterns) returns (out: seq<Line>)
    ensures out == Continuations(lines, None, script, p)
  {
    assert Onwards([], lines, script, p) == Continuations(lines, None, script, p);
    hide Onwards, Blank, Continued;
    out := [];
    for i := 0 to |lines|
      invariant Onwards(out, lines[i..], script, p) == Continuations(lines, None, script, p)
    {
      var line := lines[i];
      assert lines[i..][0] == line && lines[i..][1..] == lines[i + 1..];
      if !Blank(line.text) {
        if out != [] && Continues(Some(out[|out| - 1]), line, script, p) {
          OnwardsContinued(out, lines[i..], script, p);
          out := out[..|out| - 1] + [Continued(out[|out| - 1], line)];
        } else {
          OnwardsKept(out, lines[i..], script, p);
          out := out + [line];
        }
      } else {
        OnwardsBlank(out, lines[i..], script, p);
      }
    }
    assert lines[|lines|..] == [];
    OnwardsNothing(out, script, p);
  }

  // ---- all four ----

  function Logical(lines: seq<Line>, yaml: bool, p: Patterns): seq<Line> {
    if !yaml then FoldSlashes(lines)
    else
      Fold(Continuations(FoldSlashes(Blocks(lines, p.header)), None, ScriptLines(lines, p.header), p), None, HeldByFlow)
  }

  method LogicalLines(lines: seq<Line>, yaml: bool, p: Patterns) returns (out: seq<Line>)
    ensures out == Logical(lines, yaml, p)
  {
    if !yaml {
      out := FoldBackslashes(lines);
      return;
    }
    var script: set<int>;
    out, script := FoldBlocks(lines, p.header);
    out := FoldBackslashes(out);
    out := FoldContinuations(out, script, p);
    out := FoldFlow(out);
  }
}
