/** Flow collections as trees, and that the scan of one written on a line finds exactly its pairs. */
module FlowTrees {
  import opened Common
  import opened Text
  import opened LogicalLines
  import opened LogicalLinesRules

  // ---- trees, and how they are written ----

  /** A character of plain text, or a quoted stretch of units: a character, or in double quotes a backslash and one. */
  datatype Piece = Mark(c: char) | Quoted(q: char, units: seq<string>)

  datatype Flow = Scalar(pieces: seq<Piece>) | Collection(open: char, items: seq<Item>, close: char)

  datatype Item = Item(key: Option<seq<Piece>>, value: Flow)

  predicate IsUnit(unit: string, q: char) {
    || (|unit| == 1 && unit[0] != q && (q == '"' ==> unit[0] != '\\'))
    || (|unit| == 2 && q == '"' && unit[0] == '\\')
  }

  /** A quoted stretch, or a character that neither quotes, opens, closes nor parts. */
  predicate IsPiece(p: Piece) {
    match p
    case Mark(c) => c !in {'"', '\'', '{', '[', '}', ']', ','}
    case Quoted(q, units) => q in {'"', '\''} && forall i | 0 <= i < |units| :: IsUnit(units[i], q)
  }

  /** Text within a collection that holds no key's colon: one that a space follows. */
  predicate IsScalar(pieces: seq<Piece>) {
    && (forall i | 0 <= i < |pieces| :: IsPiece(pieces[i]))
    && (forall i | 0 <= i < |pieces| - 1 :: pieces[i] == Mark(':') ==> pieces[i + 1] != Mark(' '))
  }

  predicate IsFlow(f: Flow)
    decreases f
  {
    match f
    case Scalar(pieces) => IsScalar(pieces)
    case Collection(open, items, close) =>
      open in {'{', '['} && close in {'}', ']'} && forall i | 0 <= i < |items| :: IsItem(items[i])
  }

  predicate IsItem(item: Item)
    decreases item
  {
    (item.key.Some? ==> IsScalar(item.key.value)) && IsFlow(item.value)
  }

  function UnitsText(units: seq<string>): string {
    if units == [] then "" else units[0] + UnitsText(units[1..])
  }

  function PieceText(p: Piece): string {
    match p
    case Mark(c) => [c]
    case Quoted(q, units) => [q] + UnitsText(units) + [q]
  }

  function PiecesText(pieces: seq<Piece>): string {
    if pieces == [] then "" else PieceText(pieces[0]) + PiecesText(pieces[1..])
  }

  function FlowText(f: Flow): string
    decreases f
  {
    match f
    case Scalar(pieces) => PiecesText(pieces)
    case Collection(open, items, close) => [open] + ItemsText(items) + [close]
  }

  function KeyText(item: Item): string {
    if item.key.Some? then PiecesText(item.key.value) + ": " else ""
  }

  function ItemText(item: Item): string
    decreases item
  {
    KeyText(item) + FlowText(item.value)
  }

  function ItemsText(items: seq<Item>): string
    decreases items
  {
    if items == [] then ""
    else if |items| == 1 then ItemText(items[0])
    else ItemText(items[0]) + "," + ItemsText(items[1..])
  }

  /** The pair an item makes, if it has a key: the key's text, and the value's with the space before it. */
  function OwnPair(item: Item): seq<(string, string)> {
    if item.key.Some? then [(PiecesText(item.key.value), " " + FlowText(item.value))] else []
  }

  /** Every pair of a tree, those within a value before the value's own. */
  function Pairs(f: Flow): seq<(string, string)>
    decreases f
  {
    match f
    case Scalar(_) => []
    case Collection(_, items, _) => ItemsPairs(items)
  }

  function ItemsPairs(items: seq<Item>): seq<(string, string)>
    decreases items
  {
    if items == [] then [] else ItemPairs(items[0]) + ItemsPairs(items[1..])
  }

  function ItemPairs(item: Item): seq<(string, string)>
    decreases item
  {
    Pairs(item.value) + OwnPair(item)
  }

  // ---- scanning from one place to another ----

  /** The scan goes from `i` in state `s` to `j` in state `t`. */
  ghost predicate Scans(text: string, i: nat, s: Scan, j: nat, t: Scan) {
    && i <= j <= |text| && Sound(text, i, s) && Sound(text, j, t)
    && ScanFrom(text, i, s) == ScanFrom(text, j, t)
  }

  lemma ScansOn(text: string, i: nat, s: Scan, j: nat, t: Scan, k: nat, u: Scan)
    requires Scans(text, i, s, j, t) && Scans(text, j, t, k, u)
    ensures Scans(text, i, s, k, u)
  {
    hide Sound, ScanFrom;
  }

  lemma ScansStep(text: string, i: nat, s: Scan)
    requires i < |text| && Sound(text, i, s) && NextAt(text, i, s) <= |text|
    ensures Scans(text, i, s, NextAt(text, i, s), ScanStep(text, i, s))
  {
    StepKeepsSound(text, i, s);
    hide Sound, ScanStep;
    StepOn(text, i, s);
  }

  lemma ScansIsSound(text: string, i: nat, s: Scan, j: nat, t: Scan)
    requires Scans(text, i, s, j, t)
    ensures i <= j <= |text| && Sound(text, i, s) && Sound(text, j, t)
  {
  }

  lemma ScansNothing(text: string, i: nat, s: Scan)
    requires i <= |text| && Sound(text, i, s)
    ensures Scans(text, i, s, i, s)
  {
  }

  /** `t` stands at `i`. */
  predicate Stands(text: string, i: nat, t: string) {
    i + |t| <= |text| && text[i..i + |t|] == t
  }

  lemma StandsWithin(text: string, i: nat, t: string)
    requires Stands(text, i, t)
    ensures i + |t| <= |text|
  {
  }

  lemma StandsParts(text: string, i: nat, a: string, b: string)
    requires Stands(text, i, a + b)
    ensures Stands(text, i, a) && Stands(text, i + |a|, b)
  {
    var t := a + b;
    assert text[i..i + |t|][..|a|] == a && text[i..i + |t|][|a|..] == b;
  }

  lemma StandsAt(text: string, i: nat, c: char)
    requires Stands(text, i, [c])
    ensures i < |text| && text[i] == c
  {
    assert text[i..i + 1][0] == text[i];
  }

  /** Within a collection, and not within quotes. */
  predicate Within(s: Scan) { s.depth > 0 && s.quote.None? }

  // ---- text that means nothing to the scan ----

  lemma ScanMark(text: string, i: nat, s: Scan, c: char)
    requires Stands(text, i, [c]) && Sound(text, i, s) && Within(s) && IsPiece(Mark(c))
    requires c == ':' && i + 1 < |text| ==> text[i + 1] != ' '
    ensures Scans(text, i, s, i + 1, s)
  {
    StandsAt(text, i, c);
    ScansStep(text, i, s);
    hide Sound, Scans;
  }

  lemma {:induction false} ScanUnits(text: string, i: nat, s: Scan, q: char, units: seq<string>)
    requires Stands(text, i, UnitsText(units)) && Sound(text, i, s) && s.quote == Some(q)
    requires q in {'"', '\''} && forall k | 0 <= k < |units| :: IsUnit(units[k], q)
    ensures Scans(text, i, s, i + |UnitsText(units)|, s)
    decreases |units|
  {
    hide Sound, Scans;
    if units == [] {
      ScansNothing(text, i, s);
    } else {
      var unit, rest := units[0], units[1..];
      StandsParts(text, i, unit, UnitsText(rest));
      assert text[i..i + |unit|][0] == text[i] == unit[0];
      ScansStep(text, i, s);
      ScansIsSound(text, i, s, i + |unit|, s);
      ScanUnits(text, i + |unit|, s, q, rest);
      ScansOn(text, i, s, i + |unit|, s, i + |UnitsText(units)|, s);
    }
  }

  /** A quote outside quotes opens them, and the same quote closes them. */
  lemma ScanQuote(text: string, i: nat, s: Scan, q: char)
    requires Stands(text, i, [q]) && Sound(text, i, s) && q in {'"', '\''}
    ensures s.quote.None? ==> Scans(text, i, s, i + 1, s.(quote := Some(q), mayOpen := false))
    ensures s.quote == Some(q) ==> Scans(text, i, s, i + 1, s.(quote := None))
  {
    StandsAt(text, i, q);
    ScansStep(text, i, s);
    hide Sound, Scans;
  }

  lemma QuotedText(p: Piece)
    requires p.Quoted?
    ensures PieceText(p) == [p.q] + (UnitsText(p.units) + [p.q])
  {
    Associate([p.q], UnitsText(p.units), [p.q]);
  }

  lemma ScanQuoted(text: string, i: nat, s: Scan, p: Piece)
    requires p.Quoted? && Stands(text, i, PieceText(p)) && Sound(text, i, s) && Within(s) && IsPiece(p)
    ensures Scans(text, i, s, i + |PieceText(p)|, s.(mayOpen := false))
  {
    hide Sound, Scans, ScanFrom, UnitsText, PieceText, Stands, IsUnit;
    var q, body := p.q, UnitsText(p.units);
    QuotedText(p);
    StandsParts(text, i, [q], body + [q]);
    StandsParts(text, i + 1, body, [q]);
    var quoted, after := s.(quote := Some(q), mayOpen := false), s.(mayOpen := false);
    var j := i + 1 + |body|;
    ScanQuote(text, i, s, q);
    ScansIsSound(text, i, s, i + 1, quoted);
    ScanUnits(text, i + 1, quoted, q, p.units);
    ScansOn(text, i, s, i + 1, quoted, j, quoted);
    ScansIsSound(text, i, s, j, quoted);
    ScanQuote(text, j, quoted, q);
    assert quoted.(quote := None) == after;
    ScansOn(text, i, s, j, quoted, j + 1, after);
  }

  lemma NoSpaceFirst(text: string, j: nat, pieces: seq<Piece>)
    requires Stands(text, j, PiecesText(pieces)) && pieces != [] && IsPiece(pieces[0]) && pieces[0] != Mark(' ')
    ensures j < |text| && text[j] != ' '
  {
    var t := PiecesText(pieces);
    assert t != "" && t[0] != ' ';
    assert text[j..j + |t|][0] == text[j];
  }

  lemma ScalarRest(pieces: seq<Piece>)
    requires IsScalar(pieces) && pieces != []
    ensures IsPiece(pieces[0]) && IsScalar(pieces[1..])
    ensures pieces[0] == Mark(':') && pieces[1..] != [] ==> pieces[1..][0] != Mark(' ') && IsPiece(pieces[1..][0])
  {
    hide IsPiece;
  }

  lemma PiecesFirst(pieces: seq<Piece>)
    requires pieces != []
    ensures PiecesText(pieces) == PieceText(pieces[0]) + PiecesText(pieces[1..])
  {
  }

  lemma ScanPiece(text: string, i: nat, s: Scan, p: Piece) returns (m: bool)
    requires Stands(text, i, PieceText(p)) && Sound(text, i, s) && Within(s) && IsPiece(p)
    requires p == Mark(':') && i + 1 < |text| ==> text[i + 1] != ' '
    ensures Scans(text, i, s, i + |PieceText(p)|, s.(mayOpen := m))
  {
    hide Sound, Scans;
    m := s.mayOpen && p.Mark?;
    if p.Mark? {
      ScanMark(text, i, s, p.c);
    } else {
      ScanQuoted(text, i, s, p);
    }
  }

  /** Scalar text leaves the scan as it was, but for whether a value may begin outside every collection. */
  lemma {:induction false} ScanPieces(text: string, i: nat, s: Scan, pieces: seq<Piece>) returns (m: bool)
    requires Stands(text, i, PiecesText(pieces)) && Sound(text, i, s) && Within(s) && IsScalar(pieces)
    requires i + |PiecesText(pieces)| < |text| ==> text[i + |PiecesText(pieces)|] != ' '
    ensures Scans(text, i, s, i + |PiecesText(pieces)|, s.(mayOpen := m))
    decreases |pieces|
  {
    hide Sound, Scans, ScanFrom, IsPiece, IsScalar, PiecesText, PieceText, Stands;
    m := s.mayOpen;
    NothingIsText(pieces);
    StandsWithin(text, i, PiecesText(pieces));
    if pieces == [] {
      ScansNothing(text, i, s);
    } else {
      var p, rest := pieces[0], pieces[1..];
      ScalarRest(pieces);
      PiecesFirst(pieces);
      StandsParts(text, i, PieceText(p), PiecesText(rest));
      var j := i + |PieceText(p)|;
      if rest != [] && p == Mark(':') {
        NoSpaceFirst(text, j, rest);
      }
      OneMark(p);
      NothingIsText(rest);
      m := ScanPiece(text, i, s, p);
      var t, end := s.(mayOpen := m), i + |PiecesText(pieces)|;
      ScansIsSound(text, i, s, j, t);
      m := ScanPieces(text, j, t, rest);
      assert t.(mayOpen := m) == s.(mayOpen := m);
      ScansOn(text, i, s, j, t, end, s.(mayOpen := m));
    }
  }

  lemma OneMark(p: Piece)
    ensures p.Mark? ==> |PieceText(p)| == 1
  {
  }

  lemma NothingIsText(pieces: seq<Piece>)
    ensures pieces == [] ==> PiecesText(pieces) == ""
  {
  }

  // ---- keys, values and items ----

  /** After an item's key and its colon and space. */
  lemma ScanKey(text: string, i: nat, s: Scan, item: Item) returns (m: bool)
    requires Stands(text, i, KeyText(item)) && Sound(text, i, s) && Within(s) && s.element == Element(Some(i), None)
    requires item.key.Some? ==> IsScalar(item.key.value)
    ensures var colon := if item.key.Some? then Some(i + |PiecesText(item.key.value)|) else None;
            Scans(text, i, s, i + |KeyText(item)|, s.(element := Element(Some(i), colon), mayOpen := m))
  {
    hide Sound, Scans, IsScalar, PiecesText;
    m := s.mayOpen;
    if item.key.None? {
      ScansNothing(text, i, s);
    } else {
      var key := PiecesText(item.key.value);
      var j := i + |key|;
      assert KeyText(item) == key + ([':'] + [' ']);
      StandsParts(text, i, key, [':'] + [' ']);
      StandsParts(text, j, [':'], [' ']);
      StandsAt(text, j, ':');
      StandsAt(text, j + 1, ' ');
      m := ScanPieces(text, i, s, item.key.value);
      var atColon := s.(mayOpen := m);
      var keyed := s.(element := Element(Some(i), Some(j)), mayOpen := m);
      ScansIsSound(text, i, s, j, atColon);
      ScansStep(text, j, atColon);
      ScansOn(text, i, s, j, atColon, j + 1, keyed);
      ScansIsSound(text, i, s, j + 1, keyed);
      ScansStep(text, j + 1, keyed);
      ScansOn(text, i, s, j + 1, keyed, j + 2, keyed);
    }
  }

  /** What an element makes where it ends: the pair of its key and value, if its key is complete. */
  ghost predicate Makes(text: string, e: Element, end: nat, pairs: seq<(string, string)>) {
    if e.colon.None? then pairs == []
    else
      && e.start.Some? && e.start.value <= e.colon.value < end <= |text|
      && pairs == [(text[e.start.value..e.colon.value], text[e.colon.value + 1..end])]
  }

  lemma ItemMakes(text: string, i: nat, item: Item, e: Element)
    requires Stands(text, i, ItemText(item))
    requires e == Element(Some(i), if item.key.Some? then Some(i + |PiecesText(item.key.value)|) else None)
    ensures Makes(text, e, i + |ItemText(item)|, OwnPair(item))
  {
    hide PiecesText, FlowText;
    if item.key.Some? {
      var key, value := PiecesText(item.key.value), " " + FlowText(item.value);
      assert ItemText(item) == key + (":" + value);
      StandsParts(text, i, key, ":" + value);
      StandsParts(text, i + |key|, ":", value);
    }
  }

  /** Pairs but the last item's own, which is made where the list ends. */
  function InnerPairs(items: seq<Item>): seq<(string, string)> {
    if items == [] then []
    else if |items| == 1 then Pairs(items[0].value)
    else Pairs(items[0].value) + OwnPair(items[0]) + InnerPairs(items[1..])
  }

  function LastPair(items: seq<Item>): seq<(string, string)> {
    if items == [] then [] else OwnPair(items[|items| - 1])
  }

  lemma {:induction false} InnerThenLast(items: seq<Item>)
    ensures InnerPairs(items) + LastPair(items) == ItemsPairs(items)
  {
    hide Pairs, OwnPair;
    if |items| == 1 {
      assert items[1..] == [] && ItemsPairs([]) == [];
    } else if |items| > 1 {
      InnerThenLast(items[1..]);
      assert LastPair(items[1..]) == LastPair(items);
      Associate(Pairs(items[0].value) + OwnPair(items[0]), InnerPairs(items[1..]), LastPair(items));
    }
  }

  lemma ScanItem(text: string, i: nat, s: Scan, item: Item) returns (m: bool, e: Element)
    requires Stands(text, i, ItemText(item)) && Sound(text, i, s) && Within(s) && s.element == Element(Some(i), None)
    requires IsItem(item) && (i + |ItemText(item)| < |text| ==> text[i + |ItemText(item)|] != ' ')
    ensures Scans(text, i, s, i + |ItemText(item)|, s.(pairs := s.pairs + Pairs(item.value), element := e, mayOpen := m))
    ensures e.start.Some? && Makes(text, e, i + |ItemText(item)|, OwnPair(item))
    decreases item, 2
  {
    hide Sound, Scans, PiecesText, FlowText, Makes, Pairs, OwnPair, IsScalar;
    StandsParts(text, i, KeyText(item), FlowText(item.value));
    m := ScanKey(text, i, s, item);
    e := Element(Some(i), if item.key.Some? then Some(i + |PiecesText(item.key.value)|) else None);
    ItemMakes(text, i, item, e);
    var j, keyed := i + |KeyText(item)|, s.(element := e, mayOpen := m);
    ScansIsSound(text, i, s, j, keyed);
    m := ScanFlow(text, j, keyed, item.value);
    ScansOn(text, i, s, j, keyed, i + |ItemText(item)|, s.(pairs := s.pairs + Pairs(item.value), element := e, mayOpen := m));
  }

  lemma ScanItems(text: string, i: nat, s: Scan, items: seq<Item>) returns (m: bool, e: Element)
    requires Stands(text, i, ItemsText(items)) && Sound(text, i, s) && Within(s) && s.element == Element(Some(i), None)
    requires forall k | 0 <= k < |items| :: IsItem(items[k])
    requires i + |ItemsText(items)| < |text| ==> text[i + |ItemsText(items)|] != ' '
    ensures Scans(text, i, s, i + |ItemsText(items)|, s.(pairs := s.pairs + InnerPairs(items), element := e, mayOpen := m))
    ensures e.start.Some? && Makes(text, e, i + |ItemsText(items)|, LastPair(items))
    decreases items, 3
  {
    hide Sound, Scans, ItemText, Pairs, OwnPair, IsItem;
    m, e := s.mayOpen, s.element;
    if items == [] {
      ScansNothing(text, i, s);
      assert s.pairs + [] == s.pairs;
    } else if |items| == 1 {
      m, e := ScanItem(text, i, s, items[0]);
    } else {
      m, e := ScanItemsOn(text, i, s, items);
    }
  }

  lemma ItemsFirst(items: seq<Item>)
    requires |items| > 1
    ensures ItemsText(items) == ItemText(items[0]) + ([','] + ItemsText(items[1..]))
    ensures InnerPairs(items) == Pairs(items[0].value) + OwnPair(items[0]) + InnerPairs(items[1..])
    ensures LastPair(items) == LastPair(items[1..])
  {
    hide ItemText, Pairs, OwnPair;
    Associate(ItemText(items[0]), ",", ItemsText(items[1..]));
  }

  /** After an item and the comma that ends it. */
  lemma ScanItemAndComma(text: string, i: nat, s: Scan, item: Item) returns (m: bool)
    requires Stands(text, i, ItemText(item)) && Sound(text, i, s) && Within(s) && s.element == Element(Some(i), None)
    requires IsItem(item) && i + |ItemText(item)| < |text| && text[i + |ItemText(item)|] == ','
    ensures var j := i + |ItemText(item)|;
            Scans(text, i, s, j + 1,
                  s.(pairs := s.pairs + (Pairs(item.value) + OwnPair(item)), element := Element(Some(j + 1), None), mayOpen := m))
    decreases item, 3
  {
    hide Sound, Scans, ItemText, Pairs, OwnPair, IsItem, Makes, Stands;
    var j := i + |ItemText(item)|;
    var e;
    m, e := ScanItem(text, i, s, item);
    var ended := s.(pairs := s.pairs + Pairs(item.value), element := e, mayOpen := m);
    ScansIsSound(text, i, s, j, ended);
    ScanComma(text, j, ended, OwnPair(item));
    var parted := ended.(pairs := ended.pairs + OwnPair(item), element := Element(Some(j + 1), None));
    ScansOn(text, i, s, j, ended, j + 1, parted);
    Associate(s.pairs, Pairs(item.value), OwnPair(item));
  }

  lemma ScanItemsOn(text: string, i: nat, s: Scan, items: seq<Item>) returns (m: bool, e: Element)
    requires Stands(text, i, ItemsText(items)) && Sound(text, i, s) && Within(s) && s.element == Element(Some(i), None)
    requires |items| > 1 && forall k | 0 <= k < |items| :: IsItem(items[k])
    requires i + |ItemsText(items)| < |text| ==> text[i + |ItemsText(items)|] != ' '
    ensures Scans(text, i, s, i + |ItemsText(items)|, s.(pairs := s.pairs + InnerPairs(items), element := e, mayOpen := m))
    ensures e.start.Some? && Makes(text, e, i + |ItemsText(items)|, LastPair(items))
    decreases items, 2
  {
    hide Sound, Scans, ItemText, ItemsText, InnerPairs, LastPair, Pairs, OwnPair, IsItem, Makes, Stands;
    var j := i + |ItemText(items[0])|;
    ItemsFirst(items);
    StandsParts(text, i, ItemText(items[0]), [','] + ItemsText(items[1..]));
    StandsParts(text, j, [','], ItemsText(items[1..]));
    StandsAt(text, j, ',');
    m := ScanItemAndComma(text, i, s, items[0]);
    var own := Pairs(items[0].value) + OwnPair(items[0]);
    var parted := s.(pairs := s.pairs + own, element := Element(Some(j + 1), None), mayOpen := m);
    ScansIsSound(text, i, s, j + 1, parted);
    m, e := ScanItems(text, j + 1, parted, items[1..]);
    Associate(s.pairs, own, InnerPairs(items[1..]));
    ScansOn(text, i, s, j + 1, parted, i + |ItemsText(items)|, s.(pairs := s.pairs + InnerPairs(items), element := e, mayOpen := m));
  }

  lemma ScanComma(text: string, j: nat, s: Scan, pair: seq<(string, string)>)
    requires j < |text| && text[j] == ',' && Sound(text, j, s) && Within(s) && Makes(text, s.element, j, pair)
    ensures Scans(text, j, s, j + 1, s.(pairs := s.pairs + pair, element := Element(Some(j + 1), None)))
  {
    ScansStep(text, j, s);
    hide Scans;
  }

  lemma ScanClose(text: string, j: nat, s: Scan, pair: seq<(string, string)>)
    requires j < |text| && text[j] in {'}', ']'} && Sound(text, j, s) && Within(s) && Makes(text, s.element, j, pair)
    ensures s.depth == |s.stack|
    ensures Scans(text, j, s, j + 1,
                  s.(pairs := s.pairs + pair, stack := s.stack[..s.depth - 1], depth := s.depth - 1,
                     element := s.stack[s.depth - 1]))
  {
    ScansStep(text, j, s);
    hide Scans;
  }

  /** A value is passed over, and its pairs are found: within a collection any, and where a value may begin a collection. */
  lemma ScanFlow(text: string, i: nat, s: Scan, f: Flow) returns (m: bool)
    requires Stands(text, i, FlowText(f)) && Sound(text, i, s) && s.quote.None? && (s.depth > 0 || (f.Collection? && s.mayOpen))
    requires IsFlow(f) && (f.Scalar? && i + |FlowText(f)| < |text| ==> text[i + |FlowText(f)|] != ' ')
    ensures Scans(text, i, s, i + |FlowText(f)|, s.(pairs := s.pairs + Pairs(f), mayOpen := m))
    decreases f, 1
  {
    hide Sound, Scans, ItemsPairs, ItemsText, PiecesText, IsItem;
    m := s.mayOpen;
    match f
    case Scalar(pieces) =>
      m := ScanPieces(text, i, s, pieces);
      assert s.pairs + [] == s.pairs;
    case Collection(open, items, close) =>
      m := ScanCollection(text, i, s, open, items, close);
  }

  lemma ScanCollection(text: string, i: nat, s: Scan, open: char, items: seq<Item>, close: char) returns (m: bool)
    requires Stands(text, i, [open] + ItemsText(items) + [close]) && Sound(text, i, s)
    requires s.quote.None? && (s.depth > 0 || s.mayOpen)
    requires open in {'{', '['} && close in {'}', ']'} && forall k | 0 <= k < |items| :: IsItem(items[k])
    ensures Scans(text, i, s, i + |ItemsText(items)| + 2, s.(pairs := s.pairs + ItemsPairs(items), mayOpen := m))
    decreases items, 4
  {
    hide Sound, Scans, ItemsPairs, ItemsText, IsItem, Makes, InnerPairs, LastPair;
    var inner := ItemsText(items);
    var j := i + 1 + |inner|;
    Associate([open], inner, [close]);
    StandsParts(text, i, [open], inner + [close]);
    StandsParts(text, i + 1, inner, [close]);
    StandsAt(text, j, close);
    var inside := Opened(s, i);
    ScanOpen(text, i, s, open);
    ScansIsSound(text, i, s, i + 1, inside);
    var e;
    m, e := ScanItems(text, i + 1, inside, items);
    var full := inside.(pairs := s.pairs + InnerPairs(items), element := e, mayOpen := m);
    ScansOn(text, i, s, i + 1, inside, j, full);
    ScansIsSound(text, i, s, j, full);
    ScanClose(text, j, full, LastPair(items));
    InnerThenLast(items);
    Associate(s.pairs, InnerPairs(items), LastPair(items));
    Reclosed(s, i);
    ScansOn(text, i, s, j, full, j + 1, s.(pairs := s.pairs + ItemsPairs(items), mayOpen := m));
  }

  function Opened(s: Scan, i: nat): Scan {
    s.(stack := s.stack + [s.element], depth := s.depth + 1, element := Element(Some(i + 1), None))
  }

  lemma Reclosed(s: Scan, i: nat)
    ensures |Opened(s, i).stack| == |s.stack| + 1
    ensures Opened(s, i).stack[..|s.stack|] == s.stack && Opened(s, i).stack[|s.stack|] == s.element
  {
  }

  lemma ScanOpen(text: string, i: nat, s: Scan, open: char)
    requires Stands(text, i, [open]) && open in {'{', '['} && Sound(text, i, s) && s.quote.None? && (s.depth > 0 || s.mayOpen)
    ensures s.depth == |s.stack| && Scans(text, i, s, i + 1, Opened(s, i))
  {
    StandsAt(text, i, open);
    ScansStep(text, i, s);
    hide Scans;
  }

  // ---- lines ----

  /** Text outside every collection: it quotes, opens and closes nothing. */
  predicate IsOutside(t: string) {
    forall i | 0 <= i < |t| :: t[i] !in {'"', '\'', '{', '[', '}', ']'}
  }

  /** The state outside every collection. */
  function Outside(pairs: seq<(string, string)>, m: bool): Scan {
    Scan(pairs, [], 0, NOTHING, None, m)
  }

  lemma {:induction false} ScanOutside(text: string, i: nat, pairs: seq<(string, string)>, m: bool, t: string) returns (m': bool)
    requires Stands(text, i, t) && IsOutside(t) && Sound(text, i, Outside(pairs, m))
    ensures Scans(text, i, Outside(pairs, m), i + |t|, Outside(pairs, m'))
    decreases |t|
  {
    hide Sound, Scans;
    m' := m;
    if t == "" {
      ScansNothing(text, i, Outside(pairs, m));
    } else {
      var c, rest := t[0], t[1..];
      assert t == [c] + rest;
      StandsParts(text, i, [c], rest);
      StandsAt(text, i, c);
      var next := MayOpenAfter(text, i, m);
      ScansStep(text, i, Outside(pairs, m));
      ScansIsSound(text, i, Outside(pairs, m), i + 1, Outside(pairs, next));
      m' := ScanOutside(text, i + 1, pairs, next, rest);
      ScansOn(text, i, Outside(pairs, m), i + 1, Outside(pairs, next), i + |t|, Outside(pairs, m'));
    }
  }

  /** What a value stands after: spaces and the dashes of items, each with a space, or a key outside every collection with
      its colon and space. */
  predicate IsLead(t: string) {
    IsItemLead(t) || (|t| >= 2 && t[|t| - 2..] == ": " && IsOutside(t[..|t| - 2]))
  }

  predicate IsItemLead(t: string) {
    || t == "" || (t[0] in {' ', '\t'} && IsItemLead(t[1..]))
    || (|t| >= 2 && t[0] == '-' && t[1] in {' ', '\t'} && IsItemLead(t[1..]))
  }

  lemma {:induction false} ScanItemLead(text: string, i: nat, t: string)
    requires Stands(text, i, t) && IsItemLead(t) && Sound(text, i, Outside([], true))
    ensures Scans(text, i, Outside([], true), i + |t|, Outside([], true))
    decreases |t|
  {
    hide Sound, Scans;
    if t == "" {
      ScansNothing(text, i, Outside([], true));
    } else {
      var c, rest := t[0], t[1..];
      assert t == [c] + rest;
      StandsParts(text, i, [c], rest);
      StandsAt(text, i, c);
      assert c == '-' ==> text[i + 1..i + 1 + |rest|][0] == text[i + 1];
      ScansStep(text, i, Outside([], true));
      ScansIsSound(text, i, Outside([], true), i + 1, Outside([], true));
      ScanItemLead(text, i + 1, rest);
      ScansOn(text, i, Outside([], true), i + 1, Outside([], true), i + |t|, Outside([], true));
    }
  }

  lemma ScanLead(text: string, lead: string)
    requires IsLead(lead) && Stands(text, 0, lead)
    ensures Scans(text, 0, SCAN_START, |lead|, Outside([], true))
  {
    StartIsSound(text);
    hide Sound, Scans;
    if IsItemLead(lead) {
      ScanItemLead(text, 0, lead);
    } else {
      var n := |lead| - 2;
      assert lead == lead[..n] + ([':'] + [' ']);
      StandsParts(text, 0, lead[..n], [':'] + [' ']);
      StandsParts(text, n, [':'], [' ']);
      StandsAt(text, n, ':');
      StandsAt(text, n + 1, ' ');
      var m := ScanOutside(text, 0, [], true, lead[..n]);
      ScansIsSound(text, 0, SCAN_START, n, Outside([], m));
      ScansStep(text, n, Outside([], m));
      ScansOn(text, 0, SCAN_START, n, Outside([], m), n + 1, Outside([], true));
      ScansIsSound(text, 0, SCAN_START, n + 1, Outside([], true));
      ScansStep(text, n + 1, Outside([], true));
      ScansOn(text, 0, SCAN_START, n + 1, Outside([], true), n + 2, Outside([], true));
    }
  }

  lemma ScanEndsAt(text: string, t: Scan, pair: seq<(string, string)>)
    requires Scans(text, 0, SCAN_START, |text|, t) && Makes(text, t.element, |text|, pair)
    ensures FlowDepth(text) == t.depth && RawPairs(text) == t.pairs + pair
  {
    SoundLater(text, |text|, |text| + 1, t);
    hide Sound;
    ScanEnds(text, |text|, t);
    assert WholeScan(text) == t;
    hide ScanFrom, WholeScan;
  }

  /** A collection where a value may begin is closed, and its pairs are found, all of them and in order. */
  lemma FlowIsRead(lead: string, open: char, items: seq<Item>, close: char, tail: string)
    requires IsLead(lead) && IsFlow(Collection(open, items, close)) && IsOutside(tail)
    ensures var text := lead + FlowText(Collection(open, items, close)) + tail;
            FlowDepth(text) == 0 && RawPairs(text) == ItemsPairs(items)
  {
    hide Sound, Scans, ItemsPairs, ItemsText, IsOutside, IsLead, IsItem;
    var flow := [open] + ItemsText(items) + [close];
    var text := lead + flow + tail;
    var i := |lead|;
    var j := i + |flow|;
    Associate(lead, flow, tail);
    WholeStands(text);
    StandsParts(text, 0, lead, flow + tail);
    StandsParts(text, i, flow, tail);
    ScanLead(text, lead);
    ScansIsSound(text, 0, SCAN_START, i, Outside([], true));
    var m := ScanCollection(text, i, Outside([], true), open, items, close);
    var found := [] + ItemsPairs(items);
    assert found == ItemsPairs(items);
    ScansOn(text, 0, SCAN_START, i, Outside([], true), j, Outside(found, m));
    ScansIsSound(text, 0, SCAN_START, j, Outside(found, m));
    var m' := ScanOutside(text, j, found, m, tail);
    ScansOn(text, 0, SCAN_START, j, Outside(found, m), |text|, Outside(found, m'));
    ScanEndsAt(text, Outside(found, m'), []);
    assert found + [] == found;
  }

  lemma WholeStands(text: string)
    ensures Stands(text, 0, text)
  {
    assert text[0..0 + |text|] == text;
  }

  /** One that is not closed leaves its depth, and the pair it was in the middle of is found with the rest. */
  lemma OpenFlowIsRead(lead: string, open: char, items: seq<Item>)
    requires IsLead(lead) && open in {'{', '['} && forall k | 0 <= k < |items| :: IsItem(items[k])
    ensures var text := lead + [open] + ItemsText(items);
            FlowDepth(text) == 1 && RawPairs(text) == ItemsPairs(items)
  {
    hide Sound, Scans, ItemsPairs, ItemsText, IsLead, IsItem, InnerPairs, LastPair, FlowDepth, RawPairs, Makes;
    var inner := ItemsText(items);
    var text := lead + [open] + inner;
    var i := |lead|;
    Associate(lead, [open], inner);
    WholeStands(text);
    StandsParts(text, 0, lead, [open] + inner);
    StandsParts(text, i, [open], inner);
    ScanLead(text, lead);
    ScansIsSound(text, 0, SCAN_START, i, Outside([], true));
    var inside := Opened(Outside([], true), i);
    ScanOpen(text, i, Outside([], true), open);
    ScansOn(text, 0, SCAN_START, i, Outside([], true), i + 1, inside);
    ScansIsSound(text, 0, SCAN_START, i + 1, inside);
    var m, e := ScanItems(text, i + 1, inside, items);
    var full := inside.(pairs := [] + InnerPairs(items), element := e, mayOpen := m);
    ScansOn(text, 0, SCAN_START, i + 1, inside, |text|, full);
    ScanEndsAt(text, full, LastPair(items));
    InnerThenLast(items);
    assert [] + InnerPairs(items) == InnerPairs(items);
  }

  /** Where a plain value has begun, outside every collection, no bracket opens one. */
  lemma PlainValueOpensNothing(lead: string, first: char, rest: string)
    requires IsLead(lead) && first !in {' ', '\t', ':', '"', '\'', '{', '['}
    requires first == '-' ==> rest != "" && rest[0] !in {' ', '\t'}
    requires forall k | 0 <= k < |rest| :: rest[k] !in {':', '"', '\''}
    ensures var text := lead + [first] + rest; FlowDepth(text) == 0 && RawPairs(text) == []
  {
    hide Sound, Scans, IsLead;
    var text := lead + [first] + rest;
    var i := |lead|;
    Associate(lead, [first], rest);
    WholeStands(text);
    StandsParts(text, 0, lead, [first] + rest);
    StandsParts(text, i, [first], rest);
    StandsAt(text, i, first);
    ScanLead(text, lead);
    ScansIsSound(text, 0, SCAN_START, i, Outside([], true));
    ScansStep(text, i, Outside([], true));
    ScansOn(text, 0, SCAN_START, i, Outside([], true), i + 1, Outside([], false));
    ScansIsSound(text, 0, SCAN_START, i + 1, Outside([], false));
    ScanShut(text, i + 1, rest);
    ScansOn(text, 0, SCAN_START, i + 1, Outside([], false), |text|, Outside([], false));
    ScanEndsAt(text, Outside([], false), []);
  }

  lemma {:induction false} ScanShut(text: string, i: nat, t: string)
    requires Stands(text, i, t) && Sound(text, i, Outside([], false)) && forall k | 0 <= k < |t| :: t[k] !in {':', '"', '\''}
    ensures Scans(text, i, Outside([], false), i + |t|, Outside([], false))
    decreases |t|
  {
    hide Sound, Scans;
    if t == "" {
      ScansNothing(text, i, Outside([], false));
    } else {
      var c, rest := t[0], t[1..];
      assert t == [c] + rest;
      StandsParts(text, i, [c], rest);
      StandsAt(text, i, c);
      ScansStep(text, i, Outside([], false));
      ScansIsSound(text, i, Outside([], false), i + 1, Outside([], false));
      ScanShut(text, i + 1, rest);
      ScansOn(text, i, Outside([], false), i + 1, Outside([], false), i + |t|, Outside([], false));
    }
  }

  // ---- keys ----

  predicate AllQuotes(s: string) { forall i | 0 <= i < |s| :: IsQuote(s[i]) }

  lemma {:induction false} LeftQuotesGo(quotes: string, rest: string)
    requires AllQuotes(quotes) && (rest != "" ==> !IsQuote(rest[0]))
    ensures TrimLeft(quotes + rest, IsQuote) == rest
  {
    if quotes == "" {
      assert quotes + rest == rest;
    } else {
      assert (quotes + rest)[1..] == quotes[1..] + rest;
      LeftQuotesGo(quotes[1..], rest);
    }
  }

  lemma {:induction false} RightQuotesGo(rest: string, quotes: string)
    requires AllQuotes(quotes) && (rest != "" ==> !IsQuote(rest[|rest| - 1]))
    ensures TrimRight(rest + quotes, IsQuote) == rest
  {
    if quotes == "" {
      assert rest + quotes == rest;
    } else {
      assert (rest + quotes)[..|rest + quotes| - 1] == rest + quotes[..|quotes| - 1];
      RightQuotesGo(rest, quotes[..|quotes| - 1]);
    }
  }

  /** A pair's key is put out without the spaces around it and the quotes within those; its value as it stands. */
  lemma {:induction false} KeysAreBare(pairs: seq<(string, string)>, k: nat, before: string, left: string, key: string,
                                       right: string, after: string)
    requires k < |pairs| && pairs[k].0 == before + (left + key + right) + after
    requires AllSpace(before) && AllSpace(after) && AllQuotes(left) && AllQuotes(right)
    requires key != "" && !IsQuote(key[0]) && !IsQuote(key[|key| - 1])
    requires (left == "" ==> !IsSpace(key[0])) && (right == "" ==> !IsSpace(key[|key| - 1]))
    ensures |KeysTrimmed(pairs)| == |pairs| && KeysTrimmed(pairs)[k] == (key, pairs[k].1)
    decreases |pairs|
  {
    if k > 0 {
      assert pairs[1..][k - 1] == pairs[k];
      KeysAreBare(pairs[1..], k - 1, before, left, key, right, after);
    } else {
      KeysTrimmedLength(pairs);
      QuotesAreNoSpaces();
      var bare := left + key + right;
      assert bare[0] == if left == "" then key[0] else left[0];
      assert bare[|bare| - 1] == if right == "" then key[|key| - 1] else right[|right| - 1];
      StripIs(before, bare, after);
      assert (left + key)[|left + key| - 1] == key[|key| - 1];
      RightQuotesGo(left + key, right);
      LeftQuotesGo(left, key);
    }
  }

  lemma QuotesAreNoSpaces()
    ensures forall c | IsQuote(c) :: !IsSpace(c)
  {
  }

  lemma {:induction false} KeysTrimmedLength(pairs: seq<(string, string)>)
    ensures |KeysTrimmed(pairs)| == |pairs|
  {
    if pairs != [] {
      KeysTrimmedLength(pairs[1..]);
    }
  }
}
