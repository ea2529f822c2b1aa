/**
 Keyboard shortcuts: how a key and the modifiers held with it are written, how what is written is read,
 and which shortcuts read back as themselves. Letters are folded as ASCII's are, and no others; a key of one
 character is written in its upper case.
 */
module Shortcuts {
  import opened Common
  import opened Text

  datatype Key =
    | Char(c: char)
    | F1 | F2 | F3 | F4 | F5 | F6 | F7 | F8 | F9 | F10 | F11 | F12
    | Escape | Tab | Enter | Backspace | Delete | Insert | Home | End | PageUp | PageDown
    | ArrowLeft | ArrowRight | ArrowUp | ArrowDown | Space

  datatype Modifiers = Modifiers(ctrl: bool, alt: bool, shift: bool, meta: bool)

  const NO_MODIFIERS := Modifiers(false, false, false, false)

  datatype Shortcut = Shortcut(modifiers: Modifiers, key: Key)

  datatype Error = EmptyShortcutString | MissingKey | UnknownKey(text: string)

  // ---- letters ----

  predicate IsUpper(c: char) { 'A' <= c <= 'Z' }

  function UpperChar(c: char): char { if 'a' <= c <= 'z' then (c as int - 32) as char else c }

  // ---- writing ----

  function KeyText(key: Key): string {
    match key
    case Char(c) => [UpperChar(c)]
    case F1 => "F1" case F2 => "F2" case F3 => "F3" case F4 => "F4" case F5 => "F5" case F6 => "F6"
    case F7 => "F7" case F8 => "F8" case F9 => "F9" case F10 => "F10" case F11 => "F11" case F12 => "F12"
    case Escape => "Escape" case Tab => "Tab" case Enter => "Enter" case Backspace => "Backspace"
    case Delete => "Delete" case Insert => "Insert" case Home => "Home" case End => "End"
    case PageUp => "PageUp" case PageDown => "PageDown"
    case ArrowLeft => "Left" case ArrowRight => "Right" case ArrowUp => "Up" case ArrowDown => "Down"
    case Space => "Space"
  }

  /** The modifiers held, each with the plus after it, in one order. */
  function ModifierTexts(m: Modifiers): seq<string> {
    If(m.ctrl, "Ctrl", If(m.alt, "Alt", If(m.shift, "Shift", If(m.meta, "Super", []))))
  }

  function If(on: bool, text: string, rest: seq<string>): seq<string> { if on then [text] + rest else rest }

  function WithPluses(texts: seq<string>, last: string): string {
    if texts == [] then last else texts[0] + "+" + WithPluses(texts[1..], last)
  }

  function Display(s: Shortcut): string { WithPluses(ModifierTexts(s.modifiers), KeyText(s.key)) }

  // ---- reading ----

  function Split(s: string): (parts: seq<string>)
    ensures parts != []
    decreases |s|
  {
    var n := PlusAt(s);
    if n == |s| then [s] else [s[..n]] + Split(s[n + 1..])
  }

  /** Where the first plus is, or the length. */
  function PlusAt(s: string): (n: nat)
    ensures n <= |s| && (n < |s| ==> s[n] == '+') && forall i | 0 <= i < n :: s[i] != '+'
  {
    if s == "" || s[0] == '+' then 0
    else
      var rest := PlusAt(s[1..]);
      assert forall i | 1 <= i < 1 + rest :: s[i] == s[1..][i - 1];
      1 + rest
  }

  function Held(m: Modifiers, part: string): Option<Modifiers> {
    var text := Lower(part);
    if text == "ctrl" || text == "control" then Some(m.(ctrl := true))
    else if text == "alt" then Some(m.(alt := true))
    else if text == "shift" then Some(m.(shift := true))
    else if text == "meta" || text == "super" || text == "cmd" || text == "command" || text == "win" then Some(m.(meta := true))
    else None
  }

  /** The modifiers named, or the first part that names none. */
  function HeldBy(m: Modifiers, parts: seq<string>): Result<Modifiers, string>
    decreases |parts|
  {
    if parts == [] then Ok(m)
    else
      var part := TrimWhite(parts[0]);
      if Held(m, part).None? then Err(part) else HeldBy(Held(m, part).value, parts[1..])
  }

  /** The named keys by their lower-case names, of which some have two. */
  function Named(text: string): Option<Key> {
    if |text| <= 3 then ShortNamed(text) else LongNamed(text)
  }

  function ShortNamed(text: string): Option<Key> {
    match text
    case "esc" => Some(Escape)
    case "tab" => Some(Tab)
    case "del" => Some(Delete)
    case "ins" => Some(Insert)
    case "end" => Some(End)
    case "up" => Some(ArrowUp)
    case "f1" => Some(F1) case "f2" => Some(F2) case "f3" => Some(F3) case "f4" => Some(F4)
    case "f5" => Some(F5) case "f6" => Some(F6) case "f7" => Some(F7) case "f8" => Some(F8)
    case "f9" => Some(F9) case "f10" => Some(F10) case "f11" => Some(F11) case "f12" => Some(F12)
    case _ => None
  }

  function LongNamed(text: string): Option<Key> {
    match text
    case "escape" => Some(Escape)
    case "enter" => Some(Enter) case "return" => Some(Enter)
    case "backspace" => Some(Backspace)
    case "delete" => Some(Delete)
    case "insert" => Some(Insert)
    case "home" => Some(Home)
    case "pageup" => Some(PageUp) case "pgup" => Some(PageUp)
    case "pagedown" => Some(PageDown) case "pgdn" => Some(PageDown)
    case "left" => Some(ArrowLeft)
    case "right" => Some(ArrowRight)
    case "down" => Some(ArrowDown)
    case "space" => Some(Space)
    case _ => None
  }

  function KeyNamed(part: string): Result<Key, Error> {
    var text := Lower(part);
    if Named(text).Some? then Ok(Named(text).value)
    else if text == "" then Err(MissingKey)
    else if |text| == 1 then Ok(Char(AsciiLower(text[0])))
    else Err(UnknownKey(part))
  }

  function Parsed(s: string): Result<Shortcut, Error> {
    var trimmed := TrimWhite(s);
    if trimmed == "" then Err(EmptyShortcutString)
    else
      var parts := Split(trimmed);
      var n := |parts| - 1;
      var held := HeldBy(NO_MODIFIERS, parts[..n]);
      if held.Err? then Err(UnknownKey(held.error))
      else
        var key := KeyNamed(TrimWhite(parts[n]));
        if key.Err? then Err(key.error) else Ok(Shortcut(held.value, key.value))
  }

  /** Reads a shortcut such as `Ctrl+Shift+T`: every part but the last a modifier, the last a key. */
  method ParseShortcut(s: string) returns (r: Result<Shortcut, Error>)
    ensures r == Parsed(s)
  {
    var trimmed := TrimWhite(s);
    if trimmed == "" {
      return Err(EmptyShortcutString);
    }
    var parts := Split(trimmed);
    var n := |parts| - 1;
    var m := NO_MODIFIERS;
    for i := 0 to n
      invariant HeldBy(m, parts[i..n]) == HeldBy(NO_MODIFIERS, parts[..n])
    {
      assert parts[i..n][1..] == parts[i + 1..n] && parts[i..n][0] == parts[i];
      var part := TrimWhite(parts[i]);
      var held := Held(m, part);
      if held.None? {
        return Err(UnknownKey(part));
      }
      m := held.value;
    }
    assert parts[n..n] == [];
    var key := KeyNamed(TrimWhite(parts[n]));
    if key.Err? {
      return Err(key.error);
    }
    r := Ok(Shortcut(m, key.value));
  }

  // ---- what is written reads back ----

  predicate Plusless(s: string) { forall i | 0 <= i < |s| :: s[i] != '+' }

  lemma PlusIsAt(s: string, n: nat)
    requires n < |s| && s[n] == '+' && forall i | 0 <= i < n :: s[i] != '+'
    ensures PlusAt(s) == n
  {
  }

  lemma SplitFirst(first: string, rest: string)
    requires Plusless(first)
    ensures Split(first + "+" + rest) == [first] + Split(rest)
  {
    var s := first + "+" + rest;
    PlusIsAt(s, |first|);
    assert s[..|first|] == first && s[|first| + 1..] == rest;
  }

  lemma {:induction false} SplitTexts(texts: seq<string>, last: string)
    requires forall i | 0 <= i < |texts| :: Plusless(texts[i])
    ensures Split(WithPluses(texts, last)) == texts + Split(last)
  {
    hide Split, Plusless;
    if texts == [] {
      assert texts + Split(last) == Split(last);
    } else {
      SplitTexts(texts[1..], last);
      SplitFirst(texts[0], WithPluses(texts[1..], last));
      assert texts == [texts[0]] + texts[1..];
      Associate([texts[0]], texts[1..], Split(last));
    }
  }

  lemma ModifiersAreHeld(m: Modifiers)
    ensures HeldBy(NO_MODIFIERS, ModifierTexts(m)) == Ok(m)
  {
    hide Held, Trimmed, HeldBy, If;
    var m1 := NO_MODIFIERS.(ctrl := m.ctrl);
    var m2 := m1.(alt := m.alt);
    var m3 := m2.(shift := m.shift);
    ModifierNames(NO_MODIFIERS);
    ModifierNames(m1);
    ModifierNames(m2);
    ModifierNames(m3);
    var t := If(m.meta, "Super", []);
    var s := If(m.shift, "Shift", t);
    var a := If(m.alt, "Alt", s);
    HeldIf(NO_MODIFIERS, m.ctrl, "Ctrl", m1, a);
    HeldIf(m1, m.alt, "Alt", m2, s);
    HeldIf(m2, m.shift, "Shift", m3, t);
    HeldIf(m3, m.meta, "Super", m, []);
    NothingHeld(m);
  }

  lemma NothingHeld(m: Modifiers)
    ensures HeldBy(m, []) == Ok(m)
  {
  }

  lemma HeldIf(m: Modifiers, on: bool, text: string, held: Modifiers, rest: seq<string>)
    requires if on then Trimmed(text) && Held(m, text) == Some(held) else held == m
    ensures HeldBy(m, If(on, text, rest)) == HeldBy(held, rest)
  {
  }

  lemma ModifierNames(m: Modifiers)
    ensures Held(m, "Ctrl") == Some(m.(ctrl := true)) && Held(m, "Alt") == Some(m.(alt := true))
    ensures Held(m, "Shift") == Some(m.(shift := true)) && Held(m, "Super") == Some(m.(meta := true))
    ensures Trimmed("Ctrl") && Trimmed("Alt") && Trimmed("Shift") && Trimmed("Super")
  {
    assert Lower("Ctrl") == "ctrl" && Lower("Alt") == "alt" && Lower("Shift") == "shift" && Lower("Super") == "super";
  }

  predicate IsFunctionKey(key: Key) {
    || key.F1? || key.F2? || key.F3? || key.F4? || key.F5? || key.F6?
    || key.F7? || key.F8? || key.F9? || key.F10? || key.F11? || key.F12?
  }

  lemma FunctionKeysReadBack(key: Key)
    requires IsFunctionKey(key)
    ensures KeyNamed(KeyText(key)) == Ok(key)
  {
    match key
    case F1 => assert Lower("F1") == "f1";
    case F2 => assert Lower("F2") == "f2";
    case F3 => assert Lower("F3") == "f3";
    case F4 => assert Lower("F4") == "f4";
    case F5 => assert Lower("F5") == "f5";
    case F6 => assert Lower("F6") == "f6";
    case F7 => assert Lower("F7") == "f7";
    case F8 => assert Lower("F8") == "f8";
    case F9 => assert Lower("F9") == "f9";
    case F10 => assert Lower("F10") == "f10";
    case F11 => assert Lower("F11") == "f11";
    case F12 => assert Lower("F12") == "f12";
  }

  predicate IsArrow(key: Key) { key.ArrowLeft? || key.ArrowRight? || key.ArrowUp? || key.ArrowDown? }

  predicate MovesCursor(key: Key) { IsArrow(key) || key.Home? || key.End? || key.PageUp? || key.PageDown? }

  lemma CursorKeysReadBack(key: Key)
    requires MovesCursor(key) && !IsArrow(key)
    ensures KeyNamed(KeyText(key)) == Ok(key)
  {
    match key
    case Home => assert Lower("Home") == "home";
    case End => assert Lower("End") == "end";
    case PageUp => assert Lower("PageUp") == "pageup";
    case PageDown => assert Lower("PageDown") == "pagedown";
  }

  lemma ArrowKeysReadBack(key: Key)
    requires IsArrow(key)
    ensures KeyNamed(KeyText(key)) == Ok(key)
  {
    match key
    case ArrowLeft => assert Lower("Left") == "left";
    case ArrowRight => assert Lower("Right") == "right";
    case ArrowUp => assert Lower("Up") == "up";
    case ArrowDown => assert Lower("Down") == "down";
  }

  lemma OtherKeysReadBack(key: Key)
    requires !key.Char? && !IsFunctionKey(key) && !MovesCursor(key)
    ensures KeyNamed(KeyText(key)) == Ok(key)
  {
    match key
    case Escape => assert Lower("Escape") == "escape";
    case Tab => assert Lower("Tab") == "tab";
    case Enter => assert Lower("Enter") == "enter";
    case Backspace => assert Lower("Backspace") == "backspace";
    case Delete => assert Lower("Delete") == "delete";
    case Insert => assert Lower("Insert") == "insert";
    case Space => assert Lower("Space") == "space";
  }

  lemma NamedKeysReadBack(key: Key)
    requires !key.Char?
    ensures KeyNamed(KeyText(key)) == Ok(key)
  {
    hide KeyNamed, KeyText;
    if IsFunctionKey(key) {
      FunctionKeysReadBack(key);
    } else if IsArrow(key) {
      ArrowKeysReadBack(key);
    } else if MovesCursor(key) {
      CursorKeysReadBack(key);
    } else {
      OtherKeysReadBack(key);
    }
  }

  lemma CharKeysRead(c: char)
    ensures KeyNamed([UpperChar(c)]) == Ok(Char(AsciiLower(c)))
    ensures AsciiLower(c) == c <==> !IsUpper(c)
  {
  }

  /** The keys that what is written of them does not read back as. */
  predicate Unreadable(key: Key) { key.Char? && (key.c == '+' || IsWhite(key.c) || IsUpper(key.c)) }

  lemma KeyTextIsPlain(key: Key)
    requires !(key.Char? && (key.c == '+' || IsWhite(key.c)))
    ensures KeyText(key) != "" && Plusless(KeyText(key)) && Trimmed(KeyText(key))
    ensures KeyNamed(KeyText(key)) == Ok(key) <==> !Unreadable(key)
  {
    hide KeyNamed, KeyText, Plusless, Trimmed;
    if key.Char? {
      CharTextIsPlain(key.c);
      CharKeysRead(key.c);
    } else {
      NamedTextIsPlain(key);
      NamedKeysReadBack(key);
    }
  }

  lemma CharTextIsPlain(c: char)
    ensures KeyText(Char(c)) == [UpperChar(c)]
    ensures c != '+' && !IsWhite(c) ==> Plusless(KeyText(Char(c))) && Trimmed(KeyText(Char(c)))
  {
  }

  lemma NamedTextIsPlain(key: Key)
    requires !key.Char?
    ensures KeyText(key) != "" && Plusless(KeyText(key)) && Trimmed(KeyText(key))
  {
  }

  lemma {:induction false} DisplayEnds(texts: seq<string>, last: string)
    requires last != "" && forall i | 0 <= i < |texts| :: texts[i] != ""
    ensures var s := WithPluses(texts, last);
            && s != "" && s[|s| - 1] == last[|last| - 1] && s[0] == (if texts == [] then last[0] else texts[0][0])
            && WithPluses(texts, "") + last == s
  {
    if texts == [] {
      assert "" + last == last;
    } else {
      DisplayEnds(texts[1..], last);
      assert (texts[0] + "+" + WithPluses(texts[1..], "")) + last == texts[0] + "+" + (WithPluses(texts[1..], "") + last);
    }
  }

  lemma ModifierTextsAreWords(m: Modifiers)
    ensures forall i | 0 <= i < |ModifierTexts(m)| ::
              var t := ModifierTexts(m)[i]; t != "" && Plusless(t) && Trimmed(t)
  {
  }

  /** Reading parts that are modifiers and a last part. */
  lemma PartsRead(m: Modifiers, written: string, last: string)
    requires written != "" && Trimmed(written) && Split(written) == ModifierTexts(m) + [last]
    ensures Parsed(written) == (var key := KeyNamed(TrimWhite(last));
                                if key.Err? then Err(key.error) else Ok(Shortcut(m, key.value)))
  {
    hide Split, ModifierTexts, KeyNamed, HeldBy, Trim, Trimmed;
    TrimmedStays(written);
    var parts, texts := Split(written), ModifierTexts(m);
    assert parts[..|parts| - 1] == texts && parts[|parts| - 1] == last;
    ModifiersAreHeld(m);
  }

  /** Where the key's text is an ordinary last part. */
  lemma PlainKeysReadBack(s: Shortcut)
    requires !(s.key.Char? && (s.key.c == '+' || IsWhite(s.key.c)))
    ensures Parsed(Display(s)) == Ok(s) <==> !Unreadable(s.key)
  {
    hide KeyNamed, Split, WithPluses, Trim, ModifierTexts, KeyText, Parsed;
    var texts, last := ModifierTexts(s.modifiers), KeyText(s.key);
    ModifierTextsAreWords(s.modifiers);
    KeyTextIsPlain(s.key);
    SplitTexts(texts, last);
    PlainSplits(last);
    DisplayEnds(texts, last);
    PartsRead(s.modifiers, Display(s), last);
    TrimmedStays(last);
  }

  lemma PlainSplits(s: string)
    requires Plusless(s)
    ensures Split(s) == [s]
  {
  }

  lemma SplitPlus()
    ensures Split("+") == ["", ""]
  {
  }

  lemma EmptyPartFails(written: string, texts: seq<string>, last: string)
    requires written != "" && Trimmed(written) && Split(written) == texts + ["", last]
    ensures Parsed(written).Err?
  {
    hide Split, HeldBy, KeyNamed, Trim, Trimmed;
    TrimmedStays(written);
    var parts := Split(written);
    assert parts[..|parts| - 1] == texts + [""];
    EmptyHoldsNothing(NO_MODIFIERS, texts);
  }

  /** A plus as the key leaves an empty part where a modifier should be. */
  lemma PlusDoesNotReadBack(m: Modifiers)
    ensures Parsed(Display(Shortcut(m, Char('+')))).Err?
  {
    assert KeyText(Char('+')) == "+";
    SplitPlus();
    hide ModifierTexts, WithPluses, Split, KeyText, Parsed;
    var texts := ModifierTexts(m);
    ModifierTextsAreWords(m);
    SplitTexts(texts, "+");
    DisplayEnds(texts, "+");
    EmptyPartFails(Display(Shortcut(m, Char('+'))), texts, "");
  }

  lemma {:induction false} EmptyHoldsNothing(m: Modifiers, texts: seq<string>)
    ensures HeldBy(m, texts + [""]).Err?
    decreases |texts|
  {
    if texts == [] {
      assert texts + [""] == [""];
      assert TrimWhite("") == "" && |Lower("")| == 0;
      assert Held(m, "").None?;
    } else {
      var held := Held(m, TrimWhite(texts[0]));
      assert (texts + [""])[0] == texts[0] && (texts + [""])[1..] == texts[1..] + [""];
      if held.Some? {
        EmptyHoldsNothing(held.value, texts[1..]);
      }
    }
  }

  lemma WhiteTrimsAway(s: string, c: char)
    requires IsWhite(c) && Trimmed(s)
    ensures TrimWhite(s + [c]) == s
  {
    assert (s + [c])[..|s|] == s;
    assert TrimRight(s + [c], IsWhite) == TrimRight(s, IsWhite);
    TrimmedStays(s);
  }

  lemma EmptyKeyFails(written: string, trimmed: string, texts: seq<string>)
    requires TrimWhite(written) == trimmed && (trimmed == "" || Split(trimmed) == texts + [""])
    ensures Parsed(written).Err?
  {
  }

  /** White space as the key is trimmed away, and what is left ends in a plus. */
  lemma WhiteDoesNotReadBack(m: Modifiers, c: char)
    requires IsWhite(c)
    ensures Parsed(Display(Shortcut(m, Char(c)))).Err?
  {
    assert KeyText(Char(c)) == [c];
    hide ModifierTexts, WithPluses, Split, KeyText, IsWhite, TrimWhite, Trimmed, Parsed;
    var texts := ModifierTexts(m);
    var rest := WithPluses(texts, "");
    ModifierTextsAreWords(m);
    DisplayEnds(texts, [c]);
    EndsInPlus(texts);
    WhiteTrimsAway(rest, c);
    SplitTexts(texts, "");
    PlainSplits("");
    EmptyKeyFails(Display(Shortcut(m, Char(c))), rest, texts);
  }

  lemma {:induction false} EndsInPlus(texts: seq<string>)
    requires forall i | 0 <= i < |texts| :: texts[i] != "" && Trimmed(texts[i])
    ensures var s := WithPluses(texts, ""); Trimmed(s) && (texts == [] <==> s == "") && (s != "" ==> s[|s| - 1] == '+')
  {
    if texts != [] {
      EndsInPlus(texts[1..]);
    }
  }

  /** A shortcut written reads back as itself, except where its key is a plus, white space or a capital letter of
      ASCII, and then it never does. */
  lemma WrittenReadsBack(s: Shortcut)
    ensures Parsed(Display(s)) == Ok(s) <==> !Unreadable(s.key)
  {
    hide Parsed, Display, IsWhite;
    if s.key.Char? && s.key.c == '+' {
      PlusDoesNotReadBack(s.modifiers);
    } else if s.key.Char? && IsWhite(s.key.c) {
      WhiteDoesNotReadBack(s.modifiers, s.key.c);
    } else {
      PlainKeysReadBack(s);
    }
  }
}
