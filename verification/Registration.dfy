/**
 What registering the browser writes: the values, in the order they are written, the keys the registration
 owns whole, and the shared pointer written last; and that no two of these are the same slot of the registry,
 whose names are compared without regard to case.
 */
module Registration {
  import opened Common

  /** The browser being registered. */
  datatype Application = Application(name: string, description: string, executable: string)

  datatype InvalidApplication = InvalidName | NameWithoutKey | NameTooLong | InvalidDescription | InvalidExecutable

  /** One string value, at `root + suffix`. */
  datatype Value = Value(root: string, suffix: string, name: string, data: string) {
    function Key(): string { root + suffix }
  }

  datatype Plan = Plan(
    name: string,
    key: string,
    values: seq<Value>,
    ownedKeys: seq<string>,
    capabilities: string)

  const REGISTERED_APPLICATIONS := "Software\\RegisteredApplications"
  const CLIENTS := "Software\\Clients\\StartMenuInternet\\"
  const CLASSES := "Software\\Classes\\"
  const PROGID_MAX: nat := 39
  const HTML_SUFFIX := ".HTML"
  const URL_SUFFIX := ".URL"

  predicate IsAsciiAlphabetic(ch: char) {
    'a' <= ch <= 'z' || 'A' <= ch <= 'Z'
  }

  predicate IsAsciiAlphanumeric(ch: char) {
    IsAsciiAlphabetic(ch) || '0' <= ch <= '9'
  }

  predicate IsPlainText(text: string) {
    text != "" && text[0] != '@' && forall i | 0 <= i < |text| :: !IsControl(text[i])
  }

  /** An absolute Windows path, on a drive or a share, that can sit between quotes on a command line. */
  predicate IsPlainAbsolute(path: string) {
    && |path| >= 3
    && ((IsAsciiAlphabetic(path[0]) && path[1] == ':' && path[2] == '\\')
        || (path[0] == '\\' && path[1] == '\\' && IsAsciiAlphanumeric(path[2])))
    && path[|path| - 1] != '\\'
    && forall i | 0 <= i < |path| :: path[i] != '"' && path[i] != '%' && !IsControl(path[i])
  }

  /** The letters and digits of a name, in order. */
  function KeyOf(name: string): (key: string)
    ensures forall i | 0 <= i < |key| :: IsAsciiAlphanumeric(key[i])
    ensures |key| <= |name|
  {
    if name == "" then ""
    else
      var rest := KeyOf(name[1..]);
      if IsAsciiAlphanumeric(name[0]) then [name[0]] + rest else rest
  }

  function ClassValues(classKey: string, app: Application, icon: string, open: string): seq<Value> {
    [Value(classKey, "", "", app.name),
     Value(classKey, "\\DefaultIcon", "", icon),
     Value(classKey, "\\shell\\open\\command", "", open)]
  }

  function ClientValues(client: string, key: string, app: Application, icon: string, launch: string): seq<Value> {
    [Value(client, "", "", app.name),
     Value(client, "\\Capabilities", "ApplicationName", app.name),
     Value(client, "\\Capabilities", "ApplicationDescription", app.description),
     Value(client, "\\Capabilities", "ApplicationIcon", icon),
     Value(client, "\\Capabilities\\FileAssociations", ".htm", key + HTML_SUFFIX),
     Value(client, "\\Capabilities\\FileAssociations", ".html", key + HTML_SUFFIX),
     Value(client, "\\Capabilities\\URLAssociations", "http", key + URL_SUFFIX),
     Value(client, "\\Capabilities\\URLAssociations", "https", key + URL_SUFFIX),
     Value(client, "\\Capabilities\\StartMenu", "StartMenuInternet", key),
     Value(client, "\\DefaultIcon", "", icon),
     Value(client, "\\shell\\open\\command", "", launch)]
  }

  /** The registration for `app`, checked before anything is written. */
  function PlanOf(app: Application): Result<Plan, InvalidApplication> {
    var key := KeyOf(app.name);
    if !IsPlainText(app.name) then Err(InvalidName)
    else if key == "" || !IsAsciiAlphabetic(key[0]) then Err(NameWithoutKey)
    else if |key| + 5 > PROGID_MAX then Err(NameTooLong)
    else if !IsPlainText(app.description) then Err(InvalidDescription)
    else if !IsPlainAbsolute(app.executable) then Err(InvalidExecutable)
    else
      var client := CLIENTS + key;
      var capabilities := client + "\\Capabilities";
      var html := CLASSES + (key + HTML_SUFFIX);
      var url := CLASSES + (key + URL_SUFFIX);
      var icon := "\"" + app.executable + "\",0";
      var launch := "\"" + app.executable + "\"";
      var open := "\"" + app.executable + "\" \"%1\"";
      Ok(Plan(
           app.name,
           key,
           ClientValues(client, key, app, icon, launch)
           + ClassValues(html, app, icon, open)
           + ClassValues(url, app, icon, open)
           + [Value(url, "", "URL Protocol", "")]
           + [Value(REGISTERED_APPLICATIONS, "", app.name, capabilities)],
           [client, html, url],
           capabilities))
  }

  // ---- names the registry takes for the same ----

  /** The single small letter of a character: ASCII by its own table, the rest by `unicode`. */
  function SmallLetter(ch: char, unicode: char -> char): char {
    if ch < '\U{80}' then AsciiLower(ch) else unicode(ch)
  }

  function Fold(s: string, unicode: char -> char): (folded: string)
    ensures |folded| == |s|
    ensures forall i | 0 <= i < |s| :: folded[i] == SmallLetter(s[i], unicode)
  {
    seq(|s|, i requires 0 <= i < |s| => SmallLetter(s[i], unicode))
  }

  predicate SameValueName(a: string, b: string, unicode: char -> char) {
    Fold(a, unicode) == Fold(b, unicode)
  }

  predicate EqIgnoreAsciiCase(a: string, b: string) {
    |a| == |b| && forall i | 0 <= i < |a| :: AsciiLower(a[i]) == AsciiLower(b[i])
  }

  /** Whether a folded key path is `root` or lies below it. */
  predicate Under(key: string, root: string) {
    && |root| <= |key|
    && key[..|root|] == root
    && (|key| > |root| ==> key[|root|] == '\\')
  }

  /** Where a value is filed: its key and name, as the registry compares them. */
  datatype Slot = Slot(key: string, name: string)

  function SlotOf(v: Value, unicode: char -> char): Slot {
    Slot(Fold(v.Key(), unicode), Fold(v.name, unicode))
  }

  predicate Owns(p: Plan, key: string, unicode: char -> char) {
    exists i :: 0 <= i < |p.ownedKeys| && Under(key, Fold(p.ownedKeys[i], unicode))
  }

  function Last(p: Plan): Value
    requires p.values != []
  {
    p.values[|p.values| - 1]
  }

  /** What the ordering of a registration's writes rests on. */
  ghost predicate WellFormed(p: Plan, unicode: char -> char) {
    && p.values != []
    && Last(p) == Value(REGISTERED_APPLICATIONS, "", p.name, p.capabilities)
    && p.ownedKeys != []
    && (forall i | 0 <= i < |p.values| - 1 :: Owns(p, SlotOf(p.values[i], unicode).key, unicode))
    && !Owns(p, Fold(REGISTERED_APPLICATIONS, unicode), unicode)
    && (forall i, j | 0 <= i < j < |p.values| :: SlotOf(p.values[i], unicode) != SlotOf(p.values[j], unicode))
    && RootsDisjoint(p, unicode)
    && (forall r | 0 <= r < |p.ownedKeys| :: HoldsAValue(p, r, unicode))
  }

  /** An owned key holds a value of the registration. */
  ghost predicate HoldsAValue(p: Plan, r: nat, unicode: char -> char)
    requires r < |p.ownedKeys|
  {
    exists i :: 0 <= i < |p.values| - 1 && Under(SlotOf(p.values[i], unicode).key, Fold(p.ownedKeys[r], unicode))
  }

  /** No key lies below two of the owned keys. */
  ghost predicate RootsDisjoint(p: Plan, unicode: char -> char) {
    forall k, a, b | 0 <= a < b < |p.ownedKeys| ::
      !(Under(k, Fold(p.ownedKeys[a], unicode)) && Under(k, Fold(p.ownedKeys[b], unicode)))
  }

  // ---- every registration is well formed ----

  lemma UnderRoot(root: string, suffix: string, unicode: char -> char)
    requires suffix == "" || suffix[0] == '\\'
    ensures Under(Fold(root + suffix, unicode), Fold(root, unicode))
  {
  }

  /** Paths that differ in an ASCII character, beyond case, are neither the same nor one below the other. */
  lemma Apart(a: string, b: string, i: nat, unicode: char -> char)
    requires i < |a| && i < |b| && a[i] < '\U{80}' && b[i] < '\U{80}' && AsciiLower(a[i]) != AsciiLower(b[i])
    ensures !Under(Fold(a, unicode), Fold(b, unicode))
    ensures Fold(a, unicode) != Fold(b, unicode)
  {
  }

  lemma SlotsDiffer(v: Value, w: Value, unicode: char -> char)
    requires || |v.Key()| != |w.Key()|
             || |v.name| != |w.name|
             || exists i :: 0 <= i < |v.name| && v.name[i] < '\U{80}' && w.name[i] < '\U{80}'
                            && AsciiLower(v.name[i]) != AsciiLower(w.name[i])
    ensures SlotOf(v, unicode) != SlotOf(w, unicode)
  {
  }

  lemma ClientSlotsDiffer(client: string, key: string, app: Application, icon: string, launch: string,
                          unicode: char -> char, i: nat, j: nat)
    requires i < j < 11
    ensures var vs := ClientValues(client, key, app, icon, launch);
            SlotOf(vs[i], unicode) != SlotOf(vs[j], unicode)
  {
    var vs := ClientValues(client, key, app, icon, launch);
    var sizes := [0, 13, 13, 13, 30, 30, 29, 29, 23, 12, 19];
    assert |vs| == 11 && forall k | 0 <= k < 11 :: vs[k].root == client && |vs[k].suffix| == sizes[k];
    assert |vs[i].Key()| == |client| + sizes[i] && |vs[j].Key()| == |client| + sizes[j];
    if sizes[i] == sizes[j] {
      assert |vs[4].name| == 4 && |vs[5].name| == 5 && |vs[6].name| == 4 && |vs[7].name| == 5;
      assert |vs[1].name| == 15 && |vs[2].name| == 22 && |vs[3].name| == 15;
      assert vs[1].name[11] == 'N' && vs[3].name[11] == 'I';
    }
    SlotsDiffer(vs[i], vs[j], unicode);
  }

  lemma ClassSlotsDiffer(classKey: string, app: Application, icon: string, open: string, unicode: char -> char, i: nat, j: nat)
    requires i < j < 4
    ensures var vs := ClassValues(classKey, app, icon, open) + [Value(classKey, "", "URL Protocol", "")];
            SlotOf(vs[i], unicode) != SlotOf(vs[j], unicode)
  {
  }

  /** Which root the `i`th of the nineteen values is filed under. */
  function RootIndex(i: nat): nat {
    if i < 11 then 0 else if i < 14 then 1 else if i < 18 then 2 else 3
  }

  function Roots(p: Plan): seq<string> {
    p.ownedKeys + [REGISTERED_APPLICATIONS]
  }

  /** Where two of the roots differ. */
  function Fork(key: string, a: nat, b: nat): nat {
    if a == 3 || b == 3 then 9
    else if a == 0 || b == 0 then 11
    else 17 + |key| + 1
  }

  lemma RootsFork(app: Application, a: nat, b: nat)
    requires PlanOf(app).Ok? && a < 4 && b < 4 && a != b
    ensures var p := PlanOf(app).value;
            var i := Fork(p.key, a, b);
            && |p.ownedKeys| == 3
            && i < |Roots(p)[a]| && i < |Roots(p)[b]|
            && Roots(p)[a][i] < '\U{80}' && Roots(p)[b][i] < '\U{80}'
            && AsciiLower(Roots(p)[a][i]) != AsciiLower(Roots(p)[b][i])
  {
  }

  lemma ValuesByRoot(app: Application, i: nat)
    requires PlanOf(app).Ok? && i < 19
    ensures var p := PlanOf(app).value;
            && |p.values| == 19 && |p.ownedKeys| == 3
            && p.values[i].root == Roots(p)[RootIndex(i)]
            && (p.values[i].suffix == "" || p.values[i].suffix[0] == '\\')
  {
  }

  lemma PlanSlotsDiffer(app: Application, unicode: char -> char, i: nat, j: nat)
    requires PlanOf(app).Ok? && i < j < 19
    ensures var vs := PlanOf(app).value.values;
            |vs| == 19 && SlotOf(vs[i], unicode) != SlotOf(vs[j], unicode)
  {
    hide PlanOf, SlotOf, Fold;
    ValuesByRoot(app, i);
    if RootIndex(i) != RootIndex(j) {
      OtherRootsDiffer(app, unicode, i, j);
    } else {
      SameRootsDiffer(app, unicode, i, j);
    }
  }

  lemma OtherRootsDiffer(app: Application, unicode: char -> char, i: nat, j: nat)
    requires PlanOf(app).Ok? && i < 19 && j < 19 && |PlanOf(app).value.values| == 19 && RootIndex(i) != RootIndex(j)
    ensures SlotOf(PlanOf(app).value.values[i], unicode) != SlotOf(PlanOf(app).value.values[j], unicode)
  {
    hide PlanOf, Fold;
    var p, a, b := PlanOf(app).value, RootIndex(i), RootIndex(j);
    ValuesByRoot(app, i);
    ValuesByRoot(app, j);
    RootsFork(app, a, b);
    Apart(p.values[i].Key(), p.values[j].Key(), Fork(p.key, a, b), unicode);
  }

  lemma SameRootsDiffer(app: Application, unicode: char -> char, i: nat, j: nat)
    requires PlanOf(app).Ok? && i < j < 19 && |PlanOf(app).value.values| == 19 && RootIndex(i) == RootIndex(j)
    ensures SlotOf(PlanOf(app).value.values[i], unicode) != SlotOf(PlanOf(app).value.values[j], unicode)
  {
    hide SlotOf, Fold, KeyOf;
    var p := PlanOf(app).value;
    var icon, launch, open := "\"" + app.executable + "\",0", "\"" + app.executable + "\"",
                              "\"" + app.executable + "\" \"%1\"";
    if i < 11 {
      ClientSlotsDiffer(p.ownedKeys[0], p.key, app, icon, launch, unicode, i, j);
    } else if i < 14 {
      ClassSlotsDiffer(p.ownedKeys[1], app, icon, open, unicode, i - 11, j - 11);
    } else if i < 18 {
      ClassSlotsDiffer(p.ownedKeys[2], app, icon, open, unicode, i - 14, j - 14);
    }
  }

  /** Every registration writes its shared pointer last, after values that are its own and all distinct. */
  lemma EveryPlanIsWellFormed(app: Application, unicode: char -> char)
    requires PlanOf(app).Ok?
    ensures WellFormed(PlanOf(app).value, unicode)
  {
    var p := PlanOf(app).value;
    ValuesByRoot(app, 0);
    forall i | 0 <= i < 18 ensures Owns(p, SlotOf(p.values[i], unicode).key, unicode) {
      ValuesByRoot(app, i);
      UnderRoot(p.values[i].root, p.values[i].suffix, unicode);
      assert Under(SlotOf(p.values[i], unicode).key, Fold(p.ownedKeys[RootIndex(i)], unicode));
    }
    forall a | 0 <= a < 3
      ensures !Under(Fold(REGISTERED_APPLICATIONS, unicode), Fold(p.ownedKeys[a], unicode))
    {
      RootsFork(app, 3, a);
      Apart(REGISTERED_APPLICATIONS, p.ownedKeys[a], Fork(p.key, 3, a), unicode);
    }
    forall i, j | 0 <= i < j < 19 ensures SlotOf(p.values[i], unicode) != SlotOf(p.values[j], unicode) {
      PlanSlotsDiffer(app, unicode, i, j);
    }
    PlanRootsDisjoint(app, unicode);
    forall r | 0 <= r < 3 ensures HoldsAValue(p, r, unicode) {
      var i := if r == 0 then 0 else if r == 1 then 11 else 14;
      ValuesByRoot(app, i);
      UnderRoot(p.values[i].root, p.values[i].suffix, unicode);
      assert Under(SlotOf(p.values[i], unicode).key, Fold(p.ownedKeys[r], unicode));
    }
  }

  lemma PlanRootsDisjoint(app: Application, unicode: char -> char)
    requires PlanOf(app).Ok?
    ensures RootsDisjoint(PlanOf(app).value, unicode)
  {
    var p := PlanOf(app).value;
    ValuesByRoot(app, 0);
    forall k, a, b | 0 <= a < b < |p.ownedKeys|
      ensures !(Under(k, Fold(p.ownedKeys[a], unicode)) && Under(k, Fold(p.ownedKeys[b], unicode)))
    {
      RootsFork(app, a, b);
      var i := Fork(p.key, a, b);
      var fa, fb := Fold(p.ownedKeys[a], unicode), Fold(p.ownedKeys[b], unicode);
      assert fa[i] != fb[i];
      assert |fa| <= |k| ==> k[..|fa|][i] == k[i];
      assert |fb| <= |k| ==> k[..|fb|][i] == k[i];
    }
  }
}
