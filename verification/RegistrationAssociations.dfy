/** That a registration leads from the system's lists to the browser's executable. */
module RegistrationAssociations {
  import opened Common
  import opened Registration
  import opened Registry
  import opened RegistrationStates

  /** The string under a key and a name, compared as the registry compares them. */
  function Look(s: Store, key: string, name: string, unicode: char -> char): Option<string> {
    var slot := Slot(Fold(key, unicode), Fold(name, unicode));
    if slot in s.values then Some(s.values[slot].data) else None
  }

  function Quoted(executable: string): string { "\"" + executable + "\"" }

  /** A class the system opens by running the browser with the address, under its name and icon. */
  predicate OpensWith(s: Store, progid: string, app: Application, unicode: char -> char) {
    var classKey := "Software\\Classes\\" + progid;
    && Look(s, classKey, "", unicode) == Some(app.name)
    && Look(s, classKey + "\\DefaultIcon", "", unicode) == Some(Quoted(app.executable) + ",0")
    && Look(s, classKey + "\\shell\\open\\command", "", unicode) == Some(Quoted(app.executable) + " \"%1\"")
  }

  /** What the capabilities say of the application, and where its associations and its start-menu entry lead. */
  predicate LeadsToBrowser(s: Store, capabilities: string, app: Application, unicode: char -> char) {
    && Look(s, capabilities, "ApplicationName", unicode) == Some(app.name)
    && Look(s, capabilities, "ApplicationDescription", unicode) == Some(app.description)
    && Look(s, capabilities, "ApplicationIcon", unicode) == Some(Quoted(app.executable) + ",0")
    && (forall suffix | suffix in {".htm", ".html"} ::
          var progid := Look(s, capabilities + "\\FileAssociations", suffix, unicode);
          progid.Some? && OpensWith(s, progid.value, app, unicode))
    && (forall scheme | scheme in {"http", "https"} ::
          var progid := Look(s, capabilities + "\\URLAssociations", scheme, unicode);
          && progid.Some? && OpensWith(s, progid.value, app, unicode)
          && Look(s, "Software\\Classes\\" + progid.value, "URL Protocol", unicode) == Some(""))
    && var entry := Look(s, capabilities + "\\StartMenu", "StartMenuInternet", unicode);
       && entry.Some?
       && var client := "Software\\Clients\\StartMenuInternet\\" + entry.value;
          && capabilities == client + "\\Capabilities"
          && Look(s, client, "", unicode) == Some(app.name)
          && Look(s, client + "\\DefaultIcon", "", unicode) == Some(Quoted(app.executable) + ",0")
          && Look(s, client + "\\shell\\open\\command", "", unicode) == Some(Quoted(app.executable))
  }

  /** Every value of the plan is in the registered store. */
  lemma RegisteredHolds(s: Store, p: Plan, unicode: char -> char, i: nat)
    requires WellFormed(p, unicode) && i < |p.values|
    ensures Look(Registered(s, p, unicode), p.values[i].Key(), p.values[i].name, unicode) == Some(p.values[i].data)
  {
    WrittenHolds(s, p.values, unicode, i);
    if i == |p.values| - 1 {
      assert p.values[i].Key() == REGISTERED_APPLICATIONS;
    } else {
      assert Owns(p, SlotOf(p.values[i], unicode).key, unicode);
    }
  }

  lemma ClientHolds(s: Store, client: string, key: string, app: Application, icon: string, launch: string, unicode: char -> char)
    requires forall i | 0 <= i < 11 ::
               var v := ClientValues(client, key, app, icon, launch)[i]; Look(s, v.Key(), v.name, unicode) == Some(v.data)
    ensures var c := client + "\\Capabilities";
            && Look(s, client, "", unicode) == Some(app.name)
            && Look(s, c, "ApplicationName", unicode) == Some(app.name)
            && Look(s, c, "ApplicationDescription", unicode) == Some(app.description)
            && Look(s, c, "ApplicationIcon", unicode) == Some(icon)
            && Look(s, c + "\\FileAssociations", ".htm", unicode) == Some(key + ".HTML")
            && Look(s, c + "\\FileAssociations", ".html", unicode) == Some(key + ".HTML")
            && Look(s, c + "\\URLAssociations", "http", unicode) == Some(key + ".URL")
            && Look(s, c + "\\URLAssociations", "https", unicode) == Some(key + ".URL")
            && Look(s, c + "\\StartMenu", "StartMenuInternet", unicode) == Some(key)
            && Look(s, client + "\\DefaultIcon", "", unicode) == Some(icon)
            && Look(s, client + "\\shell\\open\\command", "", unicode) == Some(launch)
  {
    ClientParts(client, key, app, icon, launch);
    ClientAssociations(client, key, app, icon, launch);
    hide Look, ClientValues;
    var vs := ClientValues(client, key, app, icon, launch);
    assert forall i | 0 <= i < 11 :: Look(s, vs[i].Key(), vs[i].name, unicode) == Some(vs[i].data);
  }

  /** Where each of the client's values is filed, and under what name. */
  lemma ClientParts(client: string, key: string, app: Application, icon: string, launch: string)
    ensures var vs, c := ClientValues(client, key, app, icon, launch), client + "\\Capabilities";
            && |vs| == 11
            && vs[0].Key() == client && vs[0].name == "" && vs[0].data == app.name
            && vs[1].Key() == c && vs[1].name == "ApplicationName" && vs[1].data == app.name
            && vs[2].Key() == c && vs[2].name == "ApplicationDescription" && vs[2].data == app.description
            && vs[3].Key() == c && vs[3].name == "ApplicationIcon" && vs[3].data == icon
            && vs[9].Key() == client + "\\DefaultIcon" && vs[9].name == "" && vs[9].data == icon
            && vs[10].Key() == client + "\\shell\\open\\command" && vs[10].name == "" && vs[10].data == launch
  {
    assert client + "" == client;
  }

  lemma ClientAssociations(client: string, key: string, app: Application, icon: string, launch: string)
    ensures var vs, c := ClientValues(client, key, app, icon, launch), client + "\\Capabilities";
            && |vs| == 11
            && vs[4].Key() == c + "\\FileAssociations" && vs[4].name == ".htm" && vs[4].data == key + ".HTML"
            && vs[5].Key() == c + "\\FileAssociations" && vs[5].name == ".html" && vs[5].data == key + ".HTML"
            && vs[6].Key() == c + "\\URLAssociations" && vs[6].name == "http" && vs[6].data == key + ".URL"
            && vs[7].Key() == c + "\\URLAssociations" && vs[7].name == "https" && vs[7].data == key + ".URL"
            && vs[8].Key() == c + "\\StartMenu" && vs[8].name == "StartMenuInternet" && vs[8].data == key
  {
    assert client + "\\Capabilities\\FileAssociations" == client + "\\Capabilities" + "\\FileAssociations";
    assert client + "\\Capabilities\\URLAssociations" == client + "\\Capabilities" + "\\URLAssociations";
    assert client + "\\Capabilities\\StartMenu" == client + "\\Capabilities" + "\\StartMenu";
  }

  lemma ClassHolds(s: Store, progid: string, app: Application, unicode: char -> char)
    requires forall i | 0 <= i < 3 ::
               var v := ClassValues(CLASSES + progid, app, Quoted(app.executable) + ",0", Quoted(app.executable) + " \"%1\"")[i];
               Look(s, v.Key(), v.name, unicode) == Some(v.data)
    ensures OpensWith(s, progid, app, unicode)
  {
    hide Look;
    var classKey := CLASSES + progid;
    var vs := ClassValues(classKey, app, Quoted(app.executable) + ",0", Quoted(app.executable) + " \"%1\"");
    assert classKey + "" == classKey;
    assert vs[0].Key() == classKey && vs[1].Key() == classKey + "\\DefaultIcon" && vs[2].Key() == classKey + "\\shell\\open\\command";
  }

  /** The values of a plan, by the parts it is put together from. */
  lemma PlanParts(app: Application)
    requires PlanOf(app).Ok?
    ensures var p, key := PlanOf(app).value, KeyOf(app.name);
            var client, icon := CLIENTS + key, Quoted(app.executable) + ",0";
            var launch, open := Quoted(app.executable), Quoted(app.executable) + " \"%1\"";
            && p.capabilities == client + "\\Capabilities" && |p.values| == 19
            && (forall i | 0 <= i < 11 :: p.values[i] == ClientValues(client, key, app, icon, launch)[i])
            && (forall i | 0 <= i < 3 :: p.values[11 + i] == ClassValues(CLASSES + (key + ".HTML"), app, icon, open)[i])
            && (forall i | 0 <= i < 3 :: p.values[14 + i] == ClassValues(CLASSES + (key + ".URL"), app, icon, open)[i])
            && p.values[17] == Value(CLASSES + (key + ".URL"), "", "URL Protocol", "")
            && p.values[18] == Value("Software\\RegisteredApplications", "", app.name, p.capabilities)
  {
    assert "\"" + app.executable + "\",0" == Quoted(app.executable) + ",0";
    assert "\"" + app.executable + "\" \"%1\"" == Quoted(app.executable) + " \"%1\"";
  }

  /** Whatever the store was, the system's list of applications leads, once an application is registered, to what runs its
      executable for each file suffix and scheme. */
  lemma RegistrationLeadsToBrowser(s: Store, app: Application, unicode: char -> char)
    requires PlanOf(app).Ok?
    ensures var r := Registered(s, PlanOf(app).value, unicode);
            var capabilities := Look(r, "Software\\RegisteredApplications", app.name, unicode);
            capabilities.Some? && LeadsToBrowser(r, capabilities.value, app, unicode)
  {
    hide Look, PlanOf, Registered, WellFormed, OpensWith, KeyOf;
    var p := PlanOf(app).value;
    var r, key := Registered(s, p, unicode), KeyOf(app.name);
    EveryPlanIsWellFormed(app, unicode);
    PlanParts(app);
    forall i | 0 <= i < 19 ensures Look(r, p.values[i].Key(), p.values[i].name, unicode) == Some(p.values[i].data) {
      RegisteredHolds(s, p, unicode, i);
    }
    assert p.values[18].Key() == "Software\\RegisteredApplications";
    var html := ClassValues(CLASSES + (key + ".HTML"), app, Quoted(app.executable) + ",0", Quoted(app.executable) + " \"%1\"");
    var url := ClassValues(CLASSES + (key + ".URL"), app, Quoted(app.executable) + ",0", Quoted(app.executable) + " \"%1\"");
    forall i | 0 <= i < 3
      ensures Look(r, html[i].Key(), html[i].name, unicode) == Some(html[i].data)
      ensures Look(r, url[i].Key(), url[i].name, unicode) == Some(url[i].data)
    {
      assert p.values[11 + i] == html[i] && p.values[14 + i] == url[i];
    }
    ClientHolds(r, CLIENTS + key, key, app, Quoted(app.executable) + ",0", Quoted(app.executable), unicode);
    ClassHolds(r, key + ".HTML", app, unicode);
    ClassHolds(r, key + ".URL", app, unicode);
    assert p.values[17].Key() == CLASSES + (key + ".URL");
  }

  /** The key is the name's letters and digits: each stays, in order, and all else goes. */
  lemma {:induction false} KeyIsItsLettersAndDigits(a: string, b: string)
    ensures KeyOf(a + b) == KeyOf(a) + KeyOf(b)
    ensures |a| == 1 ==> KeyOf(a) == if 'a' <= a[0] <= 'z' || 'A' <= a[0] <= 'Z' || '0' <= a[0] <= '9' then a else ""
  {
    if a == "" {
      assert a + b == b;
    } else {
      assert (a + b)[1..] == a[1..] + b;
      KeyIsItsLettersAndDigits(a[1..], b);
    }
  }

  // ---- which applications can be registered ----

  predicate IsControlled(c: char) { c < ' ' || '\U{7F}' <= c < '\U{A0}' }

  /** Text Windows shows as it is written: some, not a reference, and no control character. */
  predicate IsShown(text: string) {
    |text| > 0 && text[0] != '@' && forall i | 0 <= i < |text| :: !IsControlled(text[i])
  }

  predicate IsLetter(c: char) { 'a' <= c <= 'z' || 'A' <= c <= 'Z' }

  /** A path on a drive, or on a share whose server's name begins with a letter or digit, that stands between quotes. */
  predicate IsQuotable(path: string) {
    && |path| >= 3
    && ((IsLetter(path[0]) && path[1..3] == ":\\")
        || (path[..2] == "\\\\" && (IsLetter(path[2]) || '0' <= path[2] <= '9')))
    && path[|path| - 1] != '\\'
    && forall i | 0 <= i < |path| :: path[i] != '"' && path[i] != '%' && !IsControlled(path[i])
  }

  /** An application is refused for the first of these that is wrong with it, and registered if none is. */
  lemma RefusedIff(app: Application)
    ensures var named, keyed := IsShown(app.name), KeyOf(app.name) != "" && IsLetter(KeyOf(app.name)[0]);
            var short := |KeyOf(app.name)| + |".HTML"| <= 39;
            PlanOf(app).Err? <==> !(named && keyed && short && IsShown(app.description) && IsQuotable(app.executable))
    ensures PlanOf(app).Err? ==>
              PlanOf(app).error ==
              if !IsShown(app.name) then InvalidName
              else if KeyOf(app.name) == "" || !IsLetter(KeyOf(app.name)[0]) then NameWithoutKey
              else if |KeyOf(app.name)| + |".HTML"| > 39 then NameTooLong
              else if !IsShown(app.description) then InvalidDescription else InvalidExecutable
  {
    hide KeyOf, ClientValues, ClassValues;
    QuotableIs(app.executable);
  }

  lemma QuotableIs(path: string)
    ensures IsQuotable(path) <==> IsPlainAbsolute(path)
  {
    if |path| >= 3 {
      assert path[1..3] == [path[1], path[2]] && path[..2] == [path[0], path[1]];
    }
  }
}
