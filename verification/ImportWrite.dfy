/** Writing an import: bookmarks and then history, with the bookmarks taken back on refusal. */
module ImportWrite {
  import opened Common
  import opened Bookmarks
  import opened BookmarkLaws
  import opened BookmarkOrder
  import opened ImportStores

  datatype RootKind = Toolbar | Menu | Other | Mobile

  datatype Root = Root(kind: RootKind, children: seq<Node>)

  datatype Visit = Visit(address: string, title: string, visitedAt: Time)

  /** What was read from one profile. */
  datatype Data = Data(browser: string, roots: seq<Root>, history: seq<Visit>)

  datatype ImportError =
    | BookmarksRefused(bookmarks: Error)
    | HistoryRefused(history: HistoryError)
    | Catalogue(key: string)
    | RollbackFailed(history: HistoryError, bookmarks: Error)

  datatype Counts = Counts(bookmarksImported: nat, historyImported: nat)

  const FOLDER_KEY := "import.folder"

  function CatalogueKey(kind: RootKind): string {
    match kind
    case Toolbar => "import.root.toolbar"
    case Menu => "import.root.menu"
    case Other => "import.root.other"
    case Mobile => "import.root.mobile"
  }

  function CountRoots(roots: seq<Root>): nat {
    if roots == [] then 0 else CountBookmarks(roots[0].children) + CountRoots(roots[1..])
  }

  // ---- bookmarks ----

  /** Each root as a folder under its name. */
  function RootNodes(roots: seq<Root>, names: seq<string>): seq<Node>
    requires |names| == |roots|
  {
    if roots == [] then [] else [FolderNode(names[0], roots[0].children)] + RootNodes(roots[1..], names[1..])
  }

  lemma {:induction false} RootNodesCount(roots: seq<Root>, names: seq<string>)
    requires |names| == |roots|
    ensures CountBookmarks(RootNodes(roots, names)) == CountRoots(roots)
  {
    if roots != [] {
      RootNodesCount(roots[1..], names[1..]);
      assert RootNodes(roots, names)[1..] == RootNodes(roots[1..], names[1..]);
    }
  }

  lemma GrownKeepsFolders(s: Store, t: Store, p: FolderId, id: FolderId)
    requires Grown(s, t, p) && HasFolder(s, id)
    ensures HasFolder(t, id)
  {
  }

  lemma NewFolderExists(s: Store, p: FolderId, name: string)
    ensures HasFolder(CreateFolder(s, p, name), s.nextFolder)
    ensures HasFolder(s, p) ==> HasFolder(CreateFolder(s, p, name), p)
  {
    var t := CreateFolder(s, p, name);
    assert t.folders[|s.folders|].id == s.nextFolder;
    if HasFolder(s, p) {
      var i :| 0 <= i < |s.folders| && s.folders[i].id == p;
      assert t.folders[i].id == p;
    }
  }

  /** Writes each node under a folder that is there, so no row's parent can be missing. */
  method WriteNodesInto(store: BookmarkStore, parent: FolderId, nodes: seq<Node>, browser: string, now: Time)
    returns (r: Result<(), Error>)
    requires store.deferred && HasFolder(store.value, parent) && parent < store.value.nextFolder
    modifies store
    ensures store.deferred && r.Ok? && store.value == WriteNodes(old(store.value), parent, nodes, browser, now)
    decreases nodes
  {
    var i := 0;
    while i < |nodes|
      invariant 0 <= i <= |nodes| && store.deferred
      invariant HasFolder(store.value, parent) && parent < store.value.nextFolder
      invariant WriteNodes(store.value, parent, nodes[i..], browser, now)
             == WriteNodes(old(store.value), parent, nodes, browser, now)
    {
      ghost var s := store.value;
      assert nodes[i..][0] == nodes[i] && nodes[i..][1..] == nodes[i + 1..];
      match nodes[i] {
        case FolderNode(title, children) =>
          var folder := store.CreateFolder(parent, title);
          if folder.Err? {
            assert false;
          }
          NewFolderExists(s, parent, title);
          ghost var s1 := store.value;
          var below := WriteNodesInto(store, folder.value, children, browser, now);
          WriteGrows(s1, s.nextFolder, children, browser, now);
          GrownKeepsFolders(s1, store.value, s.nextFolder, parent);
        case BookmarkNode(title, address, addedAt) =>
          var written := store.CreateBookmark(parent, title, address,
                                              if addedAt.Some? then addedAt.value else now, Imported(browser));
          if written.Err? {
            assert false;
          }
      }
      i := i + 1;
    }
    assert nodes[i..] == [];
    r := Ok(());
  }

  /** The import's forest as one folder at the top of the member's tree. */
  function TopNode(data: Data, topName: string, names: seq<string>): Node
    requires |names| == |data.roots|
  {
    FolderNode(topName, RootNodes(data.roots, names))
  }

  /** The bookmark half, as one batch: all of it is written and saved, or the store is as it was. */
  method WriteBookmarks(store: BookmarkStore, data: Data, topName: string, names: seq<string>, now: Time)
    returns (r: Result<FolderId, Error>)
    requires HasFolder(store.value, ROOT) && ROOT < store.value.nextFolder && |names| == |data.roots|
    modifies store
    ensures r.Ok? ==> r.value == old(store.value).nextFolder
                      && store.value == WriteNodes(old(store.value), ROOT, [TopNode(data, topName, names)], data.browser, now)
    ensures r.Err? ==> store.value == old(store.value)
    ensures store.deferred == old(store.deferred)
  {
    var before, outer := store.value, store.deferred;
    store.deferred := true;
    NewFolderExists(before, ROOT, topName);
    var top := store.CreateFolder(ROOT, topName);
    if top.Err? {
      assert false;
    }
    ghost var s1 := store.value;
    for i := 0 to |data.roots|
      invariant store.deferred && HasFolder(store.value, top.value) && top.value < store.value.nextFolder
      invariant WriteNodes(store.value, top.value, RootNodes(data.roots[i..], names[i..]), data.browser, now)
             == WriteNodes(s1, top.value, RootNodes(data.roots, names), data.browser, now)
    {
      ghost var s := store.value;
      assert data.roots[i..][1..] == data.roots[i + 1..] && names[i..][1..] == names[i + 1..];
      var nodes := [FolderNode(names[i], data.roots[i].children)];
      assert RootNodes(data.roots[i..], names[i..])[1..] == RootNodes(data.roots[i + 1..], names[i + 1..]);
      var folder := store.CreateFolder(top.value, names[i]);
      if folder.Err? {
        assert false;
      }
      NewFolderExists(s, top.value, names[i]);
      ghost var s2 := store.value;
      var below := WriteNodesInto(store, folder.value, data.roots[i].children, data.browser, now);
      WriteGrows(s2, s.nextFolder, data.roots[i].children, data.browser, now);
      GrownKeepsFolders(s2, store.value, s.nextFolder, top.value);
    }
    assert store.value == WriteNodes(s1, top.value, RootNodes(data.roots, names), data.browser, now);
    assert [TopNode(data, topName, names)][1..] == [];
    store.deferred := outer;
    var saved := store.Save();
    if !saved {
      store.value := before;
      return Err(Unsaved);
    }
    r := Ok(top.value);
  }

  /** Takes the imported folder out again, as one batch. */
  method RemoveFolder(store: BookmarkStore, folder: FolderId) returns (r: Result<nat, Error>, ghost ids: set<FolderId>)
    requires folder != ROOT && HasFolder(store.value, folder)
    modifies store
    ensures store.deferred == old(store.deferred)
    ensures r.Err? ==> store.value == old(store.value)
    ensures r.Ok? ==> IsSubtree(old(store.value).folders, folder, ids)
                      && store.value.folders == KeepFolders(old(store.value).folders, ids)
                      && store.value.bookmarks == KeepBookmarks(old(store.value).bookmarks, ids)
  {
    var before, outer := store.value, store.deferred;
    store.deferred := true;
    r, ids := store.DeleteFolder(folder);
    store.deferred := outer;
    var saved := store.Save();
    if !saved {
      store.value := before;
      r := Err(Unsaved);
    }
  }

  // ---- history ----

  /** Milliseconds since the epoch; times are in nanoseconds, and one before the epoch counts as the epoch. */
  function Millis(time: Time): nat {
    if time < 0 then 0 else time / 1_000_000
  }

  /** Times are the same visit's within a millisecond. */
  lemma MillisAre(time: Time)
    ensures time < 0 ==> Millis(time) == 0
    ensures time >= 0 ==> Millis(time) * 1_000_000 <= time < (Millis(time) + 1) * 1_000_000
  {
  }

  type VisitKey = (string, nat)

  function KeyOf(v: Visit): VisitKey { (v.address, Millis(v.visitedAt)) }

  function EntryKey(e: Entry): VisitKey { (e.address, Millis(e.visitedAt)) }

  function Keys(entries: seq<Entry>): set<VisitKey> {
    set e | e in entries :: EntryKey(e)
  }

  function VisitKeys(visits: seq<Visit>): set<VisitKey> {
    set v | v in visits :: KeyOf(v)
  }

  /** The visits not seen before, each once, in order. */
  function Unseen(visits: seq<Visit>, seen: set<VisitKey>): seq<Visit> {
    if visits == [] then []
    else if KeyOf(visits[0]) in seen then Unseen(visits[1..], seen)
    else [visits[0]] + Unseen(visits[1..], seen + {KeyOf(visits[0])})
  }

  function AsNew(v: Visit, browser: string): NewEntry {
    NewEntry(v.address, v.title, v.visitedAt, ImportedFrom(browser))
  }

  function Batch(visits: seq<Visit>, browser: string): (batch: seq<NewEntry>)
    ensures |batch| == |visits| && forall i | 0 <= i < |visits| :: batch[i] == AsNew(visits[i], browser)
  {
    seq(|visits|, i requires 0 <= i < |visits| => AsNew(visits[i], browser))
  }

  /** No two of the visits are the same address at the same millisecond, nor one already seen. */
  ghost predicate AllNew(visits: seq<Visit>, seen: set<VisitKey>) {
    && (forall i | 0 <= i < |visits| :: KeyOf(visits[i]) !in seen)
    && (forall i, j | 0 <= i < j < |visits| :: KeyOf(visits[i]) != KeyOf(visits[j]))
  }

  lemma VisitKeysOf(v: Visit, rest: seq<Visit>)
    ensures VisitKeys([v] + rest) == {KeyOf(v)} + VisitKeys(rest)
  {
    hide KeyOf;
  }

  lemma NewBefore(v: Visit, rest: seq<Visit>, seen: set<VisitKey>)
    requires KeyOf(v) !in seen && AllNew(rest, seen + {KeyOf(v)})
    ensures AllNew([v] + rest, seen)
  {
    hide KeyOf;
  }

  lemma {:induction false} UnseenIsNew(visits: seq<Visit>, seen: set<VisitKey>)
    ensures AllNew(Unseen(visits, seen), seen)
    ensures seen + VisitKeys(Unseen(visits, seen)) == seen + VisitKeys(visits)
    ensures forall v | v in Unseen(visits, seen) :: v in visits
    ensures VisitKeys(visits) <= seen ==> Unseen(visits, seen) == []
  {
    if visits != [] {
      hide KeyOf, VisitKeys, AllNew;
      var v, rest := visits[0], visits[1..];
      assert visits == [v] + rest;
      VisitKeysOf(v, rest);
      if KeyOf(v) in seen {
        UnseenIsNew(rest, seen);
      } else {
        var unseen := Unseen(rest, seen + {KeyOf(v)});
        UnseenIsNew(rest, seen + {KeyOf(v)});
        NewBefore(v, unseen, seen);
        VisitKeysOf(v, unseen);
      }
    }
  }

  lemma {:induction false} RecordedRows(entries: seq<Entry>, nextId: nat, batch: seq<NewEntry>)
    ensures var rows := Recorded(entries, nextId, batch);
            && |rows| == |entries| + |batch|
            && rows[..|entries|] == entries
            && forall i | 0 <= i < |batch| ::
                 rows[|entries| + i] == Entry(nextId + i, batch[i].address, batch[i].title, batch[i].visitedAt, batch[i].source)
    decreases |batch|
  {
    if batch != [] {
      var e := batch[0];
      RecordedRows(entries + [Entry(nextId, e.address, e.title, e.visitedAt, e.source)], nextId + 1, batch[1..]);
      var rows := Recorded(entries, nextId, batch);
      assert rows[..|entries| + 1][..|entries|] == entries;
      assert rows[|entries|] == rows[..|entries| + 1][|entries|];
    }
  }

  /** The rows there were, and after them one row for each of the visits, marked with the browser's name. */
  ghost predicate Appended(before: seq<Entry>, after: seq<Entry>, visits: seq<Visit>, browser: string) {
    && |after| == |before| + |visits|
    && after[..|before|] == before
    && forall i | 0 <= i < |visits| ::
         var e := after[|before| + i];
         && e.address == visits[i].address && e.title == visits[i].title && e.visitedAt == visits[i].visitedAt
         && e.source == ImportedFrom(browser)
  }

  lemma BatchRecorded(entries: seq<Entry>, nextId: nat, visits: seq<Visit>, browser: string)
    ensures var rows := Recorded(entries, nextId, Batch(visits, browser));
            && Appended(entries, rows, visits, browser)
            && Keys(rows) == Keys(entries) + VisitKeys(visits)
  {
    var rows := Recorded(entries, nextId, Batch(visits, browser));
    RecordedRows(entries, nextId, Batch(visits, browser));
    forall key | key in Keys(rows) ensures key in Keys(entries) + VisitKeys(visits) {
      var i :| 0 <= i < |rows| && EntryKey(rows[i]) == key;
      if i < |entries| {
        assert rows[i] == rows[..|entries|][i];
      } else {
        assert rows[i] == rows[|entries| + (i - |entries|)] && KeyOf(visits[i - |entries|]) == key;
      }
    }
    forall e | e in entries ensures EntryKey(e) in Keys(rows) {
      var i :| 0 <= i < |entries| && entries[i] == e;
      assert rows[..|entries|][i] == rows[i];
    }
    forall v | v in visits ensures KeyOf(v) in Keys(rows) {
      var i :| 0 <= i < |visits| && visits[i] == v;
      assert EntryKey(rows[|entries| + i]) == KeyOf(v);
    }
  }

  /** The history rows an import leaves: what it adds is the read visits not there before, each once, in order. */
  ghost predicate HistoryImported(before: seq<Entry>, after: seq<Entry>, data: Data, count: nat) {
    var added := Unseen(data.history, Keys(before));
    && count == |added|
    && Appended(before, after, added, data.browser)
    && Keys(after) == Keys(before) + VisitKeys(data.history)
    && AllNew(added, Keys(before))
  }

  lemma RecordedIsImported(before: seq<Entry>, nextId: nat, data: Data)
    ensures var added := Unseen(data.history, Keys(before));
            HistoryImported(before, Recorded(before, nextId, Batch(added, data.browser)), data, |added|)
  {
    hide AllNew, Appended, Recorded, Unseen;
    var seen, added := Keys(before), Unseen(data.history, Keys(before));
    BatchRecorded(before, nextId, added, data.browser);
    UnseenIsNew(data.history, seen);
  }

  /** Writes what the loop keeps of the visits. */
  method RecordUnseen(history: HistoryStore, data: Data) returns (r: Result<nat, HistoryError>)
    modifies history
    ensures r.Err? ==> history.entries == old(history.entries) && history.nextId == old(history.nextId)
                       && Unseen(data.history, Keys(old(history.entries))) != []
    ensures r.Ok? ==> HistoryImported(old(history.entries), history.entries, data, r.value)
  {
    hide HistoryImported;
    var before := history.entries;
    var seen := Keys(before);
    var kept: seq<Visit> := [];
    for i := 0 to |data.history|
      invariant kept + Unseen(data.history[i..], seen) == Unseen(data.history, Keys(before))
    {
      var visit := data.history[i];
      assert data.history[i..][0] == visit && data.history[i..][1..] == data.history[i + 1..];
      if KeyOf(visit) !in seen {
        assert kept + ([visit] + Unseen(data.history[i + 1..], seen + {KeyOf(visit)}))
            == (kept + [visit]) + Unseen(data.history[i + 1..], seen + {KeyOf(visit)});
        seen := seen + {KeyOf(visit)};
        kept := kept + [visit];
      }
    }
    assert kept == Unseen(data.history, Keys(before));
    RecordedIsImported(before, history.nextId, data);
    r := history.RecordBatch(Batch(kept, data.browser));
  }

  // ---- both ----

  /** The first name an import needs that the catalogue does not have. */
  function MissingName(roots: seq<Root>, texts: map<string, string>): Option<string> {
    if roots == [] then None
    else if CatalogueKey(roots[0].kind) !in texts then Some(CatalogueKey(roots[0].kind))
    else MissingName(roots[1..], texts)
  }

  function Missing(data: Data, texts: map<string, string>): Option<string> {
    if data.roots == [] then None
    else if FOLDER_KEY !in texts then Some(FOLDER_KEY)
    else MissingName(data.roots, texts)
  }

  function RootNames(roots: seq<Root>, texts: map<string, string>): (names: seq<string>)
    requires MissingName(roots, texts).None?
    ensures |names| == |roots|
  {
    if roots == [] then [] else [texts[CatalogueKey(roots[0].kind)]] + RootNames(roots[1..], texts)
  }

  /** Each root's folder goes by the catalogue's name for its kind. */
  lemma RootsAreNamed(data: Data, texts: map<string, string>, i: nat)
    requires Missing(data, texts).None? && i < |data.roots|
    ensures var kind, name := data.roots[i].kind, RootNames(data.roots, texts)[i];
            && (kind.Toolbar? ==> "import.root.toolbar" in texts && name == texts["import.root.toolbar"])
            && (kind.Menu? ==> "import.root.menu" in texts && name == texts["import.root.menu"])
            && (kind.Other? ==> "import.root.other" in texts && name == texts["import.root.other"])
            && (kind.Mobile? ==> "import.root.mobile" in texts && name == texts["import.root.mobile"])
  {
    NamedAt(data.roots, texts, i);
  }

  lemma {:induction false} NamedAt(roots: seq<Root>, texts: map<string, string>, i: nat)
    requires MissingName(roots, texts).None? && i < |roots|
    ensures CatalogueKey(roots[i].kind) in texts && RootNames(roots, texts)[i] == texts[CatalogueKey(roots[i].kind)]
  {
    if i > 0 {
      NamedAt(roots[1..], texts, i - 1);
    }
  }

  /** What the bookmark half makes of the store. */
  function BookmarksImported(s: Store, data: Data, texts: map<string, string>, now: Time): Store
    requires Missing(data, texts).None?
  {
    if data.roots == [] then s
    else WriteNodes(s, ROOT, [TopNode(data, texts[FOLDER_KEY], RootNames(data.roots, texts))], data.browser, now)
  }

  lemma TopThenRoots(s: Store, data: Data, topName: string, names: seq<string>, now: Time)
    requires |names| == |data.roots|
    ensures WriteNodes(s, ROOT, [TopNode(data, topName, names)], data.browser, now)
         == WriteNodes(CreateFolder(s, ROOT, topName), s.nextFolder, RootNodes(data.roots, names), data.browser, now)
  {
  }

  /** The imported folder reads back as the roots read, each under its name, with every bookmark of theirs; the
      rows there were before are still there, first. */
  lemma ImportedReadsBack(s: Store, data: Data, texts: map<string, string>, now: Time)
    requires IdsBelow(s) && ROOT < s.nextFolder && data.roots != [] && Missing(data, texts).None?
    ensures var t := BookmarksImported(s, data, texts, now);
            && |s.folders| < |t.folders|
            && ReadsAs(t, s.nextFolder, RootNodes(data.roots, RootNames(data.roots, texts)), data.browser, now)
            && s.folders <= t.folders && s.bookmarks <= t.bookmarks
            && |t.bookmarks| == |s.bookmarks| + CountRoots(data.roots)
            && t.folders[|s.folders|].name == texts[FOLDER_KEY] && t.folders[|s.folders|].parent == Some(ROOT)
            && t.folders[|s.folders|].id == s.nextFolder
  {
    var names := RootNames(data.roots, texts);
    var nodes := RootNodes(data.roots, names);
    var s1 := CreateFolder(s, ROOT, texts[FOLDER_KEY]);
    TopThenRoots(s, data, texts[FOLDER_KEY], names, now);
    NewFolderIsEmpty(s, ROOT, texts[FOLDER_KEY]);
    GrownStaysTidy(s, s1, ROOT, s.nextFolder);
    WrittenReads(s1, s.nextFolder, nodes, data.browser, now, s.nextFolder);
    WriteGrows(s1, s.nextFolder, nodes, data.browser, now);
    RootNodesCount(data.roots, names);
    var t := BookmarksImported(s, data, texts, now);
    assert t.folders[|s.folders|] == s1.folders[|s.folders|];
    assert s.folders <= s1.folders <= t.folders;
  }

  lemma {:induction false} RootNodesUnmixed(roots: seq<Root>, names: seq<string>)
    requires |names| == |roots|
    ensures Unmixed(RootNodes(roots, names)) <==> forall i | 0 <= i < |roots| :: Unmixed(roots[i].children)
  {
    var nodes := RootNodes(roots, names);
    RootNodesAt(roots, names);
    AllFolders(nodes);
    forall i | 0 <= i < |roots| ensures FolderNodes(nodes)[i].children == roots[i].children {
    }
  }

  lemma {:induction false} RootNodesAt(roots: seq<Root>, names: seq<string>)
    requires |names| == |roots|
    ensures |RootNodes(roots, names)| == |roots|
    ensures forall i | 0 <= i < |roots| :: RootNodes(roots, names)[i] == FolderNode(names[i], roots[i].children)
  {
    if roots != [] {
      RootNodesAt(roots[1..], names[1..]);
    }
  }

  /** The order of what was imported survives exactly where nothing below a root mixes folders and bookmarks. */
  lemma ImportedOrderSurvivesIffUnmixed(s: Store, data: Data, texts: map<string, string>, now: Time)
    requires IdsBelow(s) && ROOT < s.nextFolder && data.roots != [] && Missing(data, texts).None?
    ensures var t, nodes := BookmarksImported(s, data, texts, now), RootNodes(data.roots, RootNames(data.roots, texts));
            (forall b | ReadsAs(t, s.nextFolder, b, data.browser, now) :: Dated(b, now) == Dated(nodes, now))
            <==> forall i | 0 <= i < |data.roots| :: Unmixed(data.roots[i].children)
  {
    hide Unmixed, Dated, ReadsAs;
    var names := RootNames(data.roots, texts);
    ImportedReadsBack(s, data, texts, now);
    OrderSurvivesIffUnmixed(BookmarksImported(s, data, texts, now), s.nextFolder, RootNodes(data.roots, names), data.browser, now);
    RootNodesUnmixed(data.roots, names);
  }

  /** Taking the imported folder out again leaves the rows there were. */
  lemma RemovalRestores(s: Store, data: Data, texts: map<string, string>, now: Time, ids: set<FolderId>)
    requires IdsBelow(s) && ROOT < s.nextFolder && data.roots != [] && Missing(data, texts).None?
    requires IsSubtree(BookmarksImported(s, data, texts, now).folders, s.nextFolder, ids)
    ensures var t := BookmarksImported(s, data, texts, now);
            KeepFolders(t.folders, ids) == s.folders && KeepBookmarks(t.bookmarks, ids) == s.bookmarks
  {
    var names := RootNames(data.roots, texts);
    var s1 := CreateFolder(s, ROOT, texts[FOLDER_KEY]);
    TopThenRoots(s, data, texts[FOLDER_KEY], names, now);
    WriteGrows(s1, s.nextFolder, RootNodes(data.roots, names), data.browser, now);
    RemovingTheNewRestoresTheOld(s, BookmarksImported(s, data, texts, now), texts[FOLDER_KEY], ids);
  }

  lemma ImportedFolderExists(s: Store, data: Data, texts: map<string, string>, now: Time)
    requires IdsBelow(s) && ROOT < s.nextFolder && data.roots != [] && Missing(data, texts).None?
    ensures HasFolder(BookmarksImported(s, data, texts, now), s.nextFolder)
  {
    ImportedReadsBack(s, data, texts, now);
    assert BookmarksImported(s, data, texts, now).folders[|s.folders|].id == s.nextFolder;
  }

  predicate SameRows(s: Store, t: Store) {
    s.folders == t.folders && s.bookmarks == t.bookmarks
  }

  /** Resolves the names in order, stopping at the first that is missing. */
  method ResolveNames(data: Data, texts: map<string, string>) returns (r: Result<seq<string>, string>)
    ensures MissingName(data.roots, texts).None? ==> r == Ok(RootNames(data.roots, texts))
    ensures MissingName(data.roots, texts).Some? ==> r == Err(MissingName(data.roots, texts).value)
  {
    var names: seq<string> := [];
    for i := 0 to |data.roots|
      invariant MissingName(data.roots[i..], texts) == MissingName(data.roots, texts)
      invariant MissingName(data.roots, texts).None? ==>
                  names + RootNames(data.roots[i..], texts) == RootNames(data.roots, texts)
    {
      assert data.roots[i..][0] == data.roots[i] && data.roots[i..][1..] == data.roots[i + 1..];
      var key := CatalogueKey(data.roots[i].kind);
      if key !in texts {
        return Err(key);
      }
      names := names + [texts[key]];
    }
    assert data.roots[|data.roots|..] == [] && names + [] == names;
    r := Ok(names);
  }

  /**
   Writes what was read. A refusal leaves both stores' rows as they were, unless the bookmarks could not be
   taken back either, which is reported as such; success leaves both halves written. `texts` is what each
   catalogue name resolves to, with the browser's name filled in.
   */
  method WriteImported(bookmarks: BookmarkStore, history: HistoryStore, data: Data, texts: map<string, string>, now: Time)
    returns (r: Result<Counts, ImportError>)
    requires IdsBelow(bookmarks.value) && HasFolder(bookmarks.value, ROOT) && ROOT < bookmarks.value.nextFolder
    modifies bookmarks, history
    ensures bookmarks.deferred == old(bookmarks.deferred)
    ensures Missing(data, texts).Some? <==> r.Err? && r.error.Catalogue?
    ensures Missing(data, texts).Some? ==> r.error.key == Missing(data, texts).value
    ensures r.Err? && !r.error.RollbackFailed? ==> SameRows(bookmarks.value, old(bookmarks.value))
    ensures r.Err? ==> history.entries == old(history.entries)
    ensures r.Err? && r.error.RollbackFailed? ==>
              bookmarks.value == BookmarksImported(old(bookmarks.value), data, texts, now) && data.roots != []
    ensures r.Ok? ==> bookmarks.value == BookmarksImported(old(bookmarks.value), data, texts, now)
                      && r.value.bookmarksImported == |bookmarks.value.bookmarks| - |old(bookmarks.value).bookmarks|
                      && HistoryImported(old(history.entries), history.entries, data, r.value.historyImported)
  {
    ghost var s := bookmarks.value;
    var folder: Option<FolderId> := None;
    if data.roots != [] {
      if FOLDER_KEY !in texts {
        return Err(Catalogue(FOLDER_KEY));
      }
      var names := ResolveNames(data, texts);
      if names.Err? {
        return Err(Catalogue(names.error));
      }
      var written := WriteBookmarks(bookmarks, data, texts[FOLDER_KEY], names.value, now);
      if written.Err? {
        return Err(BookmarksRefused(written.error));
      }
      folder := Some(written.value);
      ImportedReadsBack(s, data, texts, now);
      ImportedFolderExists(s, data, texts, now);
    }
    var recorded := RecordUnseen(history, data);
    if recorded.Err? {
      if folder.Some? {
        ghost var t := bookmarks.value;
        var removal, ids := RemoveFolder(bookmarks, folder.value);
        if removal.Err? {
          return Err(RollbackFailed(recorded.error, removal.error));
        }
        RemovalRestores(s, data, texts, now, ids);
      }
      return Err(HistoryRefused(recorded.error));
    }
    r := Ok(Counts(CountRoots(data.roots), recorded.value));
  }

  /** The same import again adds no history row. */
  lemma ImportingAgainAddsNoHistory(before: seq<Entry>, after: seq<Entry>, again: seq<Entry>, data: Data, n: nat, m: nat)
    requires HistoryImported(before, after, data, n) && HistoryImported(after, again, data, m)
    ensures m == 0 && again == after
  {
    UnseenIsNew(data.history, Keys(after));
    assert again == again[..|after|];
  }
}
