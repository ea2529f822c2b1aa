/**
 The two stores an import writes, updated in place, each all or nothing: a write whose save fails leaves the
 rows as they were. Deleting a folder gathers what is below it in rounds, until one finds nothing more.
 */
module ImportStores {
  import opened Common
  import opened Bookmarks
  import opened BookmarkLaws

  // ---- removing a folder with everything below it ----

  ghost predicate Closed(folders: seq<Folder>, ids: set<FolderId>) {
    forall i | 0 <= i < |folders| ::
      folders[i].parent.Some? && folders[i].parent.value in ids ==> folders[i].id in ids
  }

  /** `ids` is the folder `id` and every folder below it, and no other. */
  ghost predicate IsSubtree(folders: seq<Folder>, id: FolderId, ids: set<FolderId>) {
    id in ids && Closed(folders, ids) && InEveryClosed(folders, id, ids)
  }

  ghost predicate InEveryClosed(folders: seq<Folder>, id: FolderId, ids: set<FolderId>) {
    forall other: set<FolderId> | id in other && Closed(folders, other) :: ids <= other
  }

  lemma EveryClosedHolds(folders: seq<Folder>, id: FolderId)
    ensures InEveryClosed(folders, id, {id})
  {
  }

  lemma ChildIsInEveryClosed(folders: seq<Folder>, id: FolderId, ids: set<FolderId>, i: nat)
    requires i < |folders| && InEveryClosed(folders, id, ids)
    requires folders[i].parent.Some? && folders[i].parent.value in ids
    ensures InEveryClosed(folders, id, ids + {folders[i].id})
  {
  }

  function KeepFolders(folders: seq<Folder>, gone: set<FolderId>): (kept: seq<Folder>)
    ensures |kept| <= |folders|
  {
    if folders == [] then []
    else
      var earlier := KeepFolders(folders[..|folders| - 1], gone);
      if folders[|folders| - 1].id in gone then earlier else earlier + [folders[|folders| - 1]]
  }

  function KeepBookmarks(bookmarks: seq<Bookmark>, gone: set<FolderId>): (kept: seq<Bookmark>)
    ensures |kept| <= |bookmarks|
  {
    if bookmarks == [] then []
    else
      var earlier := KeepBookmarks(bookmarks[..|bookmarks| - 1], gone);
      if bookmarks[|bookmarks| - 1].parent in gone then earlier else earlier + [bookmarks[|bookmarks| - 1]]
  }

  lemma {:induction false} KeepsPrefix(a: seq<Folder>, b: seq<Folder>, gone: set<FolderId>)
    requires a <= b
    requires forall i | 0 <= i < |a| :: a[i].id !in gone
    requires forall i | |a| <= i < |b| :: b[i].id in gone
    ensures KeepFolders(b, gone) == a
  {
    if b != [] {
      var init := b[..|b| - 1];
      if |a| == |b| {
        assert a == b;
        KeepsPrefix(init, init, gone);
      } else {
        KeepsPrefix(a, init, gone);
      }
    }
  }

  lemma {:induction false} KeepsBookmarkPrefix(a: seq<Bookmark>, b: seq<Bookmark>, gone: set<FolderId>)
    requires a <= b
    requires forall i | 0 <= i < |a| :: a[i].parent !in gone
    requires forall i | |a| <= i < |b| :: b[i].parent in gone
    ensures KeepBookmarks(b, gone) == a
  {
    if b != [] {
      var init := b[..|b| - 1];
      if |a| == |b| {
        assert a == b;
        KeepsBookmarkPrefix(init, init, gone);
      } else {
        KeepsBookmarkPrefix(a, init, gone);
      }
    }
  }

  function Between(lo: FolderId, hi: FolderId): (ids: set<FolderId>)
    ensures forall n :: n in ids <==> lo <= n < hi
    decreases hi
  {
    if hi <= lo then {} else Between(lo, hi - 1) + {hi - 1}
  }

  /** Every folder made under `top` since `s` is below it. */
  lemma {:induction false} NewFoldersAreBelow(s: Store, t: Store, top: FolderId, ids: set<FolderId>, n: FolderId)
    requires top < s.nextFolder && Grown(s, t, top) && top in ids && Closed(t.folders, ids)
    requires s.nextFolder <= n < t.nextFolder
    ensures n in ids
    decreases n
  {
    var f := t.folders[|s.folders| + (n - s.nextFolder)];
    if f.parent.value != top {
      NewFoldersAreBelow(s, t, top, ids, f.parent.value);
    }
  }

  /** Removing a new top folder with everything below it leaves the rows there were before it. */
  lemma RemovingTheNewRestoresTheOld(s: Store, t: Store, name: string, ids: set<FolderId>)
    requires IdsBelow(s) && ROOT < s.nextFolder
    requires Grown(CreateFolder(s, ROOT, name), t, s.nextFolder)
    requires IsSubtree(t.folders, s.nextFolder, ids)
    ensures KeepFolders(t.folders, ids) == s.folders && KeepBookmarks(t.bookmarks, ids) == s.bookmarks
  {
    var top := s.nextFolder;
    var s1 := CreateFolder(s, ROOT, name);
    var young := Between(top, t.nextFolder);
    assert forall i | 0 <= i < |s1.folders| :: t.folders[i] == s1.folders[i];
    assert Closed(t.folders, young) by {
      forall i | 0 <= i < |t.folders| && t.folders[i].parent.Some? && t.folders[i].parent.value in young
        ensures t.folders[i].id in young
      {
      }
    }
    assert ids <= young;
    forall i | |s.folders| <= i < |t.folders| ensures t.folders[i].id in ids {
      if i == |s.folders| {
        assert t.folders[i] == s1.folders[i];
      } else {
        NewFoldersAreBelow(s1, t, top, ids, t.folders[i].id);
      }
    }
    KeepsPrefix(s.folders, t.folders, ids);
    forall i | |s.bookmarks| <= i < |t.bookmarks| ensures t.bookmarks[i].parent in ids {
      if t.bookmarks[i].parent != top {
        NewFoldersAreBelow(s1, t, top, ids, t.bookmarks[i].parent);
      }
    }
    KeepsBookmarkPrefix(s.bookmarks, t.bookmarks, ids);
  }

  class BookmarkStore {
    var value: Store
    /** Set while a batch runs, so that the operations inside it are saved once, at its end. */
    var deferred: bool

    /** The write to disk, which may fail, or the refusal of a tree that is none; it changes nothing in memory. */
    method Save() returns (saved: bool)
      ensures deferred ==> saved
    {
      saved := *;
      saved := saved || deferred;
    }

    /** Outside a batch, a save that fails leaves the new row in memory. */
    method CreateFolder(parent: FolderId, name: string) returns (r: Result<FolderId, Error>)
      modifies this
      ensures deferred == old(deferred)
      ensures !HasFolder(old(value), parent) ==> r == Err(FolderNotFound(parent)) && value == old(value)
      ensures HasFolder(old(value), parent) ==>
                && value == Bookmarks.CreateFolder(old(value), parent, name)
                && (r == Ok(old(value).nextFolder) || (r == Err(Unsaved) && !deferred))
    {
      if !HasFolder(value, parent) {
        return Err(FolderNotFound(parent));
      }
      var id := value.nextFolder;
      var position := |Subfolders(value.folders, parent)|;
      value := value.(nextFolder := id + 1, folders := value.folders + [Folder(id, Some(parent), name, position)]);
      var saved := Save();
      r := if saved then Ok(id) else Err(Unsaved);
    }

    /** Outside a batch, a save that fails leaves the new row in memory. */
    method CreateBookmark(parent: FolderId, title: string, address: string, createdAt: Time, source: Source)
      returns (r: Result<nat, Error>)
      modifies this
      ensures deferred == old(deferred)
      ensures !HasFolder(old(value), parent) ==> r == Err(FolderNotFound(parent)) && value == old(value)
      ensures HasFolder(old(value), parent) ==>
                && value == Bookmarks.CreateBookmark(old(value), parent, title, address, createdAt, source)
                && (r == Ok(old(value).nextBookmark) || (r == Err(Unsaved) && !deferred))
    {
      if !HasFolder(value, parent) {
        return Err(FolderNotFound(parent));
      }
      var id := value.nextBookmark;
      var position := |BookmarksIn(value.bookmarks, parent)|;
      value := value.(nextBookmark := id + 1,
                      bookmarks := value.bookmarks + [Bookmark(id, parent, title, address, createdAt, source, position)]);
      var saved := Save();
      r := if saved then Ok(id) else Err(Unsaved);
    }

    /** Gathers the folders below `id` until no round finds another. */
    method Subtree(id: FolderId) returns (ids: set<FolderId>)
      ensures IsSubtree(value.folders, id, ids)
    {
      hide InEveryClosed;
      ids := {id};
      EveryClosedHolds(value.folders, id);
      var folders := value.folders;
      ghost var all := (set i | 0 <= i < |folders| :: folders[i].id) + {id};
      var changed := true;
      while changed
        invariant id in ids && ids <= all
        invariant InEveryClosed(folders, id, ids)
        invariant !changed ==> Closed(folders, ids)
        decreases |all - ids|, changed
      {
        changed := false;
        ghost var before := ids;
        for i := 0 to |folders|
          invariant id in ids && before <= ids <= all
          invariant InEveryClosed(folders, id, ids)
          invariant changed <==> ids != before
          invariant !changed ==> forall j | 0 <= j < i ::
                      folders[j].parent.Some? && folders[j].parent.value in ids ==> folders[j].id in ids
        {
          var f := folders[i];
          if f.parent.Some? && f.parent.value in ids && f.id !in ids {
            ChildIsInEveryClosed(folders, id, ids, i);
            ids := ids + {f.id};
            changed := true;
          }
        }
        if changed {
          Shrinks(all - ids, all - before);
        }
      }
    }

    /** Removes a folder with everything below it, and counts the rows gone. `ids` is every folder gone. Outside a
        batch, a save that fails leaves the rows gone in memory. */
    method DeleteFolder(id: FolderId) returns (r: Result<nat, Error>, ghost ids: set<FolderId>)
      modifies this
      ensures deferred == old(deferred)
      ensures id == ROOT ==> r == Err(CannotModifyRoot) && value == old(value)
      ensures id != ROOT && !HasFolder(old(value), id) ==> r == Err(FolderNotFound(id)) && value == old(value)
      ensures id != ROOT && HasFolder(old(value), id) ==>
                && IsSubtree(old(value).folders, id, ids)
                && value == old(value).(folders := KeepFolders(old(value).folders, ids),
                                        bookmarks := KeepBookmarks(old(value).bookmarks, ids))
                && ((r.Ok? && r.value == |old(value).folders| - |value.folders| + |old(value).bookmarks| - |value.bookmarks|)
                    || (r == Err(Unsaved) && !deferred))
    {
      ids := {};
      if id == ROOT {
        return Err(CannotModifyRoot), {};
      }
      if !HasFolder(value, id) {
        return Err(FolderNotFound(id)), {};
      }
      var gone := Subtree(id);
      ids := gone;
      var folders, bookmarks := KeepFolders(value.folders, gone), KeepBookmarks(value.bookmarks, gone);
      var deleted := |value.bookmarks| - |bookmarks| + (|value.folders| - |folders|);
      value := value.(folders := folders, bookmarks := bookmarks);
      var saved := Save();
      r := if saved then Ok(deleted) else Err(Unsaved);
    }
  }

  lemma Shrinks<T>(a: set<T>, b: set<T>)
    requires a < b
    ensures |a| < |b|
  {
    assert |b| == |a| + |b - a| by {
      assert b == a + (b - a);
    }
    assert b - a != {};
  }

  // ---- history ----

  datatype HistorySource = Navigated | ImportedFrom(browser: string)

  datatype Entry = Entry(id: nat, address: string, title: string, visitedAt: Time, source: HistorySource)

  datatype NewEntry = NewEntry(address: string, title: string, visitedAt: Time, source: HistorySource)

  datatype HistoryError = HistoryUnsaved

  /** The rows a batch appends. */
  function Recorded(entries: seq<Entry>, nextId: nat, batch: seq<NewEntry>): seq<Entry>
    decreases |batch|
  {
    if batch == [] then entries
    else
      var e := batch[0];
      Recorded(entries + [Entry(nextId, e.address, e.title, e.visitedAt, e.source)], nextId + 1, batch[1..])
  }

  class HistoryStore {
    var entries: seq<Entry>
    var nextId: nat

    method Save() returns (saved: bool)
    {
      saved := *;
    }

    /** Appends a batch, all of it or none; an empty one is not saved. */
    method RecordBatch(batch: seq<NewEntry>) returns (r: Result<nat, HistoryError>)
      modifies this
      ensures r.Ok? ==> r.value == |batch| && entries == Recorded(old(entries), old(nextId), batch)
      ensures r.Err? ==> batch != [] && entries == old(entries) && nextId == old(nextId)
    {
      var kept, keptNext := entries, nextId;
      var count := 0;
      while count < |batch|
        invariant 0 <= count <= |batch|
        invariant Recorded(entries, nextId, batch[count..]) == Recorded(old(entries), old(nextId), batch)
      {
        var e := batch[count];
        assert batch[count..][0] == e && batch[count..][1..] == batch[count + 1..];
        entries := entries + [Entry(nextId, e.address, e.title, e.visitedAt, e.source)];
        nextId := nextId + 1;
        count := count + 1;
      }
      assert batch[count..] == [];
      if count == 0 {
        return Ok(0);
      }
      var saved := Save();
      if !saved {
        entries, nextId := kept, keptNext;
        return Err(HistoryUnsaved);
      }
      r := Ok(count);
    }
  }
}
