/** What writing a forest into the bookmark store amounts to. */
module BookmarkLaws {
  import opened Common
  import opened Bookmarks

  /** Every folder a row names was made already. */
  ghost predicate IdsBelow(s: Store) {
    && (forall i | 0 <= i < |s.folders| ::
          s.folders[i].id < s.nextFolder && (s.folders[i].parent.Some? ==> s.folders[i].parent.value < s.nextFolder))
    && (forall i | 0 <= i < |s.bookmarks| :: s.bookmarks[i].parent < s.nextFolder)
  }

  /** Below a folder made at `base` or later, folders are younger than their parents. */
  ghost predicate Tidy(s: Store, base: FolderId) {
    forall i | 0 <= i < |s.folders| ::
      s.folders[i].parent.Some? && s.folders[i].parent.value >= base ==> s.folders[i].id > s.folders[i].parent.value
  }

  /** `t` is `s` with new rows at its end, all of them under `p` or under a new folder. */
  ghost predicate Grown(s: Store, t: Store, p: FolderId) {
    && s.folders <= t.folders && s.bookmarks <= t.bookmarks
    && t.nextFolder == s.nextFolder + (|t.folders| - |s.folders|)
    && (forall i | |s.folders| <= i < |t.folders| ::
          var f := t.folders[i];
          && f.id == s.nextFolder + (i - |s.folders|) && f.parent.Some?
          && (f.parent.value == p || s.nextFolder <= f.parent.value) && f.parent.value < f.id)
    && (forall i | |s.bookmarks| <= i < |t.bookmarks| ::
          t.bookmarks[i].parent == p || s.nextFolder <= t.bookmarks[i].parent < t.nextFolder)
  }

  lemma GrownTransitively(s: Store, t: Store, u: Store, p: FolderId, q: FolderId)
    requires Grown(s, t, p) && Grown(t, u, q) && (q == p || s.nextFolder <= q < t.nextFolder)
    ensures Grown(s, u, p)
  {
  }

  lemma GrownStaysTidy(s: Store, t: Store, p: FolderId, base: FolderId)
    requires Grown(s, t, p) && IdsBelow(s) && Tidy(s, base) && p < s.nextFolder
    ensures IdsBelow(t) && Tidy(t, base)
  {
  }

  lemma {:induction false} WriteGrows(s: Store, p: FolderId, nodes: seq<Node>, browser: string, now: Time)
    requires p < s.nextFolder
    ensures Grown(s, WriteNodes(s, p, nodes, browser, now), p)
    ensures |WriteNodes(s, p, nodes, browser, now).bookmarks| == |s.bookmarks| + CountBookmarks(nodes)
    decreases nodes
  {
    if nodes != [] {
      match nodes[0]
      case FolderNode(title, children) =>
        var s1 := CreateFolder(s, p, title);
        var s2 := WriteNodes(s1, s.nextFolder, children, browser, now);
        WriteGrows(s1, s.nextFolder, children, browser, now);
        GrownTransitively(s, s1, s2, p, s.nextFolder);
        WriteGrows(s2, p, nodes[1..], browser, now);
        GrownTransitively(s, s2, WriteNodes(s2, p, nodes[1..], browser, now), p, p);
      case BookmarkNode(title, address, _) =>
        var s1 := CreateBookmark(s, p, title, address, DateOf(nodes[0], now), Imported(browser));
        WriteGrows(s1, p, nodes[1..], browser, now);
        GrownTransitively(s, s1, WriteNodes(s1, p, nodes[1..], browser, now), p, p);
    }
  }

  // ---- rows under one folder ----

  lemma {:induction false} SubfoldersPrefix(a: seq<Folder>, b: seq<Folder>, id: FolderId)
    requires a <= b
    ensures Subfolders(a, id) <= Subfolders(b, id)
    ensures (forall i | |a| <= i < |b| :: b[i].parent != Some(id)) ==> Subfolders(b, id) == Subfolders(a, id)
  {
    if |a| == |b| {
      assert a == b;
    } else {
      SubfoldersPrefix(a, b[..|b| - 1], id);
    }
  }

  lemma {:induction false} BookmarksPrefix(a: seq<Bookmark>, b: seq<Bookmark>, id: FolderId)
    requires a <= b
    ensures BookmarksIn(a, id) <= BookmarksIn(b, id)
    ensures (forall i | |a| <= i < |b| :: b[i].parent != id) ==> BookmarksIn(b, id) == BookmarksIn(a, id)
  {
    if |a| == |b| {
      assert a == b;
    } else {
      BookmarksPrefix(a, b[..|b| - 1], id);
    }
  }

  lemma {:induction false} SubfoldersAreListed(folders: seq<Folder>, id: FolderId, k: nat)
    requires k < |Subfolders(folders, id)|
    ensures exists i :: 0 <= i < |folders| && folders[i] == Subfolders(folders, id)[k] && folders[i].parent == Some(id)
  {
    var init := folders[..|folders| - 1];
    if k < |Subfolders(init, id)| {
      SubfoldersAreListed(init, id, k);
      var i :| 0 <= i < |init| && init[i] == Subfolders(init, id)[k] && init[i].parent == Some(id);
      assert folders[i] == Subfolders(folders, id)[k];
    } else {
      assert folders[|folders| - 1] == Subfolders(folders, id)[k];
    }
  }

  /** Growth under `p` leaves what other, older folders hold. */
  lemma GrowthElsewhere(s: Store, t: Store, p: FolderId, id: FolderId)
    requires Grown(s, t, p) && id != p && id < s.nextFolder
    ensures Subfolders(t.folders, id) == Subfolders(s.folders, id)
    ensures BookmarksIn(t.bookmarks, id) == BookmarksIn(s.bookmarks, id)
  {
    SubfoldersPrefix(s.folders, t.folders, id);
    BookmarksPrefix(s.bookmarks, t.bookmarks, id);
  }

  /** A folder younger than `p` reads the same after growth under `p`. */
  lemma {:induction false} ReadsStays(s: Store, t: Store, p: FolderId, id: FolderId, nodes: seq<Node>, browser: string, now: Time,
                                      base: FolderId, nf: nat, nb: nat)
    requires Grown(s, t, p) && IdsBelow(s) && Tidy(s, base) && base <= id < s.nextFolder && p < id
    requires ReadsAsFrom(s, id, nodes, browser, now, nf, nb)
    ensures ReadsAsFrom(t, id, nodes, browser, now, nf, nb)
    decreases nodes
  {
    GrowthElsewhere(s, t, p, id);
    var folders := Subfolders(s.folders, id);
    forall k | 0 <= k < |FolderNodes(nodes)|
      ensures ReadsAsFrom(t, folders[nf + k].id, FolderNodes(nodes)[k].children, browser, now, 0, 0)
    {
      SubfoldersAreListed(s.folders, id, nf + k);
      ReadsStays(s, t, p, folders[nf + k].id, FolderNodes(nodes)[k].children, browser, now, base, 0, 0);
    }
  }

  lemma NewFolderIsEmpty(s: Store, p: FolderId, name: string)
    requires IdsBelow(s) && p < s.nextFolder
    ensures var t := CreateFolder(s, p, name);
            && Grown(s, t, p)
            && Subfolders(t.folders, s.nextFolder) == [] && BookmarksIn(t.bookmarks, s.nextFolder) == []
            && Subfolders(t.folders, p) == Subfolders(s.folders, p)
                                           + [Folder(s.nextFolder, Some(p), name, |Subfolders(s.folders, p)|)]
            && BookmarksIn(t.bookmarks, p) == BookmarksIn(s.bookmarks, p)
  {
    var t := CreateFolder(s, p, name);
    assert t.folders[..|t.folders| - 1] == s.folders;
    SubfoldersPrefix([], s.folders, s.nextFolder);
    BookmarksPrefix([], s.bookmarks, s.nextFolder);
  }

  /** The first of the nodes is a folder that reads as its children, and the rest read on from there. */
  lemma FolderThenRest(t: Store, p: FolderId, nodes: seq<Node>, browser: string, now: Time, nf: nat, nb: nat)
    requires nodes != [] && nodes[0].FolderNode?
    requires |Subfolders(t.folders, p)| > nf
    requires var f := Subfolders(t.folders, p)[nf];
             f.name == nodes[0].title && f.position == nf && ReadsAsFrom(t, f.id, nodes[0].children, browser, now, 0, 0)
    requires ReadsAsFrom(t, p, nodes[1..], browser, now, nf + 1, nb)
    ensures ReadsAsFrom(t, p, nodes, browser, now, nf, nb)
  {
  }

  lemma BookmarkThenRest(t: Store, p: FolderId, nodes: seq<Node>, browser: string, now: Time, nf: nat, nb: nat)
    requires nodes != [] && nodes[0].BookmarkNode?
    requires |BookmarksIn(t.bookmarks, p)| > nb && IsWritten(BookmarksIn(t.bookmarks, p)[nb], nodes[0], browser, now, nb)
    requires ReadsAsFrom(t, p, nodes[1..], browser, now, nf, nb + 1)
    ensures ReadsAsFrom(t, p, nodes, browser, now, nf, nb)
  {
    hide IsWritten;
    var bookmarks, nodes' := BookmarksIn(t.bookmarks, p), BookmarkNodes(nodes);
    assert nodes' == [nodes[0]] + BookmarkNodes(nodes[1..]) && FolderNodes(nodes) == FolderNodes(nodes[1..]);
    forall k | 0 <= k < |nodes'| ensures IsWritten(bookmarks[nb + k], nodes'[k], browser, now, nb + k) {
      if k > 0 {
        assert IsWritten(bookmarks[nb + 1 + (k - 1)], BookmarkNodes(nodes[1..])[k - 1], browser, now, nb + 1 + (k - 1));
      }
    }
  }

  /** Nodes written under `p` read back, after what `p` already held. */
  lemma {:induction false} WrittenReads(s: Store, p: FolderId, nodes: seq<Node>, browser: string, now: Time, base: FolderId)
    requires IdsBelow(s) && Tidy(s, base) && base <= s.nextFolder && p < s.nextFolder
    ensures ReadsAsFrom(WriteNodes(s, p, nodes, browser, now), p, nodes, browser, now,
                        |Subfolders(s.folders, p)|, |BookmarksIn(s.bookmarks, p)|)
    decreases nodes
  {
    hide ReadsAsFrom, Grown, IdsBelow, Tidy, IsWritten, Subfolders, BookmarksIn;
    var nf, nb := |Subfolders(s.folders, p)|, |BookmarksIn(s.bookmarks, p)|;
    if nodes == [] {
      NothingReadsAsNothing(s, p, browser, now);
    } else {
      match nodes[0]
      case FolderNode(title, children) =>
        var c := s.nextFolder;
        var s1 := CreateFolder(s, p, title);
        var s2 := WriteNodes(s1, c, children, browser, now);
        var s3 := WriteNodes(s2, p, nodes[1..], browser, now);
        NewFolderIsEmpty(s, p, title);
        GrownStaysTidy(s, s1, p, base);
        WrittenReads(s1, c, children, browser, now, base);
        WriteGrows(s1, c, children, browser, now);
        GrownStaysTidy(s1, s2, c, base);
        GrowthElsewhere(s1, s2, c, p);
        NextGrows(s1, s2, c);
        WrittenReads(s2, p, nodes[1..], browser, now, base);
        WriteGrows(s2, p, nodes[1..], browser, now);
        ReadsStays(s2, s3, p, c, children, browser, now, base, 0, 0);
        GrownPrefix(s2, s3, p);
        assert Subfolders(s3.folders, p)[nf] == Subfolders(s2.folders, p)[nf];
        FolderThenRest(s3, p, nodes, browser, now, nf, nb);
      case BookmarkNode(title, address, _) =>
        var s1 := CreateBookmark(s, p, title, address, DateOf(nodes[0], now), Imported(browser));
        var s2 := WriteNodes(s1, p, nodes[1..], browser, now);
        NewBookmarkIsLast(s, p, nodes[0], browser, now);
        GrownStaysTidy(s, s1, p, base);
        WrittenReads(s1, p, nodes[1..], browser, now, base);
        WriteGrows(s1, p, nodes[1..], browser, now);
        GrownPrefix(s1, s2, p);
        assert BookmarksIn(s2.bookmarks, p)[nb] == BookmarksIn(s1.bookmarks, p)[nb];
        BookmarkThenRest(s2, p, nodes, browser, now, nf, nb);
    }
  }

  lemma NothingReadsAsNothing(s: Store, p: FolderId, browser: string, now: Time)
    ensures ReadsAsFrom(s, p, [], browser, now, |Subfolders(s.folders, p)|, |BookmarksIn(s.bookmarks, p)|)
  {
  }

  lemma NextGrows(s: Store, t: Store, p: FolderId)
    requires Grown(s, t, p)
    ensures s.nextFolder <= t.nextFolder
  {
  }

  lemma GrownPrefix(s: Store, t: Store, p: FolderId)
    requires Grown(s, t, p)
    ensures Subfolders(s.folders, p) <= Subfolders(t.folders, p)
    ensures BookmarksIn(s.bookmarks, p) <= BookmarksIn(t.bookmarks, p)
  {
    SubfoldersPrefix(s.folders, t.folders, p);
    BookmarksPrefix(s.bookmarks, t.bookmarks, p);
  }

  lemma NewBookmarkIsLast(s: Store, p: FolderId, node: Node, browser: string, now: Time)
    requires p < s.nextFolder && node.BookmarkNode?
    ensures var t := CreateBookmark(s, p, node.title, node.address, DateOf(node, now), Imported(browser));
            && Grown(s, t, p)
            && Subfolders(t.folders, p) == Subfolders(s.folders, p)
            && |BookmarksIn(t.bookmarks, p)| == |BookmarksIn(s.bookmarks, p)| + 1
            && IsWritten(BookmarksIn(t.bookmarks, p)[|BookmarksIn(s.bookmarks, p)|], node, browser, now,
                         |BookmarksIn(s.bookmarks, p)|)
  {
  }
}
