/** How much of a forest's order the bookmark store keeps. */
module BookmarkOrder {
  import opened Common
  import opened Bookmarks
  import opened BookmarkLaws

  function Stamp(node: Node, now: Time): Node
    requires node.BookmarkNode?
  {
    BookmarkNode(node.title, node.address, Some(DateOf(node, now)))
  }

  /** `nodes` in their own order, every date set. */
  function Dated(nodes: seq<Node>, now: Time): seq<Node>
    decreases nodes
  {
    seq(|nodes|, i requires 0 <= i < |nodes| =>
      if nodes[i].FolderNode? then FolderNode(nodes[i].title, Dated(nodes[i].children, now)) else Stamp(nodes[i], now))
  }

  /** What the store keeps of `nodes`: each level's folders in their order and its bookmarks in theirs. */
  function AsStored(nodes: seq<Node>, now: Time): seq<Node>
    decreases nodes, 1
  {
    StoredFolders(nodes, now) + StoredBookmarks(nodes, now)
  }

  function StoredFolders(nodes: seq<Node>, now: Time): seq<Node>
    decreases nodes, 0
  {
    var folders := FolderNodes(nodes);
    seq(|folders|, k requires 0 <= k < |folders| => FolderNode(folders[k].title, AsStored(folders[k].children, now)))
  }

  function StoredBookmarks(nodes: seq<Node>, now: Time): seq<Node> {
    var bookmarks := BookmarkNodes(nodes);
    seq(|bookmarks|, k requires 0 <= k < |bookmarks| => Stamp(bookmarks[k], now))
  }

  /** The same, with each level's bookmarks before its folders. */
  function Turned(nodes: seq<Node>, now: Time): seq<Node>
    decreases nodes, 1
  {
    StoredBookmarks(nodes, now) + TurnedFolders(nodes, now)
  }

  function TurnedFolders(nodes: seq<Node>, now: Time): seq<Node>
    decreases nodes, 0
  {
    var folders := FolderNodes(nodes);
    seq(|folders|, k requires 0 <= k < |folders| => FolderNode(folders[k].title, Turned(folders[k].children, now)))
  }

  /** No level holds both a folder and a bookmark. */
  predicate Unmixed(nodes: seq<Node>)
    decreases nodes
  {
    && (FolderNodes(nodes) == [] || BookmarkNodes(nodes) == [])
    && forall k | 0 <= k < |FolderNodes(nodes)| :: Unmixed(FolderNodes(nodes)[k].children)
  }

  // ---- telling the two kinds apart ----

  lemma {:induction false} OneKind(nodes: seq<Node>)
    ensures BookmarkNodes(nodes) == [] <==> FolderNodes(nodes) == nodes
    ensures FolderNodes(nodes) == [] <==> BookmarkNodes(nodes) == nodes
  {
    if nodes != [] {
      OneKind(nodes[1..]);
    }
  }

  lemma {:induction false} PartsOfJoined(a: seq<Node>, b: seq<Node>)
    ensures FolderNodes(a + b) == FolderNodes(a) + FolderNodes(b)
    ensures BookmarkNodes(a + b) == BookmarkNodes(a) + BookmarkNodes(b)
  {
    if a == [] {
      assert a + b == b;
    } else {
      assert (a + b)[1..] == a[1..] + b;
      PartsOfJoined(a[1..], b);
    }
  }

  lemma {:induction false} AllFolders(nodes: seq<Node>)
    requires forall k | 0 <= k < |nodes| :: nodes[k].FolderNode?
    ensures FolderNodes(nodes) == nodes && BookmarkNodes(nodes) == []
  {
    if nodes != [] {
      AllFolders(nodes[1..]);
    }
  }

  lemma {:induction false} AllBookmarks(nodes: seq<Node>)
    requires forall k | 0 <= k < |nodes| :: nodes[k].BookmarkNode?
    ensures BookmarkNodes(nodes) == nodes && FolderNodes(nodes) == []
  {
    if nodes != [] {
      AllBookmarks(nodes[1..]);
    }
  }

  lemma PartsOfStored(nodes: seq<Node>, now: Time)
    ensures FolderNodes(AsStored(nodes, now)) == StoredFolders(nodes, now)
    ensures BookmarkNodes(AsStored(nodes, now)) == StoredBookmarks(nodes, now)
    ensures FolderNodes(Turned(nodes, now)) == TurnedFolders(nodes, now)
    ensures BookmarkNodes(Turned(nodes, now)) == StoredBookmarks(nodes, now)
  {
    AllFolders(StoredFolders(nodes, now));
    AllFolders(TurnedFolders(nodes, now));
    AllBookmarks(StoredBookmarks(nodes, now));
    PartsOfJoined(StoredFolders(nodes, now), StoredBookmarks(nodes, now));
    PartsOfJoined(StoredBookmarks(nodes, now), TurnedFolders(nodes, now));
  }

  // ---- which forests a folder reads as ----

  lemma {:induction false} ReadingIsUnique(s: Store, id: FolderId, a: seq<Node>, b: seq<Node>, browser: string, now: Time)
    requires ReadsAs(s, id, a, browser, now) && ReadsAs(s, id, b, browser, now)
    ensures AsStored(a, now) == AsStored(b, now)
    decreases a
  {
    forall k | 0 <= k < |FolderNodes(a)| ensures StoredFolders(a, now)[k] == StoredFolders(b, now)[k] {
      var id' := Subfolders(s.folders, id)[0 + k].id;
      ReadingIsUnique(s, id', FolderNodes(a)[k].children, FolderNodes(b)[k].children, browser, now);
    }
    forall k | 0 <= k < |BookmarkNodes(a)| ensures StoredBookmarks(a, now)[k] == StoredBookmarks(b, now)[k] {
      assert IsWritten(BookmarksIn(s.bookmarks, id)[0 + k], BookmarkNodes(a)[k], browser, now, 0 + k);
      assert IsWritten(BookmarksIn(s.bookmarks, id)[0 + k], BookmarkNodes(b)[k], browser, now, 0 + k);
    }
    assert StoredFolders(a, now) == StoredFolders(b, now);
    assert StoredBookmarks(a, now) == StoredBookmarks(b, now);
  }

  lemma {:induction false} StoredAlikeReadsAlike(s: Store, id: FolderId, a: seq<Node>, b: seq<Node>, browser: string, now: Time)
    requires ReadsAs(s, id, a, browser, now) && AsStored(a, now) == AsStored(b, now)
    ensures ReadsAs(s, id, b, browser, now)
    decreases a
  {
    PartsOfStored(a, now);
    PartsOfStored(b, now);
    forall k | 0 <= k < |FolderNodes(b)|
      ensures FolderNodes(b)[k].title == FolderNodes(a)[k].title
      ensures ReadsAs(s, Subfolders(s.folders, id)[0 + k].id, FolderNodes(b)[k].children, browser, now)
    {
      assert StoredFolders(a, now)[k] == StoredFolders(b, now)[k];
      StoredAlikeReadsAlike(s, Subfolders(s.folders, id)[0 + k].id, FolderNodes(a)[k].children, FolderNodes(b)[k].children,
                            browser, now);
    }
    forall k | 0 <= k < |BookmarkNodes(b)|
      ensures IsWritten(BookmarksIn(s.bookmarks, id)[0 + k], BookmarkNodes(b)[k], browser, now, 0 + k)
    {
      assert StoredBookmarks(a, now)[k] == StoredBookmarks(b, now)[k];
      assert IsWritten(BookmarksIn(s.bookmarks, id)[0 + k], BookmarkNodes(a)[k], browser, now, 0 + k);
    }
  }

  /** A folder that reads as one forest reads as another exactly when the store keeps the same of both. */
  lemma ReadsAlikeIff(s: Store, id: FolderId, a: seq<Node>, b: seq<Node>, browser: string, now: Time)
    requires ReadsAs(s, id, a, browser, now)
    ensures ReadsAs(s, id, b, browser, now) <==> AsStored(a, now) == AsStored(b, now)
  {
    if ReadsAs(s, id, b, browser, now) {
      ReadingIsUnique(s, id, a, b, browser, now);
    } else if AsStored(a, now) == AsStored(b, now) {
      StoredAlikeReadsAlike(s, id, a, b, browser, now);
    }
  }

  // ---- whether the order of a forest is among what the store keeps ----

  lemma {:induction false} StoredAsItself(nodes: seq<Node>, now: Time)
    ensures AsStored(AsStored(nodes, now), now) == AsStored(nodes, now)
    ensures AsStored(Turned(nodes, now), now) == AsStored(nodes, now)
    decreases nodes
  {
    PartsOfStored(nodes, now);
    forall k | 0 <= k < |FolderNodes(nodes)|
      ensures AsStored(StoredFolders(nodes, now)[k].children, now) == StoredFolders(nodes, now)[k].children
      ensures AsStored(TurnedFolders(nodes, now)[k].children, now) == StoredFolders(nodes, now)[k].children
    {
      StoredAsItself(FolderNodes(nodes)[k].children, now);
    }
    assert StoredBookmarks(AsStored(nodes, now), now) == StoredBookmarks(nodes, now);
    assert StoredBookmarks(Turned(nodes, now), now) == StoredBookmarks(nodes, now);
    assert StoredFolders(AsStored(nodes, now), now) == StoredFolders(nodes, now);
    assert StoredFolders(Turned(nodes, now), now) == StoredFolders(nodes, now);
  }

  lemma {:induction false} StoredIsDated(nodes: seq<Node>, now: Time)
    ensures Dated(AsStored(nodes, now), now) == AsStored(nodes, now)
    ensures Dated(Turned(nodes, now), now) == Turned(nodes, now)
    decreases nodes
  {
    forall k | 0 <= k < |FolderNodes(nodes)|
      ensures Dated(StoredFolders(nodes, now)[k].children, now) == StoredFolders(nodes, now)[k].children
      ensures Dated(TurnedFolders(nodes, now)[k].children, now) == TurnedFolders(nodes, now)[k].children
    {
      StoredIsDated(FolderNodes(nodes)[k].children, now);
    }
    assert Dated(AsStored(nodes, now), now) == AsStored(nodes, now);
    assert Dated(Turned(nodes, now), now) == Turned(nodes, now);
  }

  lemma {:induction false} UnmixedIsKept(nodes: seq<Node>, now: Time)
    requires Unmixed(nodes)
    ensures Dated(nodes, now) == AsStored(nodes, now)
    decreases nodes
  {
    OneKind(nodes);
    forall k | 0 <= k < |FolderNodes(nodes)|
      ensures Dated(FolderNodes(nodes)[k].children, now) == AsStored(FolderNodes(nodes)[k].children, now)
    {
      UnmixedIsKept(FolderNodes(nodes)[k].children, now);
    }
    if FolderNodes(nodes) == nodes {
      assert Dated(nodes, now) == StoredFolders(nodes, now);
    } else {
      assert Dated(nodes, now) == StoredBookmarks(nodes, now);
    }
  }

  lemma {:induction false} StoredAlikeUnmixed(a: seq<Node>, b: seq<Node>, now: Time)
    requires Unmixed(a) && AsStored(a, now) == AsStored(b, now)
    ensures Unmixed(b)
    decreases a
  {
    PartsOfStored(a, now);
    PartsOfStored(b, now);
    forall k | 0 <= k < |FolderNodes(b)| ensures Unmixed(FolderNodes(b)[k].children) {
      assert StoredFolders(a, now)[k] == StoredFolders(b, now)[k];
      StoredAlikeUnmixed(FolderNodes(a)[k].children, FolderNodes(b)[k].children, now);
    }
    assert |StoredFolders(a, now)| == |FolderNodes(a)| && |StoredFolders(b, now)| == |FolderNodes(b)|;
    assert |StoredBookmarks(a, now)| == |BookmarkNodes(a)| && |StoredBookmarks(b, now)| == |BookmarkNodes(b)|;
  }

  lemma FirstOfStored(nodes: seq<Node>, now: Time)
    ensures FolderNodes(nodes) != [] ==> AsStored(nodes, now) != [] && AsStored(nodes, now)[0].FolderNode?
    ensures BookmarkNodes(nodes) != [] ==> Turned(nodes, now) != [] && Turned(nodes, now)[0].BookmarkNode?
  {
  }

  /** Turning every level round changes a forest with a mixed one. */
  lemma {:induction false} TurnedAlikeIsUnmixed(nodes: seq<Node>, now: Time)
    requires AsStored(nodes, now) == Turned(nodes, now)
    ensures Unmixed(nodes)
    decreases nodes
  {
    FirstOfStored(nodes, now);
    PartsOfStored(nodes, now);
    forall k | 0 <= k < |FolderNodes(nodes)| ensures Unmixed(FolderNodes(nodes)[k].children) {
      assert StoredFolders(nodes, now)[k] == TurnedFolders(nodes, now)[k];
      TurnedAlikeIsUnmixed(FolderNodes(nodes)[k].children, now);
    }
  }

  /** The order of a forest survives in a store holding it, whichever way it is read, exactly when no level mixes
      folders and bookmarks. */
  lemma OrderSurvivesIffUnmixed(s: Store, id: FolderId, nodes: seq<Node>, browser: string, now: Time)
    requires ReadsAs(s, id, nodes, browser, now)
    ensures (forall b | ReadsAs(s, id, b, browser, now) :: Dated(b, now) == Dated(nodes, now)) <==> Unmixed(nodes)
  {
    hide AsStored, Turned, Dated, Unmixed, ReadsAs;
    if Unmixed(nodes) {
      forall b | ReadsAs(s, id, b, browser, now) ensures Dated(b, now) == Dated(nodes, now) {
        ReadsAlikeIff(s, id, nodes, b, browser, now);
        StoredAlikeUnmixed(nodes, b, now);
        UnmixedIsKept(nodes, now);
        UnmixedIsKept(b, now);
      }
    } else if forall b | ReadsAs(s, id, b, browser, now) :: Dated(b, now) == Dated(nodes, now) {
      StoredAsItself(nodes, now);
      StoredIsDated(nodes, now);
      ReadsAlikeIff(s, id, nodes, AsStored(nodes, now), browser, now);
      ReadsAlikeIff(s, id, nodes, Turned(nodes, now), browser, now);
      TurnedAlikeIsUnmixed(nodes, now);
    }
  }

  /** The interleaving is lost: a bookmark before a folder and the folder before the bookmark read back alike. */
  lemma InterleavingIsLost(s: Store, id: FolderId, f: Node, m: Node, browser: string, now: Time)
    requires f.FolderNode? && m.BookmarkNode?
    ensures ReadsAs(s, id, [m, f], browser, now) <==> ReadsAs(s, id, [f, m], browser, now)
  {
    assert [m, f][1..] == [f] && [f, m][1..] == [m] && [f][1..] == [] && [m][1..] == [];
    assert FolderNodes([m, f]) == FolderNodes([f, m]) == [f];
    assert BookmarkNodes([m, f]) == BookmarkNodes([f, m]) == [m];
  }
}
