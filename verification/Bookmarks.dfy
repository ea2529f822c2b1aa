/** The bookmark store: folders in one list, bookmarks in another. */
module Bookmarks {
  import opened Common

  type FolderId = nat
  type Time = int

  const ROOT: FolderId := 0

  datatype Source = Created | Imported(browser: string)

  datatype Folder = Folder(id: FolderId, parent: Option<FolderId>, name: string, position: nat)

  datatype Bookmark = Bookmark(id: nat, parent: FolderId, title: string, address: string, createdAt: Time,
                               source: Source, position: nat)

  datatype Store = Store(folders: seq<Folder>, bookmarks: seq<Bookmark>, nextFolder: FolderId, nextBookmark: nat)

  datatype Error = FolderNotFound(id: FolderId) | CannotModifyRoot | Unsaved

  predicate HasFolder(s: Store, id: FolderId) {
    exists i :: 0 <= i < |s.folders| && s.folders[i].id == id
  }

  /** A folder's folders, in the order they were made, which is the order of their positions where every
      one was made at the end. */
  function Subfolders(folders: seq<Folder>, parent: FolderId): seq<Folder> {
    if folders == [] then []
    else
      var earlier := Subfolders(folders[..|folders| - 1], parent);
      if folders[|folders| - 1].parent == Some(parent) then earlier + [folders[|folders| - 1]] else earlier
  }

  function BookmarksIn(bookmarks: seq<Bookmark>, parent: FolderId): seq<Bookmark> {
    if bookmarks == [] then []
    else
      var earlier := BookmarksIn(bookmarks[..|bookmarks| - 1], parent);
      if bookmarks[|bookmarks| - 1].parent == parent then earlier + [bookmarks[|bookmarks| - 1]] else earlier
  }

  function CreateFolder(s: Store, parent: FolderId, name: string): Store {
    s.(folders := s.folders + [Folder(s.nextFolder, Some(parent), name, |Subfolders(s.folders, parent)|)],
       nextFolder := s.nextFolder + 1)
  }

  function CreateBookmark(s: Store, parent: FolderId, title: string, address: string, createdAt: Time, source: Source): Store {
    s.(bookmarks := s.bookmarks + [Bookmark(s.nextBookmark, parent, title, address, createdAt, source,
                                            |BookmarksIn(s.bookmarks, parent)|)],
       nextBookmark := s.nextBookmark + 1)
  }

  // ---- what was read from another browser ----

  datatype Node =
    | FolderNode(title: string, children: seq<Node>)
    | BookmarkNode(title: string, address: string, addedAt: Option<Time>)

  function DateOf(node: Node, now: Time): Time
    requires node.BookmarkNode?
  {
    if node.addedAt.Some? then node.addedAt.value else now
  }

  /** What writing `nodes` under `parent` makes of a store. */
  function WriteNodes(s: Store, parent: FolderId, nodes: seq<Node>, browser: string, now: Time): Store
    decreases nodes
  {
    if nodes == [] then s
    else
      var s' :=
        match nodes[0]
        case FolderNode(title, children) => WriteNodes(CreateFolder(s, parent, title), s.nextFolder, children, browser, now)
        case BookmarkNode(title, address, _) =>
          CreateBookmark(s, parent, title, address, DateOf(nodes[0], now), Imported(browser));
      WriteNodes(s', parent, nodes[1..], browser, now)
  }

  /** How many bookmarks a forest holds, not counting folders. */
  function CountBookmarks(nodes: seq<Node>): nat
    decreases nodes
  {
    if nodes == [] then 0
    else
      (match nodes[0] case FolderNode(_, children) => CountBookmarks(children) case BookmarkNode(_, _, _) => 1)
      + CountBookmarks(nodes[1..])
  }

  // ---- reading a store back ----

  function FolderNodes(nodes: seq<Node>): (folders: seq<Node>)
    ensures forall k | 0 <= k < |folders| :: folders[k].FolderNode? && folders[k] in nodes
    ensures |folders| <= |nodes|
  {
    if nodes == [] then []
    else
      var rest := FolderNodes(nodes[1..]);
      if nodes[0].FolderNode? then [nodes[0]] + rest else rest
  }

  function BookmarkNodes(nodes: seq<Node>): (bookmarks: seq<Node>)
    ensures forall k | 0 <= k < |bookmarks| :: bookmarks[k].BookmarkNode? && bookmarks[k] in nodes
    ensures |bookmarks| <= |nodes|
  {
    if nodes == [] then []
    else
      var rest := BookmarkNodes(nodes[1..]);
      if nodes[0].BookmarkNode? then [nodes[0]] + rest else rest
  }

  /** A stored bookmark is the one `node` was written as, in place `position`. */
  predicate IsWritten(b: Bookmark, node: Node, browser: string, now: Time, position: nat)
    requires node.BookmarkNode?
  {
    && b.title == node.title && b.address == node.address && b.createdAt == (if node.addedAt.Some? then node.addedAt.value else now)
    && b.source == Imported(browser) && b.position == position
  }

  /** From its `nf`th folder and `nb`th bookmark on, folder `id` reads as `nodes`: the same folders in the same
      order, the same bookmarks in the same order, in consecutive places, and so on below. */
  ghost predicate ReadsAsFrom(s: Store, id: FolderId, nodes: seq<Node>, browser: string, now: Time, nf: nat, nb: nat)
    decreases nodes, 1
  {
    var folders, bookmarks := Subfolders(s.folders, id), BookmarksIn(s.bookmarks, id);
    && |folders| == nf + |FolderNodes(nodes)| && |bookmarks| == nb + |BookmarkNodes(nodes)|
    && (forall k | 0 <= k < |BookmarkNodes(nodes)| ::
          IsWritten(bookmarks[nb + k], BookmarkNodes(nodes)[k], browser, now, nb + k))
    && (forall k | 0 <= k < |FolderNodes(nodes)| ::
          && folders[nf + k].name == FolderNodes(nodes)[k].title
          && folders[nf + k].position == nf + k
          && ReadsAsFrom(s, folders[nf + k].id, FolderNodes(nodes)[k].children, browser, now, 0, 0))
  }

  ghost predicate ReadsAs(s: Store, id: FolderId, nodes: seq<Node>, browser: string, now: Time) {
    ReadsAsFrom(s, id, nodes, browser, now, 0, 0)
  }
}
