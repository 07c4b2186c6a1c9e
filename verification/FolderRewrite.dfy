/** Renaming and moving: the subtree rewrite as a function on the table, and why
    it keeps the path index, never collides on the way and can be undone. */
module FolderRewrite {
  import opened Wrappers
  import opened PathStrings
  import opened FolderTree

  /** The rows `startsWith(oldPath + '/')` selects. */
  predicate Selected(t: Table, id: FolderId, a: FolderId)
    requires id in t && a in t
  {
    t[id].path + "/" <= t[a].path
  }

  /** A selected row's path with the folder's path swapped for newPath. */
  function Swapped(t: Table, id: FolderId, newPath: string, a: FolderId): string
    requires id in t && a in t && Selected(t, id, a)
  {
    newPath + t[a].path[|t[id].path|..]
  }

  /** The table after the whole transaction. */
  function Rewritten(t: Table, id: FolderId, row: Folder): Table
    requires id in t
  {
    map a | a in t ::
      if a == id then row
      else if Selected(t, id, a) then t[a].(path := Swapped(t, id, row.path, a))
      else t[a]
  }

  /** The table in the middle of the transaction: the folder and the rows in
      done are rewritten, the others still wait. */
  function Partial(t: Table, id: FolderId, row: Folder, done: set<FolderId>): Table
    requires id in t
  {
    map a | a in t :: if a == id || a in done then Rewritten(t, id, row)[a] else t[a]
  }

  ghost predicate Free(t: Table, id: FolderId, path: string) {
    forall a :: a in t && t[a].path == path ==> a == id
  }

  /** A legal new row: owner kept, safe name, and a place outside the subtree
      whose path plus the name is the new path. */
  ghost predicate Placed(t: Table, id: FolderId, row: Folder)
    requires Indexed(t) && id in t
  {
    && SafeName(row.name)
    && row.ownerId == t[id].ownerId
    && match row.parentId {
         case None => row.path == row.name
         case Some(q) =>
           q in t && q != id && !Below(t, q, id)
           && t[q].ownerId == row.ownerId && row.path == t[q].path + "/" + row.name
       }
  }

  /** Nothing outside the subtree lives at or under the new path. */
  lemma NothingUnderFreePath(t: Table, id: FolderId, row: Folder, a: FolderId)
    requires Indexed(t) && id in t && Placed(t, id, row) && Free(t, id, row.path)
    requires a in t && row.path + "/" <= t[a].path
    ensures row.path == t[id].path && Selected(t, id, a)
  {
    var b := PrefixIsAncestor(t, a, row.path);
    assert b == id;
  }

  /** A rewritten row's path is taken by no other row, rewritten or waiting. */
  lemma NeverCollides(t: Table, id: FolderId, row: Folder, done: set<FolderId>, a: FolderId, b: FolderId)
    requires Indexed(t) && id in t && Placed(t, id, row) && Free(t, id, row.path)
    requires a in t && b in t && a != b && (a == id || Selected(t, id, a))
    ensures Rewritten(t, id, row)[a].path != Partial(t, id, row, done)[b].path
  {
    assert t[b].path != t[a].path;
    RewrittenPath(t, id, row, a);
    if (b == id || b in done) && (b == id || Selected(t, id, b)) {
      // both rewritten: the old paths differ behind the common prefix
      RewrittenPath(t, id, row, b);
      SwapIsInjective(t, id, row.path, a, b);
    } else if a != id {
      StaysAway(t, id, row, a, b);
    }
  }

  lemma RewrittenPath(t: Table, id: FolderId, row: Folder, a: FolderId)
    requires id in t && a in t && (a == id || Selected(t, id, a))
    ensures Rewritten(t, id, row)[a].path == row.path + t[a].path[|t[id].path|..]
  {
    if a == id { assert row.path + t[a].path[|t[id].path|..] == row.path; }
  }

  /** A swapped path is not the old path of any other row. */
  lemma StaysAway(t: Table, id: FolderId, row: Folder, a: FolderId, b: FolderId)
    requires Indexed(t) && id in t && Placed(t, id, row) && Free(t, id, row.path)
    requires a in t && b in t && a != b && Selected(t, id, a)
    ensures Swapped(t, id, row.path, a) != t[b].path
  {
    SwapKeepsSlash(t, id, row.path, a);
    if row.path + "/" <= t[b].path {
      NothingUnderFreePath(t, id, row, b);
      SwapBack(t[id].path, row.path, t[a].path);
    }
  }

  lemma SwapBack(was: string, now: string, path: string)
    requires was <= path
    ensures was + path[|was|..] == path
    ensures was + (now + path[|was|..])[|now|..] == path
  {
    assert (now + path[|was|..])[|now|..] == path[|was|..];
  }

  lemma SwapKeepsSlash(t: Table, id: FolderId, newPath: string, a: FolderId)
    requires id in t && a in t && Selected(t, id, a)
    ensures newPath + "/" <= Swapped(t, id, newPath, a)
  {
    assert t[a].path[|t[id].path|] == '/';
  }

  lemma SwapIsInjective(t: Table, id: FolderId, newPath: string, a: FolderId, b: FolderId)
    requires id in t && a in t && b in t && t[a].path != t[b].path
    requires a == id || Selected(t, id, a)
    requires b == id || Selected(t, id, b)
    ensures newPath + t[a].path[|t[id].path|..] != newPath + t[b].path[|t[id].path|..]
  {
    var was := t[id].path;
    assert t[a].path == was + t[a].path[|was|..] && t[b].path == was + t[b].path[|was|..];
    var x, y := newPath + t[a].path[|was|..], newPath + t[b].path[|was|..];
    assert x[|newPath|..] == t[a].path[|was|..] && y[|newPath|..] == t[b].path[|was|..];
  }

  // ----- the index is kept ------------------------------------------------------------

  /** A folder is selected exactly when its parent is the folder or selected. */
  lemma SelectedWithParent(t: Table, id: FolderId, a: FolderId, p: FolderId)
    requires Indexed(t) && id in t && a in t && t[a].parentId == Some(p)
    ensures p in t && (Selected(t, id, a) <==> p == id || Selected(t, id, p))
  {
    assert FolderOk(t, a);
    if Selected(t, id, a) { PrefixOfJoined(t[id].path, t[p].path, t[a].name); }
  }

  lemma SwapAppend(was: string, now: string, parent: string, name: string)
    requires was <= parent
    ensures now + (parent + "/" + name)[|was|..] == now + parent[|was|..] + "/" + name
  {
    assert (parent + "/" + name)[|was|..] == parent[|was|..] + "/" + name;
  }

  lemma RewriteKeepsFolder(t: Table, id: FolderId, row: Folder, a: FolderId)
    requires Indexed(t) && id in t && Placed(t, id, row) && a in t && a != id
    ensures FolderOk(Rewritten(t, id, row), a)
  {
    assert FolderOk(t, a);
    match t[a].parentId
    case None => NoSlashNoPrefix(t[id].path, t[a].name);
    case Some(p) =>
      SelectedWithParent(t, id, a, p);
      if Selected(t, id, a) { RewriteMovesWithParent(t, id, row, a, p); }
  }

  lemma RewriteMovesWithParent(t: Table, id: FolderId, row: Folder, a: FolderId, p: FolderId)
    requires id in t && a in t && p in t && a != id && Selected(t, id, a) && (p == id || Selected(t, id, p))
    requires t[a].path == t[p].path + "/" + t[a].name
    ensures Rewritten(t, id, row)[a].path == Rewritten(t, id, row)[p].path + "/" + t[a].name
  {
    var was := t[id].path;
    assert was <= t[p].path;
    SwapAppend(was, row.path, t[p].path, t[a].name);
    if p == id { assert row.path + t[p].path[|was|..] == row.path; }
  }

  lemma RewriteKeepsRoot(t: Table, id: FolderId, row: Folder)
    requires Indexed(t) && id in t && Placed(t, id, row)
    ensures FolderOk(Rewritten(t, id, row), id)
  {
    if row.parentId.Some? { BelowIffPrefix(t, row.parentId.value, id); }
  }

  lemma RewriteKeepsUnique(t: Table, id: FolderId, row: Folder, a: FolderId, b: FolderId)
    requires Indexed(t) && id in t && Placed(t, id, row) && Free(t, id, row.path)
    requires a in t && b in t && a != b
    ensures Rewritten(t, id, row)[a].path != Rewritten(t, id, row)[b].path
  {
    assert Partial(t, id, row, t.Keys) == Rewritten(t, id, row);
    if a == id || Selected(t, id, a) { NeverCollides(t, id, row, t.Keys, a, b); }
    else if b == id || Selected(t, id, b) { NeverCollides(t, id, row, t.Keys, b, a); }
  }

  /** Main result: a rewrite to a free, legal place keeps the path index. */
  lemma RewriteKeepsIndex(t: Table, id: FolderId, row: Folder)
    requires Indexed(t) && id in t && Placed(t, id, row) && Free(t, id, row.path)
    ensures Indexed(Rewritten(t, id, row))
  {
    var after := Rewritten(t, id, row);
    forall a | a in after ensures FolderOk(after, a) {
      if a == id { RewriteKeepsRoot(t, id, row); } else { RewriteKeepsFolder(t, id, row, a); }
    }
    forall a, b | a in after && b in after && after[a].path == after[b].path ensures a == b {
      if a != b { RewriteKeepsUnique(t, id, row, a, b); }
    }
  }

  /** The rewrite touches exactly the folder and its strict descendants in the
      tree; a descendant keeps everything but its path, and its path relative to
      the folder. */
  lemma RewriteIsExact(t: Table, id: FolderId, row: Folder, a: FolderId)
    requires Indexed(t) && id in t && a in t
    ensures a == id ==> Rewritten(t, id, row)[a] == row
    ensures a != id && Below(t, a, id) ==>
      exists relative :: t[a].path == t[id].path + "/" + relative
        && Rewritten(t, id, row)[a] == t[a].(path := row.path + "/" + relative)
    ensures a != id && !Below(t, a, id) ==> Rewritten(t, id, row)[a] == t[a]
  {
    BelowIffPrefix(t, a, id);
    if a != id && Below(t, a, id) { SwapKeepsRelative(t[id].path, row.path, t[a].path); }
  }

  lemma SwapKeepsRelative(was: string, now: string, path: string)
    requires was + "/" <= path
    ensures exists relative :: path == was + "/" + relative && now + path[|was|..] == now + "/" + relative
  {
    var relative := path[|was| + 1..];
    assert path == was + "/" + relative && path[|was|..] == "/" + relative;
    assert now + path[|was|..] == now + "/" + relative;
  }

  // ----- and it can be undone -------------------------------------------------------

  /** The rows selected afterwards are the rows selected before. */
  lemma SelectionIsKept(t: Table, id: FolderId, row: Folder, a: FolderId)
    requires Indexed(t) && id in t && Placed(t, id, row) && Free(t, id, row.path) && a in t && a != id
    ensures Selected(Rewritten(t, id, row), id, a) <==> Selected(t, id, a)
  {
    if Selected(t, id, a) { SwapKeepsSlash(t, id, row.path, a); }
    else if row.path + "/" <= t[a].path { NothingUnderFreePath(t, id, row, a); }
  }

  lemma RewriteBackRestoresRow(t: Table, id: FolderId, row: Folder, a: FolderId)
    requires Indexed(t) && id in t && Placed(t, id, row) && Free(t, id, row.path) && a in t && a != id
    ensures Rewritten(Rewritten(t, id, row), id, t[id])[a] == t[a]
  {
    SelectionIsKept(t, id, row, a);
    if Selected(t, id, a) {
      assert t[id].path <= t[a].path;
      SwapBack(t[id].path, row.path, t[a].path);
    }
  }

  /** Rewriting back to the old row restores the whole table. */
  lemma RewriteBackRestores(t: Table, id: FolderId, row: Folder)
    requires Indexed(t) && id in t && Placed(t, id, row) && Free(t, id, row.path)
    ensures Rewritten(Rewritten(t, id, row), id, t[id]) == t
  {
    forall a | a in t && a != id ensures Rewritten(Rewritten(t, id, row), id, t[id])[a] == t[a] {
      RewriteBackRestoresRow(t, id, row, a);
    }
  }

  /** After the rewrite only the folder itself could stand in the old path's way. */
  lemma OldPathIsFreeAgain(t: Table, id: FolderId, row: Folder)
    requires Indexed(t) && id in t && Placed(t, id, row) && Free(t, id, row.path)
    ensures Free(Rewritten(t, id, row), id, t[id].path)
  {
    var there := Rewritten(t, id, row);
    forall a | a in there && there[a].path == t[id].path ensures a == id {
      if a != id && Selected(t, id, a) {
        SwapKeepsSlash(t, id, row.path, a);
        NothingUnderFreePath(t, id, row, id);
      }
    }
  }
}
