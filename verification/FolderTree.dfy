/** The folder table: a parentId tree that also stores every folder's full path.
    The path index invariant and what it makes of prefixes. */
module FolderTree {
  import opened Wrappers
  import opened PathStrings

  type FolderId = int
  type OwnerId = int

  datatype Folder = Folder(name: string, path: string, parentId: Option<FolderId>, ownerId: OwnerId, isPublic: bool)

  type Table = map<FolderId, Folder>

  /** One folder's path is its parent's path, a slash and its own name. */
  ghost predicate FolderOk(t: Table, id: FolderId)
    requires id in t
  {
    var f := t[id];
    && SafeName(f.name)
    && match f.parentId {
         case None => f.path == f.name
         case Some(p) => p in t && f.path == t[p].path + "/" + f.name && f.ownerId == t[p].ownerId
       }
  }

  ghost predicate UniquePaths(t: Table) {
    forall a, b :: a in t && b in t && t[a].path == t[b].path ==> a == b
  }

  /** The path index invariant. */
  ghost predicate Indexed(t: Table) {
    (forall id {:trigger FolderOk(t, id)} :: id in t ==> FolderOk(t, id)) && UniquePaths(t)
  }

  /** a is a strict descendant of b along parentId. */
  ghost predicate Below(t: Table, a: FolderId, b: FolderId)
    requires Indexed(t) && a in t
    decreases |t[a].path|
  {
    assert FolderOk(t, a);
    t[a].parentId.Some? && (t[a].parentId.value == b || Below(t, t[a].parentId.value, b))
  }

  /** The names from the root down to the folder. */
  ghost function NamesFromRoot(t: Table, id: FolderId): (names: seq<string>)
    requires Indexed(t) && id in t
    ensures |names| > 0
    decreases |t[id].path|
  {
    assert FolderOk(t, id);
    match t[id].parentId
    case None => [t[id].name]
    case Some(p) => NamesFromRoot(t, p) + [t[id].name]
  }

  /** Every stored path is the '/'-join of the names up the parentId chain. */
  lemma {:induction false} PathIsJoinOfNames(t: Table, id: FolderId)
    requires Indexed(t) && id in t
    ensures t[id].path == Join(NamesFromRoot(t, id))
    decreases |t[id].path|
  {
    assert FolderOk(t, id);
    if t[id].parentId.Some? {
      var p := t[id].parentId.value;
      PathIsJoinOfNames(t, p);
      var names := NamesFromRoot(t, p) + [t[id].name];
      assert names[..|names| - 1] == NamesFromRoot(t, p);
    }
  }

  lemma {:induction false} BelowIsLonger(t: Table, a: FolderId, b: FolderId)
    requires Indexed(t) && a in t && Below(t, a, b)
    ensures b in t && t[b].path + "/" <= t[a].path && t[b].ownerId == t[a].ownerId
    decreases |t[a].path|
  {
    assert FolderOk(t, a);
    var p := t[a].parentId.value;
    if p != b { BelowIsLonger(t, p, b); }
  }

  /** No folder is its own ancestor. */
  lemma ParentGraphIsAcyclic(t: Table, id: FolderId)
    requires Indexed(t) && id in t
    ensures !Below(t, id, id)
  {
    if Below(t, id, id) { BelowIsLonger(t, id, id); }
  }

  /** Where a prefix ending at a slash can end inside parent + "/" + name. */
  lemma PrefixOfJoined(p: string, parent: string, name: string)
    requires '/' !in name && p + "/" <= parent + "/" + name
    ensures p == parent || p + "/" <= parent
  {
    var path := parent + "/" + name;
    assert path[|p|] == '/' && p == path[..|p|];
    forall i | |parent| < i < |path| ensures path[i] != '/' {
      assert path[i] == name[i - |parent| - 1];
    }
    if |p| < |parent| {
      assert p + "/" == path[..|p| + 1];
      assert path[..|p| + 1] == parent[..|p| + 1];
    }
  }

  lemma NoSlashNoPrefix(p: string, name: string)
    requires '/' !in name
    ensures !(p + "/" <= name)
  {
    assert (p + "/")[|p|] == '/';
    if |p| < |name| { assert name[|p|] in name; }
  }

  /** Any slash-terminated prefix of a stored path is the path of an ancestor. */
  lemma {:induction false} PrefixIsAncestor(t: Table, a: FolderId, p: string) returns (b: FolderId)
    requires Indexed(t) && a in t && p + "/" <= t[a].path
    ensures b in t && t[b].path == p && Below(t, a, b)
    decreases |t[a].path|
  {
    assert FolderOk(t, a);
    match t[a].parentId
    case None =>
      NoSlashNoPrefix(p, t[a].name);
      b := a;
    case Some(q) =>
      PrefixOfJoined(p, t[q].path, t[a].name);
      if t[q].path == p { b := q; } else { b := PrefixIsAncestor(t, q, p); }
  }

  /** The index answers ancestry: a prefix test is a walk up the tree. */
  lemma BelowIffPrefix(t: Table, a: FolderId, b: FolderId)
    requires Indexed(t) && a in t && b in t
    ensures Below(t, a, b) <==> t[b].path + "/" <= t[a].path
  {
    if Below(t, a, b) { BelowIsLonger(t, a, b); }
    if t[b].path + "/" <= t[a].path { var c := PrefixIsAncestor(t, a, t[b].path); }
  }

  lemma PathsAreNotEmpty(t: Table, id: FolderId)
    requires Indexed(t) && id in t
    ensures t[id].path != "" && '$' !in t[id].path
    decreases |t[id].path|
  {
    assert FolderOk(t, id);
    if t[id].parentId.Some? { PathsAreNotEmpty(t, t[id].parentId.value); }
  }

  /** The path without its last segment is the parent's path. */
  lemma ParentPathIsParents(t: Table, id: FolderId)
    requires Indexed(t) && id in t
    ensures ParentPath(t[id].path)
            == (match t[id].parentId case None => None case Some(p) => if p in t then Some(t[p].path) else None)
  {
    assert FolderOk(t, id);
    match t[id].parentId
    case None => NoParentPath(t[id].name);
    case Some(p) => ParentPathOf(t[p].path, t[id].name);
  }
}
