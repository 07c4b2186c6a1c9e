/** What share links read from the path index: the hierarchy test of the file
    route and the sub-path lookup of a shared folder. */
module SharedFolders {
  import opened Wrappers
  import opened PathStrings
  import opened FolderTree

  /** The file route's test, which never looks at parentId. */
  predicate IsAuthorized(t: Table, fileFolder: Option<FolderId>, root: FolderId)
    requires root in t && (fileFolder.Some? ==> fileFolder.value in t)
  {
    fileFolder == Some(root) || (fileFolder.Some? && t[root].path + "/" <= t[fileFolder.value].path)
  }

  /** It admits a file exactly when the file's folder is the shared folder or a
      descendant of it in the tree. */
  lemma AuthorizedIffInSubtree(t: Table, fileFolder: Option<FolderId>, root: FolderId)
    requires Indexed(t) && root in t && (fileFolder.Some? ==> fileFolder.value in t)
    ensures IsAuthorized(t, fileFolder, root)
            <==> fileFolder.Some? && (fileFolder.value == root || Below(t, fileFolder.value, root))
  {
    if fileFolder.Some? { BelowIffPrefix(t, fileFolder.value, root); }
  }

  /** Walking down from a folder, one child name at a time, ends at target. */
  ghost predicate Walks(t: Table, from: FolderId, names: seq<string>, target: FolderId)
    decreases |names|
  {
    if names == [] then from == target && target in t
    else exists child :: child in t && t[child].parentId == Some(from) && t[child].name == names[0]
                         && Walks(t, child, names[1..], target)
  }

  lemma Regroup(a: string, b: string, c: string)
    ensures a + "/" + b + "/" + c == a + "/" + (b + "/" + c)
  {
  }

  lemma {:induction false} WalkBuildsPath(t: Table, from: FolderId, names: seq<string>, target: FolderId)
    requires Indexed(t) && from in t && names != [] && Walks(t, from, names, target)
    ensures target in t && t[target].path == t[from].path + "/" + Join(names)
    decreases |names|
  {
    var child :| child in t && t[child].parentId == Some(from) && t[child].name == names[0]
                 && Walks(t, child, names[1..], target);
    assert FolderOk(t, child);
    if |names| > 1 {
      WalkBuildsPath(t, child, names[1..], target);
      JoinFirst(names);
      Regroup(t[from].path, names[0], Join(names[1..]));
    } else {
      assert names[1..] == [];
    }
  }

  lemma {:induction false} JoinFirst(names: seq<string>)
    requires |names| > 1
    ensures Join(names) == names[0] + "/" + Join(names[1..])
  {
    var front, last := names[..|names| - 1], names[|names| - 1];
    assert names[1..][..|names| - 2] == front[1..];
    if |names| > 2 {
      JoinFirst(front);
      assert Join(names[1..]) == Join(front[1..]) + "/" + last;
    }
  }

  lemma {:induction false} JoinSplit(s: string)
    ensures Join(Split(s)) == s
  {
    if s != "" {
      JoinSplit(s[1..]);
      assert s == [s[0]] + s[1..];
      var rest := Split(s[1..]);
      if s[0] == '/' {
        JoinAfterSlash(rest);
      } else {
        JoinAfterChar(s[0], rest[0], rest[1..]);
        assert rest == [rest[0]] + rest[1..];
      }
    }
  }

  lemma JoinAfterSlash(rest: seq<string>)
    requires |rest| > 0
    ensures Join([""] + rest) == "/" + Join(rest)
  {
    JoinFirst([""] + rest);
    assert ([""] + rest)[1..] == rest;
  }

  lemma JoinAfterChar(c: char, first: string, tail: seq<string>)
    ensures Join([[c] + first] + tail) == [c] + Join([first] + tail)
  {
    if tail != [] {
      JoinFirst([first] + tail);
      JoinFirst([[c] + first] + tail);
      assert ([first] + tail)[1..] == tail && ([[c] + first] + tail)[1..] == tail;
      assert [c] + first + "/" + Join(tail) == [c] + (first + "/" + Join(tail));
    }
  }

  /** The walk that the index stands for: a stored path under the base spells
      out the child names on the way. */
  lemma {:induction false} PathIsWalked(t: Table, base: FolderId, sub: string, target: FolderId)
    requires Indexed(t) && base in t && target in t && t[target].path == t[base].path + "/" + sub
    ensures Walks(t, base, Split(sub), target)
    decreases |sub|
  {
    if '/' in sub {
      var first, rest := CutAtSlash(sub);
      var child := ChildOnTheWay(t, base, first, rest, target);
      PathIsWalked(t, child, rest, target);
      assert Split(sub)[1..] == Split(rest);
    } else {
      SplitSingle(sub);
      ChildByPath(t, base, target, sub);
      assert Split(sub)[1..] == [];
      assert Walks(t, target, [], target);
    }
  }

  lemma CutAtSlash(sub: string) returns (first: string, rest: string)
    requires '/' in sub
    ensures sub == first + "/" + rest && '/' !in first && Split(sub) == [first] + Split(rest)
  {
    var k := FirstSlash(sub);
    first, rest := sub[..k], sub[k + 1..];
    assert sub == first + "/" + rest;
    SplitFirst(first, rest);
  }

  lemma ChildOnTheWay(t: Table, base: FolderId, first: string, rest: string, target: FolderId) returns (child: FolderId)
    requires Indexed(t) && base in t && target in t && '/' !in first
    requires t[target].path == t[base].path + "/" + (first + "/" + rest)
    ensures child in t && t[child].parentId == Some(base) && t[child].name == first
    ensures t[target].path == t[child].path + "/" + rest
  {
    Regroup(t[base].path, first, rest);
    child := PrefixIsAncestor(t, target, t[base].path + "/" + first);
    ChildByPath(t, base, child, first);
  }

  function FirstSlash(s: string): (k: nat)
    requires '/' in s
    ensures k < |s| && s[k] == '/' && '/' !in s[..k]
  {
    if s[0] == '/' then 0
    else
      assert s == [s[0]] + s[1..];
      var k := FirstSlash(s[1..]);
      assert s[..k + 1] == [s[0]] + s[1..][..k];
      k + 1
  }

  lemma ChildByPath(t: Table, base: FolderId, child: FolderId, name: string)
    requires Indexed(t) && base in t && child in t && '/' !in name && t[child].path == t[base].path + "/" + name
    ensures t[child].parentId == Some(base) && t[child].name == name
  {
    assert FolderOk(t, child);
    ParentPathOf(t[base].path, name);
    ParentPathIsParents(t, child);
    var p := t[child].parentId.value;
    assert t[p].path == t[base].path && p == base;
    assert t[child].path[|t[base].path| + 1..] == name;
    assert (t[base].path + "/" + t[child].name)[|t[base].path| + 1..] == t[child].name;
  }

  datatype ShareError = FolderNotFound | SubfolderNotFound

  /** getSharedFolderContents: which folder a sub-path of a share link shows. */
  method ResolveSharedFolder(folders: Table, folderId: FolderId, subPath: Option<string>)
      returns (r: Result<FolderId, ShareError>)
    requires Indexed(folders)
    ensures folderId !in folders <==> r == Err(FolderNotFound)
    ensures subPath.None? || subPath.value == "" ==>
              r == if folderId in folders then Ok(folderId) else Err(FolderNotFound)
    // a sub-path is a walk from the shared folder by child names, and nothing else
    ensures folderId in folders && subPath.Some? && subPath.value != "" ==>
              forall target :: r == Ok(target) <==> Walks(folders, folderId, Split(subPath.value), target)
    ensures r.Ok? ==> r.value == folderId || (r.value in folders && Below(folders, r.value, folderId))
  {
    if subPath.None? || subPath.value == "" {
      if folderId !in folders {
        return Err(FolderNotFound);
      }
      return Ok(folderId);
    }
    if folderId !in folders {
      return Err(FolderNotFound);
    }
    var base := folders[folderId];
    var targetPath := base.path + "/" + subPath.value;
    LookupIsWalk(folders, folderId, subPath.value);
    if target :| target in folders && folders[target].path == targetPath && folders[target].ownerId == base.ownerId {
      BelowIffPrefix(folders, target, folderId);
      return Ok(target);
    }
    return Err(SubfolderNotFound);
  }

  /** Looking a path up and walking to it find the same folder. */
  lemma LookupIsWalk(t: Table, base: FolderId, sub: string)
    requires Indexed(t) && base in t
    ensures forall target :: Walks(t, base, Split(sub), target)
              <==> target in t && t[target].path == t[base].path + "/" + sub && t[target].ownerId == t[base].ownerId
  {
    JoinSplit(sub);
    forall target
      ensures Walks(t, base, Split(sub), target)
              <==> target in t && t[target].path == t[base].path + "/" + sub && t[target].ownerId == t[base].ownerId
    {
      if target in t && t[target].path == t[base].path + "/" + sub { PathIsWalked(t, base, sub, target); }
      if Walks(t, base, Split(sub), target) {
        WalkBuildsPath(t, base, Split(sub), target);
        BelowIffPrefix(t, target, base);
        BelowIsLonger(t, target, base);
      }
    }
  }
}
