/** What an accepted folder call comes to, when each refusal comes, and that no
    call touches another owner's folders, all told in terms of the tree. */
module FolderEffects {
  import opened Wrappers
  import opened PathStrings
  import opened FolderTree
  import opened FolderRewrite
  import opened FolderService

  // ----- names and places -------------------------------------------------------------

  /** Some other folder has this name in this place. */
  ghost predicate SiblingHas(t: Table, parentId: Option<FolderId>, name: string, except: Option<FolderId>) {
    exists a :: a in t && t[a].parentId == parentId && t[a].name == name && Some(a) != except
  }

  /** The same, and the caller owns it. */
  ghost predicate OwnSiblingHas(t: Table, owner: OwnerId, parentId: Option<FolderId>, name: string,
                                except: Option<FolderId>) {
    exists a :: a in t && t[a].parentId == parentId && t[a].name == name && t[a].ownerId == owner && Some(a) != except
  }

  /** The path of a folder of this name in this place. */
  ghost predicate IsPathOf(t: Table, parentId: Option<FolderId>, name: string, path: string) {
    match parentId
    case None => path == name
    case Some(q) => q in t && path == t[q].path + "/" + name
  }

  /** A stored folder sits in a place under a name exactly when it has that path. */
  lemma PathIsPlaceAndName(t: Table, parentId: Option<FolderId>, name: string, path: string, a: FolderId)
    requires Indexed(t) && a in t && '/' !in name && IsPathOf(t, parentId, name, path)
    ensures t[a].path == path <==> t[a].parentId == parentId && t[a].name == name
  {
    assert FolderOk(t, a);
    if t[a].path == path {
      ParentPathIsParents(t, a);
      match parentId
      case None => NoParentPath(name);
      case Some(q) =>
        ParentPathOf(t[q].path, name);
        var p := t[a].parentId.value;
        assert t[p].path == t[q].path && p == q;
        assert path[|t[q].path| + 1..] == name && (t[q].path + "/" + t[a].name)[|t[q].path| + 1..] == t[a].name;
    }
  }

  /** So the services' path lookups ask whether a sibling has the name. */
  lemma TakenMeansSibling(t: Table, parentId: Option<FolderId>, name: string, path: string, owner: OwnerId,
                          except: Option<FolderId>)
    requires Indexed(t) && '/' !in name && IsPathOf(t, parentId, name, path)
    ensures PathTaken(t, path, except) <==> SiblingHas(t, parentId, name, except)
    ensures OwnerHas(t, owner, path, except) <==> OwnSiblingHas(t, owner, parentId, name, except)
  {
    forall a | a in t ensures t[a].path == path <==> t[a].parentId == parentId && t[a].name == name {
      PathIsPlaceAndName(t, parentId, name, path, a);
    }
  }

  // ----- what accepted calls do -------------------------------------------------------------

  /** The folder's name, place, owner and visibility: everything but its path,
      which the index determines. */
  datatype Label = Label(name: string, parentId: Option<FolderId>, ownerId: OwnerId, isPublic: bool)

  function LabelOf(f: Folder): Label {
    Label(f.name, f.parentId, f.ownerId, f.isPublic)
  }

  function Labels(t: Table): map<FolderId, Label> {
    map a | a in t :: LabelOf(t[a])
  }

  /** Two indexed tables with the same labels are the same table. */
  lemma LabelsDetermineTables(t: Table, u: Table)
    requires Indexed(t) && Indexed(u) && Labels(t) == Labels(u)
    ensures t == u
  {
    assert t.Keys == Labels(t).Keys && u.Keys == Labels(u).Keys;
    forall a | a in t ensures a in u && t[a] == u[a] { SameLabelsSamePath(t, u, a); }
  }

  lemma {:induction false} SameLabelsSamePath(t: Table, u: Table, a: FolderId)
    requires Indexed(t) && Indexed(u) && Labels(t) == Labels(u) && a in t
    ensures a in u && t[a] == u[a]
    decreases |t[a].path|
  {
    assert a in Labels(t) && a in Labels(u) && Labels(t)[a] == Labels(u)[a];
    assert FolderOk(t, a) && FolderOk(u, a);
    if t[a].parentId.Some? { SameLabelsSamePath(t, u, t[a].parentId.value); }
  }

  /** A rename is accepted exactly for the owner's own folder, a name that is not
      empty and that no sibling has; it changes that name, and the paths. */
  lemma RenameEffect(t: Table, id: FolderId, name: string, owner: OwnerId)
    requires Indexed(t)
    ensures var s := SanitizeFolderName(name);
      && (Rename(t, id, name, owner).Ok? <==>
          id in t && t[id].ownerId == owner && s != "" && !SiblingHas(t, t[id].parentId, s, Some(id)))
      && (Rename(t, id, name, owner).Ok? ==>
          Indexed(Rename(t, id, name, owner).value)
          && Labels(Rename(t, id, name, owner).value) == Labels(t)[id := LabelOf(t[id]).(name := s)])
  {
    var s := SanitizeFolderName(name);
    if id in t && s != "" {
      RenameIsPlaced(t, id, name);
      var row := RenamedRow(t[id], name);
      TakenMeansSibling(t, t[id].parentId, s, row.path, owner, Some(id));
      if Rename(t, id, name, owner).Ok? {
        RenameKeepsIndex(t, id, name, owner);
        RewriteKeepsLabels(t, id, row);
      }
    }
  }

  lemma RewriteKeepsLabels(t: Table, id: FolderId, row: Folder)
    requires id in t
    ensures Labels(Rewritten(t, id, row)) == Labels(t)[id := LabelOf(row)]
  {
  }

  lemma RenameRefusals(t: Table, id: FolderId, name: string, owner: OwnerId)
    requires Indexed(t)
    ensures var s := SanitizeFolderName(name);
      && (Rename(t, id, name, owner) == Err(NotFound) <==> id !in t)
      && (Rename(t, id, name, owner) == Err(AccessDenied) <==> id in t && t[id].ownerId != owner)
      && (Rename(t, id, name, owner) == Err(InvalidName) <==> id in t && t[id].ownerId == owner && s == "")
      && (Rename(t, id, name, owner) == Err(AlreadyExists) <==>
          id in t && t[id].ownerId == owner && s != "" && OwnSiblingHas(t, owner, t[id].parentId, s, Some(id)))
  {
    var s := SanitizeFolderName(name);
    if id in t && s != "" {
      RenameIsPlaced(t, id, name);
      TakenMeansSibling(t, t[id].parentId, s, RenamedRow(t[id], name).path, owner, Some(id));
    }
  }

  /** A move is accepted exactly for the owner's own folder and own target, past
      the prefix guard and where no sibling has the name; it changes the place. */
  lemma MoveEffect(t: Table, id: FolderId, to: Option<FolderId>, owner: OwnerId)
    requires Indexed(t)
    ensures Move(t, id, to, owner).Ok? <==>
            && id in t && t[id].ownerId == owner
            && (to.Some? ==> to.value in t && t[to.value].ownerId == owner && !(t[id].path <= t[to.value].path))
            && !SiblingHas(t, to, t[id].name, Some(id))
    ensures Move(t, id, to, owner).Ok? ==>
              Indexed(Move(t, id, to, owner).value)
              && Labels(Move(t, id, to, owner).value) == Labels(t)[id := LabelOf(t[id]).(parentId := to)]
  {
    if MayMove(t, id, to, owner) {
      MoveIsPlaced(t, id, to);
      var row := MovedRow(t, t[id], to);
      TakenMeansSibling(t, to, t[id].name, row.path, owner, Some(id));
      if Move(t, id, to, owner).Ok? {
        MoveKeepsIndex(t, id, to, owner);
        RewriteKeepsLabels(t, id, row);
      }
    }
  }

  predicate MayMove(t: Table, id: FolderId, to: Option<FolderId>, owner: OwnerId) {
    && id in t && t[id].ownerId == owner
    && (to.Some? ==> to.value in t && t[to.value].ownerId == owner && !(t[id].path <= t[to.value].path))
  }

  lemma MoveRefusals(t: Table, id: FolderId, to: Option<FolderId>, owner: OwnerId)
    requires Indexed(t)
    ensures Move(t, id, to, owner) == Err(NotFound) <==>
            id !in t || (t[id].ownerId == owner && to.Some? && to.value !in t)
    ensures Move(t, id, to, owner) == Err(AccessDenied) <==>
            id in t && (t[id].ownerId != owner || (to.Some? && to.value in t && t[to.value].ownerId != owner))
    ensures Move(t, id, to, owner) == Err(IntoOwnSubfolder) <==>
            id in t && t[id].ownerId == owner && to.Some? && to.value in t && t[to.value].ownerId == owner
            && t[id].path <= t[to.value].path
    ensures Move(t, id, to, owner) == Err(AlreadyExists) <==>
            MayMove(t, id, to, owner) && OwnSiblingHas(t, owner, to, t[id].name, Some(id))
  {
    if MayMove(t, id, to, owner) {
      MoveIsPlaced(t, id, to);
      TakenMeansSibling(t, to, t[id].name, MovedRow(t, t[id], to).path, owner, Some(id));
    }
  }

  predicate MayCreate(t: Table, name: string, parentId: Option<FolderId>, owner: OwnerId) {
    SanitizeFolderName(name) != "" && (parentId.Some? ==> parentId.value in t && t[parentId.value].ownerId == owner)
  }

  /** The new row's path is that of its name in its place. */
  lemma NewFolderIsPlaced(t: Table, name: string, parentId: Option<FolderId>, isPublic: bool, owner: OwnerId)
    requires Indexed(t) && MayCreate(t, name, parentId, owner)
    ensures '/' !in SanitizeFolderName(name)
    ensures IsPathOf(t, parentId, SanitizeFolderName(name), NewFolder(t, name, parentId, isPublic, owner).path)
  {
    SanitizeIsIdempotent(name);
    if parentId.Some? { PathsAreNotEmpty(t, parentId.value); }
  }

  /** A creation is accepted exactly in the root or the owner's own folder, for a
      name that is not empty and that nobody there has; it adds that folder. */
  lemma CreateEffect(t: Table, id: FolderId, name: string, parentId: Option<FolderId>, isPublic: bool, owner: OwnerId)
    requires Indexed(t) && id !in t
    ensures var s, r := SanitizeFolderName(name), Create(t, id, name, parentId, isPublic, owner);
      && (r.Ok? <==> s != "" && (parentId.Some? ==> parentId.value in t && t[parentId.value].ownerId == owner)
                     && !SiblingHas(t, parentId, s, None))
      && (r.Ok? ==> Indexed(r.value) && Labels(r.value) == Labels(t)[id := Label(s, parentId, owner, isPublic)])
  {
    CreateKeepsIndex(t, id, name, parentId, isPublic, owner);
    if MayCreate(t, name, parentId, owner) {
      var f := NewFolder(t, name, parentId, isPublic, owner);
      NewFolderIsPlaced(t, name, parentId, isPublic, owner);
      TakenMeansSibling(t, parentId, f.name, f.path, owner, None);
      assert Labels(t[id := f]) == Labels(t)[id := LabelOf(f)];
    }
  }

  lemma CreateRefusals(t: Table, id: FolderId, name: string, parentId: Option<FolderId>, isPublic: bool, owner: OwnerId)
    requires Indexed(t)
    ensures var s, r := SanitizeFolderName(name), Create(t, id, name, parentId, isPublic, owner);
      && (r == Err(InvalidName) <==> s == "")
      && (r == Err(NotFound) <==> s != "" && parentId.Some? && parentId.value !in t)
      && (r == Err(AccessDenied) <==>
          s != "" && parentId.Some? && parentId.value in t && t[parentId.value].ownerId != owner)
      && (r == Err(AlreadyExists) <==>
          MayCreate(t, name, parentId, owner) && OwnSiblingHas(t, owner, parentId, s, None))
  {
    if MayCreate(t, name, parentId, owner) {
      var f := NewFolder(t, name, parentId, isPublic, owner);
      NewFolderIsPlaced(t, name, parentId, isPublic, owner);
      TakenMeansSibling(t, parentId, f.name, f.path, owner, None);
    }
  }

  /** A delete is accepted exactly for the owner's own folder without files and
      children, and removes it alone. */
  lemma DeleteEffect(t: Table, files: map<int, Option<FolderId>>, id: FolderId, owner: OwnerId)
    ensures Delete(t, files, id, owner).Ok? <==>
            && id in t && t[id].ownerId == owner
            && (forall f :: f in files ==> files[f] != Some(id))
            && (forall a :: a in t ==> t[a].parentId != Some(id))
    ensures Delete(t, files, id, owner).Ok? ==>
              forall a :: if a == id then a !in Delete(t, files, id, owner).value
                          else (a in Delete(t, files, id, owner).value <==> a in t)
                               && (a in t ==> Delete(t, files, id, owner).value[a] == t[a])
    ensures Delete(t, files, id, owner) == Err(NotFound) <==> id !in t
    ensures Delete(t, files, id, owner) == Err(AccessDenied) <==> id in t && t[id].ownerId != owner
  {
  }

  // ----- owners --------------------------------------------------------------------------------

  function Caller(op: Op): OwnerId {
    op.owner
  }

  /** Everything an owner has in the table. */
  ghost function Holdings(t: Table, owner: OwnerId): Table {
    map a | a in t && t[a].ownerId == owner :: t[a]
  }

  /** Who is selected by a rewrite belongs to the folder's owner. */
  lemma SelectedIsOwned(t: Table, id: FolderId, a: FolderId)
    requires Indexed(t) && id in t && a in t && Selected(t, id, a)
    ensures t[a].ownerId == t[id].ownerId
  {
    BelowIffPrefix(t, a, id);
    BelowIsLonger(t, a, id);
  }

  lemma RewriteSparesOthers(t: Table, id: FolderId, row: Folder, owner: OwnerId)
    requires Indexed(t) && id in t && row.ownerId == t[id].ownerId && owner != t[id].ownerId
    ensures Holdings(Rewritten(t, id, row), owner) == Holdings(t, owner)
  {
    forall a | a in t && a != id && Selected(t, id, a) ensures t[a].ownerId == t[id].ownerId {
      SelectedIsOwned(t, id, a);
    }
  }

  /** No call adds, changes or removes a folder of anybody but its caller. */
  lemma CallsSpareOtherOwners(t: Table, op: Op, owner: OwnerId)
    requires Indexed(t) && (op.CreateOp? ==> op.id !in t) && Outcome(t, op).Ok? && owner != Caller(op)
    ensures Holdings(Outcome(t, op).value, owner) == Holdings(t, owner)
  {
    match op
    case CreateOp(_, _, _, _, _) =>
    case DeleteOp(_, _, _) =>
    case RenameOp(id, name, _) => RewriteSparesOthers(t, id, RenamedRow(t[id], name), owner);
    case MoveOp(id, to, _) => RewriteSparesOthers(t, id, MovedRow(t, t[id], to), owner);
  }

  /** Over every history: between two calls of its own, nothing an owner has is
      added, changed or removed by anyone. */
  lemma {:induction false} OthersNeverTouchMyFolders(ops: seq<Op>, tables: seq<Table>, i: nat, j: nat, owner: OwnerId)
    requires History(ops, tables) && i <= j < |tables|
    requires forall k :: i <= k < j ==> Caller(ops[k]) != owner
    ensures Holdings(tables[j], owner) == Holdings(tables[i], owner)
    decreases j - i
  {
    if i < j {
      OthersNeverTouchMyFolders(ops, tables, i, j - 1, owner);
      EveryReachableTableIsIndexed(ops, tables, j - 1);
      if Outcome(tables[j - 1], ops[j - 1]).Ok? { CallsSpareOtherOwners(tables[j - 1], ops[j - 1], owner); }
    }
  }
}
