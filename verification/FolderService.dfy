/** createFolder, renameFolder, moveFolder, deleteFolder and the root folder that
    an upload finds or creates. Each call is taken as atomic. */
module FolderService {
  import opened Wrappers
  import opened PathStrings
  import opened FolderTree
  import opened FolderRewrite

  datatype FolderError =
    | NotFound
    | AccessDenied
    | InvalidName
    | AlreadyExists
    | IntoOwnSubfolder
    | NotEmpty
    | UniqueViolation      // the schema's unique path refuses the statement

  // ----- what each operation decides --------------------------------------------------

  /** findFirst by path and owner, leaving out one folder. */
  predicate OwnerHas(t: Table, owner: OwnerId, path: string, except: Option<FolderId>) {
    exists a :: a in t && t[a].path == path && t[a].ownerId == owner && Some(a) != except
  }

  predicate PathTaken(t: Table, path: string, except: Option<FolderId>) {
    exists a :: a in t && t[a].path == path && Some(a) != except
  }

  function RenamedRow(f: Folder, name: string): Folder {
    var sanitized := SanitizeFolderName(name);
    f.(name := sanitized, path := BuildFolderPath(ParentPath(f.path), sanitized))
  }

  function MovedRow(t: Table, f: Folder, newParentId: Option<FolderId>): Folder
    requires newParentId.Some? ==> newParentId.value in t
  {
    var parentPath := if newParentId.Some? then Some(t[newParentId.value].path) else None;
    f.(parentId := newParentId, path := BuildFolderPath(parentPath, f.name))
  }

  /** The shared second half of rename and move. */
  function Replaced(t: Table, id: FolderId, row: Folder, owner: OwnerId): Result<Table, FolderError>
    requires id in t
  {
    if OwnerHas(t, owner, row.path, Some(id)) then Err(AlreadyExists)
    else if PathTaken(t, row.path, Some(id)) then Err(UniqueViolation)
    else Ok(Rewritten(t, id, row))
  }

  function Rename(t: Table, id: FolderId, name: string, owner: OwnerId): Result<Table, FolderError> {
    if id !in t then Err(NotFound)
    else if t[id].ownerId != owner then Err(AccessDenied)
    else if SanitizeFolderName(name) == "" then Err(InvalidName)
    else Replaced(t, id, RenamedRow(t[id], name), owner)
  }

  /** The code's guard against moving a folder into its own subtree. */
  predicate GuardRefuses(t: Table, id: FolderId, newParentId: Option<FolderId>)
    requires id in t && (newParentId.Some? ==> newParentId.value in t)
  {
    newParentId.Some? && t[id].path <= t[newParentId.value].path
  }

  function Move(t: Table, id: FolderId, newParentId: Option<FolderId>, owner: OwnerId): Result<Table, FolderError> {
    if id !in t then Err(NotFound)
    else if t[id].ownerId != owner then Err(AccessDenied)
    else if newParentId.Some? && newParentId.value !in t then Err(NotFound)
    else if newParentId.Some? && t[newParentId.value].ownerId != owner then Err(AccessDenied)
    else if GuardRefuses(t, id, newParentId) then Err(IntoOwnSubfolder)
    else Replaced(t, id, MovedRow(t, t[id], newParentId), owner)
  }

  function NewFolder(t: Table, name: string, parentId: Option<FolderId>, isPublic: bool, owner: OwnerId): Folder {
    var sanitized := SanitizeFolderName(name);
    var parentPath := if parentId.Some? && parentId.value in t then Some(t[parentId.value].path) else None;
    Folder(sanitized, BuildFolderPath(parentPath, sanitized), parentId, owner, isPublic)
  }

  function Create(t: Table, id: FolderId, name: string, parentId: Option<FolderId>, isPublic: bool, owner: OwnerId)
      : Result<Table, FolderError> {
    var f := NewFolder(t, name, parentId, isPublic, owner);
    if f.name == "" then Err(InvalidName)
    else if parentId.Some? && parentId.value !in t then Err(NotFound)
    else if parentId.Some? && t[parentId.value].ownerId != owner then Err(AccessDenied)
    else if OwnerHas(t, owner, f.path, None) then Err(AlreadyExists)
    else if PathTaken(t, f.path, None) then Err(UniqueViolation)
    else Ok(t[id := f])
  }

  /** A file or a folder lies in the folder. */
  predicate IsUsed(t: Table, files: map<int, Option<FolderId>>, id: FolderId) {
    (exists f :: f in files && files[f] == Some(id)) || (exists a :: a in t && t[a].parentId == Some(id))
  }

  function Delete(t: Table, files: map<int, Option<FolderId>>, id: FolderId, owner: OwnerId)
      : Result<Table, FolderError> {
    if id !in t then Err(NotFound)
    else if t[id].ownerId != owner then Err(AccessDenied)
    else if IsUsed(t, files, id) then Err(NotEmpty)
    else Ok(t - {id})
  }

  // ----- legality of the new rows -------------------------------------------------------

  lemma RenameIsPlaced(t: Table, id: FolderId, name: string)
    requires Indexed(t) && id in t && SanitizeFolderName(name) != ""
    ensures Placed(t, id, RenamedRow(t[id], name))
  {
    assert FolderOk(t, id);
    SanitizeIsIdempotent(name);
    ParentPathIsParents(t, id);
    if t[id].parentId.Some? {
      var p := t[id].parentId.value;
      PathsAreNotEmpty(t, p);
      ParentGraphIsAcyclic(t, id);
      if Below(t, p, id) { BelowIsLonger(t, p, id); }
    }
  }

  lemma MoveIsPlaced(t: Table, id: FolderId, newParentId: Option<FolderId>)
    requires Indexed(t) && id in t
    requires newParentId.Some? ==> newParentId.value in t && t[newParentId.value].ownerId == t[id].ownerId
    requires !GuardRefuses(t, id, newParentId)
    ensures Placed(t, id, MovedRow(t, t[id], newParentId))
  {
    assert FolderOk(t, id);
    if newParentId.Some? {
      PathsAreNotEmpty(t, newParentId.value);
      BelowIffPrefix(t, newParentId.value, id);
    }
  }

  // ----- main results -----------------------------------------------------------------------

  lemma RenameKeepsIndex(t: Table, id: FolderId, name: string, owner: OwnerId)
    requires Indexed(t)
    ensures Rename(t, id, name, owner).Ok? ==> Indexed(Rename(t, id, name, owner).value)
  {
    if Rename(t, id, name, owner).Ok? {
      RenameIsPlaced(t, id, name);
      RewriteKeepsIndex(t, id, RenamedRow(t[id], name));
    }
  }

  lemma MoveKeepsIndex(t: Table, id: FolderId, newParentId: Option<FolderId>, owner: OwnerId)
    requires Indexed(t)
    ensures Move(t, id, newParentId, owner).Ok? ==> Indexed(Move(t, id, newParentId, owner).value)
  {
    if Move(t, id, newParentId, owner).Ok? {
      MoveIsPlaced(t, id, newParentId);
      RewriteKeepsIndex(t, id, MovedRow(t, t[id], newParentId));
    }
  }

  lemma CreateKeepsIndex(t: Table, id: FolderId, name: string, parentId: Option<FolderId>, isPublic: bool,
                         owner: OwnerId)
    requires id !in t
    ensures Indexed(t) && Create(t, id, name, parentId, isPublic, owner).Ok? ==>
              Indexed(Create(t, id, name, parentId, isPublic, owner).value)
  {
    if Indexed(t) && Create(t, id, name, parentId, isPublic, owner).Ok? {
      var f := NewFolder(t, name, parentId, isPublic, owner);
      SanitizeIsIdempotent(name);
      if parentId.Some? {
        PathsAreNotEmpty(t, parentId.value);
        assert f.path == t[parentId.value].path + "/" + f.name;
      } else {
        assert f.path == f.name;
      }
      AddKeepsIndex(t, id, f);
    }
  }

  // ----- other owners' paths ---------------------------------------------------------------

  /** Whatever is stored under a folder belongs to the folder's owner. */
  lemma UnderIsOwned(t: Table, q: FolderId, name: string, a: FolderId)
    requires Indexed(t) && q in t && a in t && t[a].path == t[q].path + "/" + name
    ensures t[a].ownerId == t[q].ownerId
  {
    BelowIffPrefix(t, a, q);
    BelowIsLonger(t, a, q);
  }

  /** A legal path can be taken by a stranger only at the root. */
  lemma StrangersMeetAtTheRoot(t: Table, parentId: Option<FolderId>, path: string, name: string, owner: OwnerId,
                               except: Option<FolderId>)
    requires Indexed(t)
    requires match parentId
             case None => path == name
             case Some(q) => q in t && t[q].ownerId == owner && path == t[q].path + "/" + name
    ensures PathTaken(t, path, except) && !OwnerHas(t, owner, path, except) ==> parentId == None
  {
    if parentId.Some? && PathTaken(t, path, except) {
      var a :| a in t && t[a].path == path && Some(a) != except;
      UnderIsOwned(t, parentId.value, name, a);
    }
  }

  /** A root folder of the name that somebody else owns. */
  predicate StrangerHasRoot(t: Table, owner: OwnerId, name: string) {
    exists a :: a in t && t[a].path == name && t[a].ownerId != owner
  }

  /** The three writers fail in the database exactly when they would put a folder
      at the root under a name that another owner already uses there. */
  lemma CreateViolatesIff(t: Table, id: FolderId, name: string, parentId: Option<FolderId>, isPublic: bool,
                          owner: OwnerId)
    requires Indexed(t)
    ensures Create(t, id, name, parentId, isPublic, owner) == Err(UniqueViolation)
            <==> SanitizeFolderName(name) != "" && parentId == None
                 && StrangerHasRoot(t, owner, SanitizeFolderName(name))
  {
    var f := NewFolder(t, name, parentId, isPublic, owner);
    SanitizeIsIdempotent(name);
    if f.name != "" && (parentId.Some? ==> parentId.value in t && t[parentId.value].ownerId == owner) {
      if parentId.Some? { PathsAreNotEmpty(t, parentId.value); }
      StrangersMeetAtTheRoot(t, parentId, f.path, f.name, owner, None);
    }
  }

  lemma RenameViolatesIff(t: Table, id: FolderId, name: string, owner: OwnerId)
    requires Indexed(t) && id in t && t[id].ownerId == owner && SanitizeFolderName(name) != ""
    ensures Rename(t, id, name, owner) == Err(UniqueViolation)
            <==> t[id].parentId == None && StrangerHasRoot(t, owner, SanitizeFolderName(name))
  {
    RenameIsPlaced(t, id, name);
    var row := RenamedRow(t[id], name);
    StrangersMeetAtTheRoot(t, row.parentId, row.path, row.name, owner, Some(id));
  }

  lemma MoveViolatesIff(t: Table, id: FolderId, newParentId: Option<FolderId>, owner: OwnerId)
    requires Indexed(t) && id in t && t[id].ownerId == owner
    requires newParentId.Some? ==> newParentId.value in t && t[newParentId.value].ownerId == owner
    ensures Move(t, id, newParentId, owner) == Err(UniqueViolation)
            <==> newParentId == None && StrangerHasRoot(t, owner, t[id].name)
  {
    if !GuardRefuses(t, id, newParentId) {
      MoveIsPlaced(t, id, newParentId);
      var row := MovedRow(t, t[id], newParentId);
      StrangersMeetAtTheRoot(t, row.parentId, row.path, row.name, owner, Some(id));
    }
  }

  // ----- histories ---------------------------------------------------------------------------

  /** Everything that writes the folder table. An upload's root folder is created
      like any other folder without a parent. */
  datatype Op =
    | CreateOp(id: FolderId, name: string, parentId: Option<FolderId>, isPublic: bool, owner: OwnerId)
    | RenameOp(id: FolderId, name: string, owner: OwnerId)
    | MoveOp(id: FolderId, newParentId: Option<FolderId>, owner: OwnerId)
    | DeleteOp(id: FolderId, files: map<int, Option<FolderId>>, owner: OwnerId)

  function Outcome(t: Table, op: Op): Result<Table, FolderError> {
    match op
    case CreateOp(id, name, parentId, isPublic, owner) => Create(t, id, name, parentId, isPublic, owner)
    case RenameOp(id, name, owner) => Rename(t, id, name, owner)
    case MoveOp(id, newParentId, owner) => Move(t, id, newParentId, owner)
    case DeleteOp(id, files, owner) => Delete(t, files, id, owner)
  }

  /** A history of calls from the empty table; refused calls change nothing. */
  ghost predicate History(ops: seq<Op>, tables: seq<Table>) {
    && |tables| == |ops| + 1 && tables[0] == map[]
    && forall i :: 0 <= i < |ops| ==>
         && (ops[i].CreateOp? ==> ops[i].id !in tables[i])      // cuid
         && tables[i + 1] == match Outcome(tables[i], ops[i]) case Ok(t) => t case Err(_) => tables[i]
  }

  /** Main result: every reachable table is indexed, so every path is the join of
      the names up to the root, no two folders share one, owners agree along
      parentId, and no folder is its own ancestor. */
  lemma {:induction false} EveryReachableTableIsIndexed(ops: seq<Op>, tables: seq<Table>, i: nat)
    requires History(ops, tables) && i < |tables|
    ensures Indexed(tables[i])
    ensures forall id :: id in tables[i] ==>
              tables[i][id].path == Join(NamesFromRoot(tables[i], id)) && !Below(tables[i], id, id)
  {
    if i > 0 {
      EveryReachableTableIsIndexed(ops, tables, i - 1);
      OutcomeKeepsIndex(tables[i - 1], ops[i - 1]);
    }
    forall id | id in tables[i]
      ensures tables[i][id].path == Join(NamesFromRoot(tables[i], id)) && !Below(tables[i], id, id)
    {
      PathIsJoinOfNames(tables[i], id);
      ParentGraphIsAcyclic(tables[i], id);
    }
  }

  lemma OutcomeKeepsIndex(t: Table, op: Op)
    requires Indexed(t) && (op.CreateOp? ==> op.id !in t)
    ensures Outcome(t, op).Ok? ==> Indexed(Outcome(t, op).value)
  {
    match op
    case CreateOp(id, name, parentId, isPublic, owner) => CreateKeepsIndex(t, id, name, parentId, isPublic, owner);
    case RenameOp(id, name, owner) => RenameKeepsIndex(t, id, name, owner);
    case MoveOp(id, newParentId, owner) => MoveKeepsIndex(t, id, newParentId, owner);
    case DeleteOp(id, files, owner) =>
      if Outcome(t, op).Ok? { DropKeepsIndex(t, id); }
  }

  /** After a rewrite the way back is open: the old row is accepted, and it
      restores the whole table. */
  lemma BackIsAccepted(t: Table, id: FolderId, row: Folder, owner: OwnerId)
    requires Indexed(t) && id in t && Placed(t, id, row) && Free(t, id, row.path)
    ensures Replaced(Rewritten(t, id, row), id, t[id], owner) == Ok(t)
  {
    RewriteBackRestores(t, id, row);
    OldPathIsFreeAgain(t, id, row);
  }

  /** The folder's own parent is not moved by the rewrite. */
  lemma ParentStays(t: Table, id: FolderId, row: Folder, p: FolderId)
    requires Indexed(t) && id in t && t[id].parentId == Some(p)
    ensures p in t && p != id && Rewritten(t, id, row)[p] == t[p] && t[p].path != ""
            && t[p].ownerId == t[id].ownerId && t[id].path == t[p].path + "/" + t[id].name
  {
    assert FolderOk(t, id);
    ParentGraphIsAcyclic(t, id);
    PathsAreNotEmpty(t, p);
    BelowIffPrefix(t, p, id);
    if Below(t, p, id) { BelowIsLonger(t, p, id); }
  }

  /** A rename to a free path is accepted; renaming back is always accepted too
      and restores the whole table. */
  lemma RenameBack(t: Table, id: FolderId, name: string, owner: OwnerId)
    requires Indexed(t) && id in t && t[id].ownerId == owner && SanitizeFolderName(name) != ""
    requires !PathTaken(t, RenamedRow(t[id], name).path, Some(id))
    ensures Rename(t, id, name, owner).Ok?
    ensures Rename(Rename(t, id, name, owner).value, id, t[id].name, owner) == Ok(t)
  {
    var row := RenamedRow(t[id], name);
    RenameIsPlaced(t, id, name);
    BackIsAccepted(t, id, row, owner);
    assert FolderOk(t, id);
    ParentPathIsParents(t, id);
    SanitizeIsIdempotent(name);
    match t[id].parentId
    case None => NoParentPath(row.path);
    case Some(p) =>
      ParentStays(t, id, row, p);
      ParentPathOf(t[p].path, row.name);
  }

  /** Moving back restores the whole table unless the prefix guard refuses the
      way back, and the guard is the only reason for a refusal. */
  lemma MoveBack(t: Table, id: FolderId, newParentId: Option<FolderId>, owner: OwnerId)
    requires Indexed(t) && Move(t, id, newParentId, owner).Ok?
    ensures var there, back := Move(t, id, newParentId, owner).value, t[id].parentId;
      if back.Some? && back.value in t && there[id].path <= t[back.value].path
      then Move(there, id, back, owner) == Err(IntoOwnSubfolder)
      else Move(there, id, back, owner) == Ok(t)
  {
    var row := MovedRow(t, t[id], newParentId);
    MoveIsPlaced(t, id, newParentId);
    BackIsAccepted(t, id, row, owner);
    OldRowAgain(t, id, row);
  }

  /** Moving to the old parent computes the old row. */
  lemma OldRowAgain(t: Table, id: FolderId, row: Folder)
    requires Indexed(t) && id in t && row == t[id].(path := row.path, parentId := row.parentId)
    ensures var there := Rewritten(t, id, row);
      && (t[id].parentId.Some? ==> t[id].parentId.value in t && there[t[id].parentId.value] == t[t[id].parentId.value]
                                   && t[t[id].parentId.value].ownerId == t[id].ownerId)
      && MovedRow(there, there[id], t[id].parentId) == t[id]
  {
    assert FolderOk(t, id);
    if t[id].parentId.Some? { ParentStays(t, id, row, t[id].parentId.value); }
  }

  /** The target's path goes on behind the folder's path with something other
      than a slash: its own last name, or an ancestor's, continues the folder's. */
  predicate ContinuesName(t: Table, id: FolderId, target: FolderId)
    requires id in t && target in t
  {
    t[id].path < t[target].path && t[target].path[|t[id].path|] != '/'
  }

  /** What the guard refuses: the folder and its subtree, and beyond it exactly
      the targets that continue the folder's name. */
  lemma GuardRefusesMoreThanTheSubtree(t: Table, id: FolderId, target: FolderId)
    requires Indexed(t) && id in t && target in t
    ensures target == id || Below(t, target, id) ==> GuardRefuses(t, id, Some(target))
    ensures GuardRefuses(t, id, Some(target)) && !(target == id || Below(t, target, id))
            <==> ContinuesName(t, id, target)
  {
    BelowIffPrefix(t, target, id);
    PrefixCases(t[id].path, t[target].path);
  }

  /** So a move between an owner's own folders is refused as one into its own
      subtree rightly if and only if the target's path does not continue the
      folder's name. */
  lemma MoveRefusalIsRightIff(t: Table, id: FolderId, target: FolderId, owner: OwnerId)
    requires Indexed(t) && id in t && target in t && t[id].ownerId == owner && t[target].ownerId == owner
    ensures (Move(t, id, Some(target), owner) == Err(IntoOwnSubfolder) <==> target == id || Below(t, target, id))
            <==> !ContinuesName(t, id, target)
  {
    GuardRefusesMoreThanTheSubtree(t, id, target);
  }

  lemma PrefixCases(p: string, q: string)
    ensures p <= q <==> p == q || p + "/" <= q || (p < q && q[|p|] != '/')
  {
    if p < q && q[|p|] == '/' { assert p + "/" == q[..|p| + 1]; }
    if p + "/" <= q { assert p == (p + "/")[..|p|]; }
  }

  /** Moving "a" into its sibling "ab" is refused. */
  lemma GuardRefusesSiblings()
    ensures exists t: Table, id, target :: Indexed(t) && id in t && target in t
              && GuardRefuses(t, id, Some(target)) && id != target && !Below(t, target, id)
  {
    SanitizeA();
    var t: Table := map[1 := Folder("a", "a", None, 5, false), 2 := Folder("ab", "ab", None, 5, false)];
    assert FolderOk(t, 1) && FolderOk(t, 2);
    assert Indexed(t);
    assert !Below(t, 2, 1);
    assert GuardRefuses(t, 1, Some(2));
  }

  /** "a" moved out of "ab" to the root cannot be moved back. */
  lemma MoveBackCanBeRefused()
    ensures exists t: Table, id, owner :: Indexed(t) && id in t && Move(t, id, None, owner).Ok?
              && Move(Move(t, id, None, owner).value, id, t[id].parentId, owner) == Err(IntoOwnSubfolder)
  {
    SanitizeA();
    var t := Nested("ab", "a");
    assert Move(t, 2, None, 5).Ok?;
    MoveBack(t, 2, None, 5);
  }

  /** With "a" at the root in another owner's hands, creating it, renaming "ab" to
      it and moving "ab/a" to the root all pass the owner's check and fail. */
  lemma StrangersRootIsRefused()
    ensures exists t: Table, a, b, c, owner :: Indexed(t) && c !in t && !OwnerHas(t, owner, "a", None)
              && Create(t, c, "a", None, false, owner) == Err(UniqueViolation)
              && Rename(t, a, "a", owner) == Err(UniqueViolation)
              && Move(t, b, None, owner) == Err(UniqueViolation)
  {
    SanitizeA();
    var t := Nested("ab", "a");
    var stranger := Folder("a", "a", None, 6, false);
    assert t[2].path == "ab/a";
    AddKeepsIndex(t, 3, stranger);
    t := t[3 := stranger];
    assert t[3].path == "a" && StrangerHasRoot(t, 5, "a");
    CreateViolatesIff(t, 4, "a", None, false, 5);
    RenameViolatesIff(t, 1, "a", 5);
    MoveViolatesIff(t, 2, None, 5);
    assert !OwnerHas(t, 5, "a", None) && 4 !in t;
  }

  /** A root folder with one child. */
  lemma Nested(outer: string, inner: string) returns (t: Table)
    requires SafeName(outer) && SafeName(inner) && outer != inner
    ensures t == map[1 := Folder(outer, outer, None, 5, false),
                     2 := Folder(inner, outer + "/" + inner, Some(1), 5, false)]
    ensures Indexed(t) && MovedRow(t, t[2], None).path == inner
  {
    var root, child := Folder(outer, outer, None, 5, false), Folder(inner, outer + "/" + inner, Some(1), 5, false);
    var t0: Table := map[];
    AddKeepsIndex(t0, 1, root);
    t := t0[1 := root];
    assert |outer| < |child.path|;
    AddKeepsIndex(t, 2, child);
    t := t[2 := child];
  }

  lemma SanitizeA()
    ensures SafeName("a") && SafeName("ab")
  {
    KeepIsIdentity("a");
    KeepIsIdentity("ab");
  }

  // ----- the service ----------------------------------------------------------------------------

  class FolderService {
    var folders: Table
    var files: map<int, Option<FolderId>>    // file id to its folder

    method CreateFolder(freshId: FolderId, name: string, parentId: Option<FolderId>, isPublic: bool, owner: OwnerId)
        returns (r: Result<Folder, FolderError>)
      requires freshId !in folders     // cuid
      modifies `folders
      ensures old(Indexed(folders)) ==> Indexed(folders)
      ensures match Create(old(folders), freshId, name, parentId, isPublic, owner)
              case Ok(t) => folders == t && r == Ok(t[freshId])
              case Err(e) => folders == old(folders) && r == Err(e)
    {
      CreateKeepsIndex(folders, freshId, name, parentId, isPublic, owner);
      var sanitized := SanitizeFolderName(name);
      if sanitized == "" {
        return Err(InvalidName);
      }
      var parentPath := None;
      if parentId.Some? {
        if parentId.value !in folders {
          return Err(NotFound);
        }
        if folders[parentId.value].ownerId != owner {
          return Err(AccessDenied);
        }
        parentPath := Some(folders[parentId.value].path);
      }
      var path := BuildFolderPath(parentPath, sanitized);
      if OwnerHas(folders, owner, path, None) {
        return Err(AlreadyExists);
      }
      if PathTaken(folders, path, None) {
        return Err(UniqueViolation);
      }
      var folder := Folder(sanitized, path, parentId, owner, isPublic);
      folders := folders[freshId := folder];
      return Ok(folder);
    }

    method RenameFolder(id: FolderId, name: string, owner: OwnerId, listed: seq<FolderId>)
        returns (r: Result<Folder, FolderError>)
      requires Indexed(folders) && Lists(folders, id, listed)
      modifies `folders
      ensures Indexed(folders)
      ensures match Rename(old(folders), id, name, owner)
              case Ok(t) => folders == t && r == Ok(t[id])
              case Err(e) => folders == old(folders) && r == Err(e)
    {
      if id !in folders {
        return Err(NotFound);
      }
      var folder := folders[id];
      if folder.ownerId != owner {
        return Err(AccessDenied);
      }
      var sanitized := SanitizeFolderName(name);
      if sanitized == "" {
        return Err(InvalidName);
      }
      var newPath := BuildFolderPath(ParentPath(folder.path), sanitized);
      if OwnerHas(folders, owner, newPath, Some(id)) {
        return Err(AlreadyExists);
      }
      RenameIsPlaced(folders, id, name);
      RenameKeepsIndex(folders, id, name, owner);
      var done := Transaction(id, folder.(name := sanitized, path := newPath), listed);
      if !done {
        return Err(UniqueViolation);
      }
      return Ok(folders[id]);
    }

    method MoveFolder(id: FolderId, newParentId: Option<FolderId>, owner: OwnerId, listed: seq<FolderId>)
        returns (r: Result<Folder, FolderError>)
      requires Indexed(folders) && Lists(folders, id, listed)
      modifies `folders
      ensures Indexed(folders)
      ensures match Move(old(folders), id, newParentId, owner)
              case Ok(t) => folders == t && r == Ok(t[id])
              case Err(e) => folders == old(folders) && r == Err(e)
    {
      if id !in folders {
        return Err(NotFound);
      }
      var folder := folders[id];
      if folder.ownerId != owner {
        return Err(AccessDenied);
      }
      var newParentPath := None;
      if newParentId.Some? {
        if newParentId.value !in folders {
          return Err(NotFound);
        }
        var newParent := folders[newParentId.value];
        if newParent.ownerId != owner {
          return Err(AccessDenied);
        }
        if folder.path <= newParent.path {
          return Err(IntoOwnSubfolder);
        }
        newParentPath := Some(newParent.path);
      }
      var newPath := BuildFolderPath(newParentPath, folder.name);
      if OwnerHas(folders, owner, newPath, Some(id)) {
        return Err(AlreadyExists);
      }
      MoveIsPlaced(folders, id, newParentId);
      MoveKeepsIndex(folders, id, newParentId, owner);
      var done := Transaction(id, folder.(parentId := newParentId, path := newPath), listed);
      if !done {
        return Err(UniqueViolation);
      }
      return Ok(folders[id]);
    }

    /** The ordered transaction: the folder's own row first, its descendants
        after it as listed, the unique path checked at every statement. A refusal
        rolls back. */
    method Transaction(id: FolderId, row: Folder, listed: seq<FolderId>) returns (done: bool)
      requires Indexed(folders) && id in folders && Placed(folders, id, row) && Lists(folders, id, listed)
      modifies `folders
      ensures done <==> !PathTaken(old(folders), row.path, Some(id))
      ensures done ==> folders == Rewritten(old(folders), id, row)
      ensures !done ==> folders == old(folders)
    {
      if PathTaken(folders, row.path, Some(id)) {
        return false;
      }
      var t := folders;
      folders := folders[id := row];
      StartIsPartial(t, id, row);
      for i := 0 to |listed|
        invariant folders == Partial(t, id, row, Elements(listed[..i]))
      {
        ElementsStep(listed, i);
        UpdateChild(t, id, row, Elements(listed[..i]), listed[i]);
      }
      assert listed[..|listed|] == listed;
      AllIsRewritten(t, id, row, Elements(listed));
      return true;
    }

    /** One update of the transaction, after the rows in done. */
    method UpdateChild(t: Table, id: FolderId, row: Folder, ghost done: set<FolderId>, a: FolderId)
      requires Indexed(t) && id in t && Placed(t, id, row) && Free(t, id, row.path)
      requires a in t && Selected(t, id, a)
      requires folders == Partial(t, id, row, done)
      modifies `folders
      ensures folders == Partial(t, id, row, done + {a})
    {
      StatementIsAccepted(t, id, row, done, a);
      var path := ReplaceFirst(t[a].path, t[id].path, row.path);
      assert !PathTaken(folders, path, Some(a));    // the schema lets every statement through
      folders := folders[a := folders[a].(path := path)];
    }

    method DeleteFolder(id: FolderId, owner: OwnerId) returns (r: Result<(), FolderError>)
      modifies `folders
      ensures old(Indexed(folders)) ==> Indexed(folders)
      ensures match Delete(old(folders), files, id, owner)
              case Ok(t) => folders == t && r.Ok?
              case Err(e) => folders == old(folders) && r == Err(e)
    {
      if id !in folders {
        return Err(NotFound);
      }
      if folders[id].ownerId != owner {
        return Err(AccessDenied);
      }
      if IsUsed(folders, files, id) {
        return Err(NotEmpty);
      }
      if Indexed(folders) { DropKeepsIndex(folders, id); }
      folders := folders - {id};
      return Ok(());
    }

    /** createSignedUploadUrl with a folder name: the second writer of the index. */
    method FindOrCreateRoot(freshId: FolderId, folderName: string, owner: OwnerId)
        returns (r: Result<Option<FolderId>, FolderError>)
      requires Indexed(folders)
      requires freshId !in folders
      modifies `folders
      ensures Indexed(folders)
      ensures r == Ok(None) <==> SanitizeFolderName(folderName) == ""
      ensures r.Ok? && r.value.Some? ==>
                && r.value.value in folders
                && folders[r.value.value].path == SanitizeFolderName(folderName)
                && folders[r.value.value].ownerId == owner && folders[r.value.value].parentId == None
      // found, or created as createFolder would
      ensures folders == old(folders) || Create(old(folders), freshId, folderName, None, false, owner) == Ok(folders)
      // the only failure: another owner has the path
      ensures r.Err? <==>
                && SanitizeFolderName(folderName) != ""
                && StrangerHasRoot(old(folders), owner, SanitizeFolderName(folderName))
    {
      var sanitized := SanitizeFolderName(folderName);
      if sanitized == "" {
        return Ok(None);
      }
      SanitizeIsIdempotent(folderName);
      if a :| a in folders && folders[a].name == sanitized && folders[a].ownerId == owner
              && folders[a].parentId == None {
        assert FolderOk(folders, a);
        return Ok(Some(a));
      }
      var path := BuildFolderPath(None, sanitized);
      RootsHaveShortPaths(folders, path);
      if PathTaken(folders, path, None) {
        // P2002; the retry by path and owner finds nothing either
        assert !OwnerHas(folders, owner, path, None);
        return Err(UniqueViolation);
      }
      CreateKeepsIndex(folders, freshId, folderName, None, false, owner);
      folders := folders[freshId := Folder(sanitized, path, None, owner, false)];
      return Ok(Some(freshId));
    }
  }

  // ----- lemmas about single rows ----------------------------------------------------------------

  /** The code's replace call computes the swapped path. */
  lemma ReplaceIsSwap(t: Table, id: FolderId, row: Folder, a: FolderId)
    requires Indexed(t) && id in t && Placed(t, id, row) && a in t && Selected(t, id, a)
    ensures ReplaceFirst(t[a].path, t[id].path, row.path) == Swapped(t, id, row.path, a)
  {
    if row.parentId.Some? { PathsAreNotEmpty(t, row.parentId.value); }
    assert t[id].path <= t[a].path;
    ReplaceSwapsPrefix(t[a].path, t[id].path, row.path);
  }

  lemma NoneInTheWay(t: Table, id: FolderId, row: Folder, done: set<FolderId>, a: FolderId)
    requires Indexed(t) && id in t && Placed(t, id, row) && Free(t, id, row.path)
    requires a in t && Selected(t, id, a)
    ensures !PathTaken(Partial(t, id, row, done), Swapped(t, id, row.path, a), Some(a))
  {
    var now := Partial(t, id, row, done);
    forall b | b in now && b != a ensures now[b].path != Swapped(t, id, row.path, a) {
      NeverCollides(t, id, row, done, a, b);
    }
  }

  lemma StepIsPartial(t: Table, id: FolderId, row: Folder, done: set<FolderId>, a: FolderId)
    requires id in t && a in t && Selected(t, id, a)
    ensures var now := Partial(t, id, row, done);
      now[a := now[a].(path := Swapped(t, id, row.path, a))] == Partial(t, id, row, done + {a})
  {
  }

  /** At any point of the transaction the next statement meets no taken path. */
  lemma StatementIsAccepted(t: Table, id: FolderId, row: Folder, done: set<FolderId>, a: FolderId)
    requires Indexed(t) && id in t && Placed(t, id, row) && Free(t, id, row.path)
    requires a in t && Selected(t, id, a)
    ensures var path := ReplaceFirst(t[a].path, t[id].path, row.path);
      var now := Partial(t, id, row, done);
      !PathTaken(now, path, Some(a)) && now[a := now[a].(path := path)] == Partial(t, id, row, done + {a})
  {
    ReplaceIsSwap(t, id, row, a);
    NoneInTheWay(t, id, row, done, a);
    StepIsPartial(t, id, row, done, a);
  }

  /** findMany's answer: the descendants by prefix, in any order. */
  ghost predicate Lists(t: Table, id: FolderId, listed: seq<FolderId>) {
    id in t ==> forall a :: a in listed <==> a in t && Selected(t, id, a)
  }

  lemma StartIsPartial(t: Table, id: FolderId, row: Folder)
    requires id in t
    ensures t[id := row] == Partial(t, id, row, Elements([]))
  {
  }

  lemma AllIsRewritten(t: Table, id: FolderId, row: Folder, done: set<FolderId>)
    requires id in t && forall a :: a in t && Selected(t, id, a) ==> a in done
    ensures Partial(t, id, row, done) == Rewritten(t, id, row)
  {
  }

  lemma AddKeepsIndex(t: Table, id: FolderId, f: Folder)
    requires Indexed(t) && id !in t && SafeName(f.name) && Free(t, id, f.path)
    requires match f.parentId
             case None => f.path == f.name
             case Some(p) => p in t && f.path == t[p].path + "/" + f.name && f.ownerId == t[p].ownerId
    ensures Indexed(t[id := f])
  {
    var after := t[id := f];
    forall a | a in after ensures FolderOk(after, a) {
      if a != id { assert FolderOk(t, a); }
    }
  }

  lemma DropKeepsIndex(t: Table, id: FolderId)
    requires Indexed(t) && forall a :: a in t ==> t[a].parentId != Some(id)
    ensures Indexed(t - {id})
  {
    forall a | a in t - {id} ensures FolderOk(t - {id}, a) { assert FolderOk(t, a); }
  }

  /** A slash-free path belongs to a root folder of that name. */
  lemma RootsHaveShortPaths(t: Table, path: string)
    requires Indexed(t) && '/' !in path
    ensures forall a :: a in t && t[a].path == path ==> t[a].parentId == None && t[a].name == path
  {
    forall a | a in t && t[a].path == path ensures t[a].parentId == None && t[a].name == path {
      assert FolderOk(t, a);
      ParentPathIsParents(t, a);
      NoParentPath(path);
    }
  }
}
