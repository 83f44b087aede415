/** The folder endpoints (backend/controllers/folderController.js): each
    loads the folder, checks the caller against it, and changes the store
    only when every check passes. */
module FolderController {
  import opened Common
  import opened FolderModel
  import opened Store
  import opened Sorting

  // ---------------------------------------------------------------------
  // Pure parts: the share list edits and the folder patch
  // ---------------------------------------------------------------------

  /** The grant shareFolder pushes for a resolved user. */
  function Grant(f: Folder, u: UserId, level: AccessLevel, now: int): Folder
  {
    f.(sharedWith := f.sharedWith + [ShareGrant(u, level, now)])
  }

  /** Pushing a grant for a user who is neither the owner nor already a
      grantee keeps the sharing invariant, leaves the earlier grants as
      they were, and gives that user read access. */
  lemma GrantKeepsWellShared(f: Folder, u: UserId, level: AccessLevel, now: int)
    requires WellShared(f)
    requires u != f.owner && !HasGrant(f.sharedWith, u)
    ensures WellShared(Grant(f, u, level, now))
    ensures Grant(f, u, level, now).sharedWith[..|f.sharedWith|] == f.sharedWith
    ensures CanView(Grant(f, u, level, now), u)
    ensures HasEditGrant(Grant(f, u, level, now).sharedWith, u) <==> level == Edit
  {
    var sw := Grant(f, u, level, now).sharedWith;
    assert sw[|sw| - 1] in sw;
    forall i | 0 <= i < |f.sharedWith| ensures sw[i].userId != u {
      assert sw[i] in f.sharedWith;
    }
    if HasEditGrant(sw, u) {
      var g :| g in sw && g.userId == u && g.accessLevel == Edit;
      assert g !in f.sharedWith;
    }
  }

  /** The list removeSharedUser keeps: every grant not naming `u`, in order. */
  function Without(sw: seq<ShareGrant>, u: UserId): (r: seq<ShareGrant>)
    ensures |r| <= |sw|
    ensures forall g :: g in r <==> g in sw && g.userId != u
  {
    if sw == [] then []
    else (if sw[0].userId == u then [] else [sw[0]]) + Without(sw[1..], u)
  }

  /** Removing a user who holds no grant changes nothing. */
  lemma {:induction false} WithoutAbsentIsIdentity(sw: seq<ShareGrant>, u: UserId)
    requires !HasGrant(sw, u)
    ensures Without(sw, u) == sw
  {
    if sw != [] {
      assert sw[0] in sw;
      assert !HasGrant(sw[1..], u) by {
        forall g | g in sw[1..] ensures g.userId != u { assert g in sw; }
      }
      WithoutAbsentIsIdentity(sw[1..], u);
      assert sw == [sw[0]] + sw[1..];
    }
  }

  /** Removal works piecewise, so the kept grants stay in their order. */
  lemma {:induction false} WithoutConcat(a: seq<ShareGrant>, b: seq<ShareGrant>, u: UserId)
    ensures Without(a + b, u) == Without(a, u) + Without(b, u)
  {
    if a != [] {
      assert (a + b)[1..] == a[1..] + b;
      WithoutConcat(a[1..], b, u);
    } else {
      assert a + b == b;
    }
  }

  /** Removal keeps the grantees distinct. */
  lemma {:induction false} WithoutKeepsDistinct(sw: seq<ShareGrant>, u: UserId)
    requires DistinctGrantees(sw)
    ensures DistinctGrantees(Without(sw, u))
  {
    if sw != [] {
      var rest := sw[1..];
      assert DistinctGrantees(rest) by {
        forall i, j | 0 <= i < j < |rest| ensures rest[i].userId != rest[j].userId {
          assert rest[i] == sw[i + 1] && rest[j] == sw[j + 1];
        }
      }
      WithoutKeepsDistinct(rest, u);
      var tail := Without(rest, u);
      if sw[0].userId != u {
        var r := [sw[0]] + tail;
        forall j | 1 <= j < |r| ensures r[0].userId != r[j].userId {
          assert r[j] in tail;
          var k :| 0 <= k < |rest| && rest[k] == r[j];
          assert sw[k + 1] == r[j];
        }
      }
    }
  }

  /** Revoking keeps the sharing invariant and leaves `u` without access
      unless `u` owns the folder; the other grantees keep theirs. */
  lemma RevokeKeepsWellShared(f: Folder, u: UserId)
    requires WellShared(f)
    ensures WellShared(f.(sharedWith := Without(f.sharedWith, u)))
    ensures !HasGrant(Without(f.sharedWith, u), u)
    ensures forall v :: v != u ==> (HasGrant(Without(f.sharedWith, u), v) <==> HasGrant(f.sharedWith, v))
  {
    WithoutKeepsDistinct(f.sharedWith, u);
    forall v | v != u && HasGrant(f.sharedWith, v)
      ensures HasGrant(Without(f.sharedWith, u), v)
    {
      var g :| g in f.sharedWith && g.userId == v;
      assert g in Without(f.sharedWith, u);
    }
  }

  /** updateFolder's patch: the name is set (and trimmed by the schema)
      when given, the color when given, the pin flag when not undefined.
      A name that trims to nothing fails validation on save. */
  function PatchFolder(f: Folder, name: string, color: string, isPinned: Option<bool>): (r: Option<Folder>)
    ensures r.None? <==> name != "" && IsBlank(name)
    ensures r.Some? ==> r.value.owner == f.owner && r.value.sharedWith == f.sharedWith && r.value.createdAt == f.createdAt
    ensures r.Some? ==> r.value.name != "" || f.name == ""
  {
    TrimCharacterization(name);
    if name != "" && Trim(name) == "" then None
    else Some(f.(name := if name != "" then Trim(name) else f.name,
                 color := if color != "" then color else f.color,
                 isPinned := isPinned.GetOrDefault(f.isPinned)))
  }

  /** A patch that gives nothing leaves the folder as it was; a patch
      keeps the owner and the sharing list, hence the invariant. */
  lemma PatchFolderProperties(f: Folder, name: string, color: string, isPinned: Option<bool>)
    ensures PatchFolder(f, "", "", None) == Some(f)
    ensures PatchFolder(f, name, color, isPinned).Some? && WellShared(f) ==>
              WellShared(PatchFolder(f, name, color, isPinned).value)
    ensures PatchFolder(f, name, color, isPinned).Some? ==>
              PatchFolder(f, name, color, isPinned).value.isPinned == (if isPinned.Some? then isPinned.value else f.isPinned)
  {
  }

  /** The task store after deleteFolder's `Task.deleteMany({ folderId })`. */
  function TasksOutsideFolder(tasks: map<TaskId, Task>, fid: FolderId): (r: map<TaskId, Task>)
    ensures forall id :: id in r ==> id in tasks && r[id] == tasks[id] && r[id].folderId != fid
    ensures forall id :: id in tasks && tasks[id].folderId != fid ==> id in r
  {
    map id | id in tasks && tasks[id].folderId != fid :: tasks[id]
  }

  /** getFolders' order: pinned folders first, then the newest first. */
  predicate PinnedThenNewest(a: (FolderId, Folder), b: (FolderId, Folder))
  {
    (a.1.isPinned && !b.1.isPinned) || (a.1.isPinned == b.1.isPinned && a.1.createdAt >= b.1.createdAt)
  }

  lemma PinnedThenNewestIsTotalPreorder()
    ensures TotalPreorder(PinnedThenNewest)
  {
  }

  /** The id of the user `findOne({ email })` finds. */
  function UserByEmail(users: seq<User>, email: string): (r: Option<UserId>)
    ensures r.Some? <==> exists u :: u in users && u.email == email
    ensures r.Some? ==> exists u :: u in users && u.email == email && u.id == r.value
  {
    var i := FirstWithEmail(users, email);
    if i < |users| then Some(users[i].id)
    else
      assert forall u :: u in users ==> u.email != email;
      None
  }

  // ---------------------------------------------------------------------
  // Endpoints
  // ---------------------------------------------------------------------

  /** POST /folders */
  method CreateFolder(db: Db, caller: UserId, name: string, color: string, now: int)
    returns (st: Status, id: Option<FolderId>)
    requires db.Valid()
    modifies db
    ensures db.Valid()
    ensures db.users == old(db.users) && db.tasks == old(db.tasks) && db.log == old(db.log)
    ensures name == "" ==> st == BadRequest
    ensures name != "" && IsBlank(name) ==> st == ServerError
    ensures !IsBlank(name) ==> st == Created
    ensures st != Created ==> id == None && db.folders == old(db.folders)
    ensures st == Created ==>
              var f := NewFolder(name, caller, Some(if color == "" then DefaultColor else color), now);
              id.Some? && id.value !in old(db.folders) && f.Some? &&
              db.folders == old(db.folders)[id.value := f.value]
  {
    if name == "" {
      return BadRequest, None;
    }
    var f := NewFolder(name, caller, Some(if color == "" then DefaultColor else color), now);
    if f.None? {
      return ServerError, None;
    }
    var fid := db.nextId;
    db.folders := db.folders[fid := f.value];
    db.nextId := db.nextId + 1;
    return Created, Some(fid);
  }

  /** GET /folders: the caller's own folders, pinned first, newest first. */
  method GetFolders(db: Db, caller: UserId) returns (r: seq<(FolderId, Folder)>)
    requires db.Valid()
    ensures forall p :: p in r <==> p.0 in db.folders && db.folders[p.0] == p.1 && p.1.owner == caller
    ensures NoDuplicates(r)
    ensures SortedBy(r, PinnedThenNewest)
  {
    PinnedThenNewestIsTotalPreorder();
    r := [];
    var todo := db.folders.Keys;
    while todo != {}
      invariant todo <= db.folders.Keys
      invariant forall p :: p in r <==> p.0 in db.folders.Keys - todo && db.folders[p.0] == p.1 && p.1.owner == caller
      invariant NoDuplicates(r)
      invariant SortedBy(r, PinnedThenNewest)
      decreases todo
    {
      var k :| k in todo;
      var f := db.folders[k];
      if f.owner == caller {
        var j;
        ghost var before := r;
        r, j := InsertSorted(r, (k, f), PinnedThenNewest);
        SpliceNoDuplicates(before, (k, f), j);
      }
      todo := todo - {k};
    }
  }

  /** GET /folders/:id: the owner only. */
  method GetFolder(db: Db, caller: UserId, id: FolderId) returns (st: Status, f: Option<Folder>)
    ensures st == NotFound <==> id !in db.folders
    ensures st == Forbidden <==> id in db.folders && db.folders[id].owner != caller
    ensures st == Ok <==> id in db.folders && db.folders[id].owner == caller
    ensures st == Ok ==> f == Some(db.folders[id])
    ensures st != Ok ==> f == None
  {
    if id !in db.folders {
      return NotFound, None;
    }
    var folder := db.folders[id];
    if folder.owner != caller {
      return Forbidden, None;
    }
    return Ok, Some(folder);
  }

  /** PUT /folders/:id: the owner may rename, recolor and (un)pin. */
  method UpdateFolder(db: Db, caller: UserId, id: FolderId, name: string, color: string, isPinned: Option<bool>)
    returns (st: Status)
    requires db.Valid()
    modifies db
    ensures db.Valid()
    ensures db.users == old(db.users) && db.tasks == old(db.tasks) && db.log == old(db.log)
    ensures st == NotFound <==> id !in old(db.folders)
    ensures st == Forbidden <==> id in old(db.folders) && old(db.folders)[id].owner != caller
    ensures st == ServerError <==>
              id in old(db.folders) && old(db.folders)[id].owner == caller && name != "" && IsBlank(name)
    ensures st != Ok ==> db.folders == old(db.folders)
    ensures st == Ok ==>
              var p := PatchFolder(old(db.folders)[id], name, color, isPinned);
              p.Some? && db.folders == old(db.folders)[id := p.value]
  {
    if id !in db.folders {
      return NotFound;
    }
    var folder := db.folders[id];
    if folder.owner != caller {
      return Forbidden;
    }
    var patched := PatchFolder(folder, name, color, isPinned);
    if patched.None? {
      return ServerError;
    }
    PatchFolderProperties(folder, name, color, isPinned);
    db.folders := db.folders[id := patched.value];
    return Ok;
  }

  /** DELETE /folders/:id: the owner deletes the folder and every task
      filed in it, whoever created the task. */
  method DeleteFolder(db: Db, caller: UserId, id: FolderId) returns (st: Status)
    requires db.Valid()
    modifies db
    ensures db.Valid()
    ensures db.users == old(db.users) && db.log == old(db.log)
    ensures st == NotFound <==> id !in old(db.folders)
    ensures st == Forbidden <==> id in old(db.folders) && old(db.folders)[id].owner != caller
    ensures st == Ok <==> id in old(db.folders) && old(db.folders)[id].owner == caller
    ensures st != Ok ==> db.folders == old(db.folders) && db.tasks == old(db.tasks)
    ensures st == Ok ==> db.folders == old(db.folders) - {id}
    ensures st == Ok ==> db.tasks == TasksOutsideFolder(old(db.tasks), id)
  {
    if id !in db.folders {
      return NotFound;
    }
    if db.folders[id].owner != caller {
      return Forbidden;
    }
    db.tasks := TasksOutsideFolder(db.tasks, id);
    db.folders := db.folders - {id};
    return Ok;
  }

  /** POST /folders/:id/share: checked in order (email given, folder
      found, caller owns it, grantee found, grantee is not the caller,
      not already shared); on success exactly one grant is appended. */
  method ShareFolder(db: Db, caller: UserId, id: FolderId, email: string, accessLevel: string, now: int)
    returns (st: Status)
    requires db.Valid()
    modifies db
    ensures db.Valid()
    ensures db.users == old(db.users) && db.tasks == old(db.tasks) && db.log == old(db.log)
    ensures email == "" ==> st == BadRequest
    ensures email != "" && id !in old(db.folders) ==> st == NotFound
    ensures email != "" && id in old(db.folders) && old(db.folders)[id].owner != caller ==> st == Forbidden
    ensures email != "" && id in old(db.folders) && old(db.folders)[id].owner == caller ==>
              var g := UserByEmail(db.users, email);
              var sw := old(db.folders)[id].sharedWith;
              && (g.None? ==> st == NotFound)
              && (g == Some(caller) ==> st == BadRequest)
              && (g.Some? && g.value != caller && HasGrant(sw, g.value) ==> st == BadRequest)
              && (g.Some? && g.value != caller && !HasGrant(sw, g.value) ==>
                    if ParseAccessLevel(accessLevel).None? then st == ServerError
                    else st == Ok && db.folders == old(db.folders)[id := Grant(old(db.folders)[id], g.value, ParseAccessLevel(accessLevel).value, now)])
    ensures st != Ok ==> db.folders == old(db.folders)
  {
    if email == "" {
      return BadRequest;
    }
    if id !in db.folders {
      return NotFound;
    }
    var folder := db.folders[id];
    if folder.owner != caller {
      return Forbidden;
    }
    var grantee := UserByEmail(db.users, email);
    if grantee.None? {
      return NotFound;
    }
    if grantee.value == caller {
      return BadRequest;
    }
    if HasGrant(folder.sharedWith, grantee.value) {
      return BadRequest;
    }
    var level := ParseAccessLevel(accessLevel);
    if level.None? {
      return ServerError;
    }
    GrantKeepsWellShared(folder, grantee.value, level.value, now);
    db.folders := db.folders[id := Grant(folder, grantee.value, level.value, now)];
    return Ok;
  }

  /** GET /folders/shared/all: every folder that lists the caller as a
      grantee, at any access level. */
  method GetSharedFolders(db: Db, caller: UserId) returns (r: seq<(FolderId, Folder)>)
    ensures forall p :: p in r <==> p.0 in db.folders && db.folders[p.0] == p.1 && HasGrant(p.1.sharedWith, caller)
    ensures NoDuplicates(r)
  {
    r := [];
    var todo := db.folders.Keys;
    while todo != {}
      invariant todo <= db.folders.Keys
      invariant forall p :: p in r <==> p.0 in db.folders.Keys - todo && db.folders[p.0] == p.1 && HasGrant(p.1.sharedWith, caller)
      invariant NoDuplicates(r)
      decreases todo
    {
      var k :| k in todo;
      var f := db.folders[k];
      if HasGrant(f.sharedWith, caller) {
        SpliceNoDuplicates(r, (k, f), |r|);
        r := r + [(k, f)];
      }
      todo := todo - {k};
    }
  }

  /** DELETE /folders/:folderId/share/:userId: the owner removes every
      grant naming the user; removing a user never granted succeeds. */
  method RemoveSharedUser(db: Db, caller: UserId, id: FolderId, target: UserId) returns (st: Status)
    requires db.Valid()
    modifies db
    ensures db.Valid()
    ensures db.users == old(db.users) && db.tasks == old(db.tasks) && db.log == old(db.log)
    ensures st == NotFound <==> id !in old(db.folders)
    ensures st == Forbidden <==> id in old(db.folders) && old(db.folders)[id].owner != caller
    ensures st == Ok <==> id in old(db.folders) && old(db.folders)[id].owner == caller
    ensures st != Ok ==> db.folders == old(db.folders)
    ensures st == Ok ==>
              db.folders == old(db.folders)[id := old(db.folders)[id].(sharedWith := Without(old(db.folders)[id].sharedWith, target))]
  {
    if id !in db.folders {
      return NotFound;
    }
    var folder := db.folders[id];
    if folder.owner != caller {
      return Forbidden;
    }
    RevokeKeepsWellShared(folder, target);
    db.folders := db.folders[id := folder.(sharedWith := Without(folder.sharedWith, target))];
    return Ok;
  }

  /** GET /folders/shared/:id: the owner or any grantee. Populating the
      owner of a folder whose owner account is gone fails with 500. */
  method GetSharedFolderDetail(db: Db, caller: UserId, id: FolderId) returns (st: Status, f: Option<Folder>)
    ensures st == NotFound <==> id !in db.folders
    ensures st == ServerError <==> id in db.folders && !UserExists(db.users, db.folders[id].owner)
    ensures st == Ok <==> id in db.folders && UserExists(db.users, db.folders[id].owner) && CanView(db.folders[id], caller)
    ensures st == Forbidden <==> id in db.folders && UserExists(db.users, db.folders[id].owner) && !CanView(db.folders[id], caller)
    ensures st == Ok ==> f == Some(db.folders[id])
    ensures st != Ok ==> f == None
  {
    if id !in db.folders {
      return NotFound, None;
    }
    var folder := db.folders[id];
    var i := FirstWithId(db.users, folder.owner);
    if i == |db.users| {
      return ServerError, None;
    }
    var hasAccess := folder.owner == caller || HasGrant(folder.sharedWith, caller);
    if !hasAccess {
      return Forbidden, None;
    }
    return Ok, Some(folder);
  }
}
