/** The folder document (backend/models/Folder.js): its fields, their
    defaults, the share grant it holds for every user it is shared with,
    and the conditions under which saving it passes schema validation. */
module FolderModel {
  import opened Common

  datatype AccessLevel = View | Edit

  /** One entry of `sharedWith`. */
  datatype ShareGrant = ShareGrant(userId: UserId, accessLevel: AccessLevel, sharedAt: int)

  /** A stored folder. `owner` is the schema's `userId`. */
  datatype Folder = Folder(
    name: string,
    owner: UserId,
    color: string,
    isPinned: bool,
    sharedWith: seq<ShareGrant>,
    createdAt: int)

  const DefaultColor: string := "#3498db"

  /** The access level a request asks for, after `accessLevel || 'view'`
      and the schema's enum check: an empty (absent) level means view,
      anything outside the enum makes the save fail. */
  function ParseAccessLevel(s: string): (r: Option<AccessLevel>)
    ensures r == Some(View) <==> s == "" || s == "view"
    ensures r == Some(Edit) <==> s == "edit"
    ensures r == None <==> s != "" && s != "view" && s != "edit"
  {
    if s == "" || s == "view" then Some(View)
    else if s == "edit" then Some(Edit)
    else None
  }

  /** Builds a folder document the way the schema does: the name is
      trimmed and required (a name that trims to nothing fails
      validation), the color defaults, the folder starts unpinned and
      shared with nobody. */
  function NewFolder(name: string, owner: UserId, color: Option<string>, now: int): (r: Option<Folder>)
    ensures r.None? <==> IsBlank(name)
    ensures r.Some? ==> r.value.owner == owner && r.value.sharedWith == [] && !r.value.isPinned
    ensures r.Some? ==> r.value.name != "" && r.value.name == Trim(name)
    ensures r.Some? ==> r.value.color == (if color.Some? then color.value else DefaultColor)
  {
    TrimCharacterization(name);
    var trimmed := Trim(name);
    if trimmed == "" then None
    else Some(Folder(trimmed, owner, color.GetOrDefault(DefaultColor), false, [], now))
  }

  /** Some grant in the list names user `u`, at any access level. */
  predicate HasGrant(sw: seq<ShareGrant>, u: UserId)
  {
    exists g :: g in sw && g.userId == u
  }

  /** Some grant in the list gives user `u` edit access. */
  predicate HasEditGrant(sw: seq<ShareGrant>, u: UserId)
  {
    exists g :: g in sw && g.userId == u && g.accessLevel == Edit
  }

  /** Read access as getSharedFolderDetail and getTasks grant it: the
      owner, or any grantee whatever their access level. */
  predicate CanView(f: Folder, u: UserId)
  {
    f.owner == u || HasGrant(f.sharedWith, u)
  }

  /** The sharing invariant that shareFolder maintains (the schema itself
      does not enforce it): no user is granted twice, and the owner is
      never a grantee of their own folder. */
  predicate WellShared(f: Folder)
  {
    DistinctGrantees(f.sharedWith) && !HasGrant(f.sharedWith, f.owner)
  }

  predicate DistinctGrantees(sw: seq<ShareGrant>)
  {
    forall i, j :: 0 <= i < j < |sw| ==> sw[i].userId != sw[j].userId
  }

  /** In a well-shared folder a user holds at most one grant, so a view
      grant excludes an edit grant, and the owner holds neither. */
  lemma GrantIsUnique(f: Folder, u: UserId, g: ShareGrant)
    requires WellShared(f)
    requires g in f.sharedWith && g.userId == u
    ensures u != f.owner
    ensures HasEditGrant(f.sharedWith, u) <==> g.accessLevel == Edit
  {
    var sw := f.sharedWith;
    if h :| h in sw && h.userId == u && h.accessLevel == Edit {
      var i :| 0 <= i < |sw| && sw[i] == g;
      var j :| 0 <= j < |sw| && sw[j] == h;
      assert sw[i].userId == sw[j].userId;
      assert i == j;
    }
  }
}
