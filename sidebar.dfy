/** The folder sidebar (frontend/src/components/Sidebar.js): the pinned
    and regular sections, and the checks and resets of the new-folder and
    share forms. */
module Sidebar {
  import opened Common
  import opened FolderModel
  import opened Filtering

  predicate IsPinned(f: Folder)
  {
    f.isPinned
  }

  predicate IsRegular(f: Folder)
  {
    !f.isPinned
  }

  function PinnedFolders(folders: seq<Folder>): seq<Folder>
  {
    Filter(folders, IsPinned)
  }

  function RegularFolders(folders: seq<Folder>): seq<Folder>
  {
    Filter(folders, IsRegular)
  }

  /** The two sections partition the folders by their pin, each in the
      order of the folder list. */
  lemma PinPartition(folders: seq<Folder>)
    ensures multiset(PinnedFolders(folders)) + multiset(RegularFolders(folders)) == multiset(folders)
    ensures forall f :: f in PinnedFolders(folders) <==> f in folders && f.isPinned
    ensures forall f :: f in RegularFolders(folders) <==> f in folders && !f.isPinned
    ensures var pos := KeptPositions(folders, IsPinned);
            && |pos| == |PinnedFolders(folders)|
            && (forall k :: 0 <= k < |pos| ==> pos[k] < |folders| && PinnedFolders(folders)[k] == folders[pos[k]])
            && (forall k, l :: 0 <= k < l < |pos| ==> pos[k] < pos[l])
    ensures var pos := KeptPositions(folders, IsRegular);
            && |pos| == |RegularFolders(folders)|
            && (forall k :: 0 <= k < |pos| ==> pos[k] < |folders| && RegularFolders(folders)[k] == folders[pos[k]])
            && (forall k, l :: 0 <= k < l < |pos| ==> pos[k] < pos[l])
  {
    FilterPartition(folders, IsPinned, IsRegular);
    FilterMembers(folders, IsPinned);
    FilterMembers(folders, IsRegular);
    FilterIsSubsequence(folders, IsPinned);
    FilterIsSubsequence(folders, IsRegular);
  }

  /** The requests the sidebar sends. `folder` is `sharingFolderId`, null
      when no share form is open. */
  datatype Request =
    | CreateRequest(name: string, color: string)
    | ShareRequest(folder: Option<FolderId>, email: string, accessLevel: string)

  /** A submit either shows an error and sends nothing, or sends one
      request. */
  datatype Outcome = Refused(error: string) | Send(request: Request)

  datatype NewFolderForm = NewFolderForm(name: string, color: string, open: bool, error: string)

  /** handleCreateFolder: a blank name is refused; the name goes out
      untrimmed. */
  function SubmitNewFolder(form: NewFolderForm): (r: Outcome)
    ensures r.Refused? <==> IsBlank(form.name)
    ensures r.Refused? ==> r.error == "Folder name is required"
    ensures r.Send? ==> r.request == CreateRequest(form.name, form.color)
  {
    TrimCharacterization(form.name);
    if Trim(form.name) == "" then Refused("Folder name is required")
    else Send(CreateRequest(form.name, form.color))
  }

  /** The form after the folder was created. */
  function AfterCreated(form: NewFolderForm): NewFolderForm
  {
    NewFolderForm("", DefaultColor, false, "")
  }

  /** The sidebar sends a create request exactly for the names the folder
      schema accepts, so its check spares the server a failed save. */
  lemma CreateCheckMatchesSchema(form: NewFolderForm, owner: UserId, now: int)
    ensures SubmitNewFolder(form).Send? <==> NewFolder(form.name, owner, Some(form.color), now).Some?
  {
  }

  /** After a create the form is closed and back at the schema's default
      colour, and submitting it again as it stands is refused. */
  lemma CreatedFormIsReset(form: NewFolderForm)
    ensures !AfterCreated(form).open && AfterCreated(form).color == DefaultColor
    ensures SubmitNewFolder(AfterCreated(form)) == Refused("Folder name is required")
  {
  }

  datatype ShareForm = ShareForm(folder: Option<FolderId>, email: string, accessLevel: string, error: string)

  /** shareFolder: a blank email is refused; the email goes out untrimmed. */
  function SubmitShare(form: ShareForm): (r: Outcome)
    ensures r.Refused? <==> IsBlank(form.email)
    ensures r.Refused? ==> r.error == "Email is required"
    ensures r.Send? ==> r.request == ShareRequest(form.folder, form.email, form.accessLevel)
  {
    TrimCharacterization(form.email);
    if Trim(form.email) == "" then Refused("Email is required")
    else Send(ShareRequest(form.folder, form.email, form.accessLevel))
  }

  /** The form after a successful share. */
  function AfterShared(form: ShareForm): ShareForm
  {
    ShareForm(None, "", "view", "")
  }

  /** A share request never carries an empty email, the one input the
      server refuses outright; after a share the form is closed, its level
      is back at view, and submitting it again as it stands is refused. */
  lemma ShareFormLaws(form: ShareForm)
    ensures SubmitShare(form).Send? ==> SubmitShare(form).request.email != ""
    ensures AfterShared(form).folder.None?
    ensures ParseAccessLevel(AfterShared(form).accessLevel) == Some(View)
    ensures SubmitShare(AfterShared(form)) == Refused("Email is required")
  {
    if SubmitShare(form).Send? {
      TrimCharacterization(form.email);
    }
  }
}
