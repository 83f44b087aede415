/** The task endpoints (backend/controllers/taskController.js): creation
    without any folder check, the creator-or-folder listing, creator-only
    reads, creator-or-editor updates and deletes, and the `taskUpdated`
    events the mutations emit. */
module TaskController {
  import opened Common
  import opened FolderModel
  import opened Store
  import opened Sorting

  // ---------------------------------------------------------------------
  // Authorization
  // ---------------------------------------------------------------------

  /** Who may update or delete a task: its creator, or a user holding an
      edit grant on the task's folder when that folder is found. Owning
      the folder is not enough. */
  predicate MayChangeTask(t: Task, folder: Option<Folder>, u: UserId)
  {
    t.userId == u || (folder.Some? && HasEditGrant(folder.value.sharedWith, u))
  }

  /** The folder a task is filed in, when it still exists. */
  function FolderOf(folders: map<FolderId, Folder>, t: Task): (r: Option<Folder>)
    ensures r.Some? <==> t.folderId in folders
    ensures r.Some? ==> r.value == folders[t.folderId]
  {
    if t.folderId in folders then Some(folders[t.folderId]) else None
  }

  /** The rules differ between endpoints. In a well-shared folder: the
      owner who did not create a task may not change it; a grantee with a
      view grant may read the folder but not change others' tasks; only an
      edit grantee may. */
  lemma ChangeRights(f: Folder, t: Task, u: UserId)
    requires WellShared(f) && t.userId != u
    ensures f.owner == u ==> !MayChangeTask(t, Some(f), u) && CanView(f, u)
    ensures forall g :: g in f.sharedWith && g.userId == u && g.accessLevel == View ==>
              CanView(f, u) && !MayChangeTask(t, Some(f), u)
    ensures MayChangeTask(t, Some(f), u) ==> CanView(f, u) && f.owner != u
    ensures !MayChangeTask(t, None, u)
  {
    forall g | g in f.sharedWith && g.userId == u && g.accessLevel == View
      ensures !MayChangeTask(t, Some(f), u)
    {
      GrantIsUnique(f, u, g);
    }
    if MayChangeTask(t, Some(f), u) {
      var g :| g in f.sharedWith && g.userId == u && g.accessLevel == Edit;
      GrantIsUnique(f, u, g);
    }
  }

  // ---------------------------------------------------------------------
  // The update patch
  // ---------------------------------------------------------------------

  /** A request field that may be left out, sent as null, or given. */
  datatype Field<T> = Absent | Null | Given(value: T)

  /** The body of an update request. `title` and `priority` are "" when
      absent or empty, `folderId` None when absent; `dueDate` Absent also
      stands for any other falsy non-null value. */
  datatype TaskPatch = TaskPatch(
    title: string,
    description: Field<string>,
    priority: string,
    dueDate: Field<int>,
    completed: Option<bool>,
    folderId: Option<FolderId>)

  const NoChange := TaskPatch("", Absent, "", Absent, None, None)

  /** updateTask's field-by-field assignment: title, priority and folder
      when truthy; description and completion whenever not undefined; the
      due date set when given, cleared when null, kept when absent. */
  function ApplyPatch(t: Task, p: TaskPatch): (r: Task)
    ensures r.id == t.id && r.userId == t.userId
  {
    t.(title := if p.title != "" then p.title else t.title,
       description := match p.description
                      case Absent => t.description
                      case Null => None
                      case Given(d) => Some(d),
       priority := if p.priority != "" then p.priority else t.priority,
       dueDate := match p.dueDate
                  case Absent => t.dueDate
                  case Null => None
                  case Given(d) => Some(d),
       completed := p.completed.GetOrDefault(t.completed),
       folderId := p.folderId.GetOrDefault(t.folderId))
  }

  /** An absent due date and a null due date are different requests: the
      first keeps a stored date, the second clears it. */
  lemma DueDateAbsentVersusNull(t: Task, p: TaskPatch)
    requires t.dueDate.Some?
    ensures ApplyPatch(t, p.(dueDate := Absent)).dueDate == t.dueDate
    ensures ApplyPatch(t, p.(dueDate := Null)).dueDate == None
    ensures ApplyPatch(t, p.(dueDate := Absent)) != ApplyPatch(t, p.(dueDate := Null))
  {
  }

  /** The empty patch changes nothing, and applying a patch twice is the
      same as applying it once. */
  lemma PatchLaws(t: Task, p: TaskPatch)
    ensures ApplyPatch(t, NoChange) == t
    ensures ApplyPatch(ApplyPatch(t, p), p) == ApplyPatch(t, p)
  {
  }

  // ---------------------------------------------------------------------
  // Listing order
  // ---------------------------------------------------------------------

  /** The due-date order of `sort({ dueDate: 1 })`: a missing date sorts
      before any date. */
  predicate DueNoLater(a: Option<int>, b: Option<int>)
  {
    match (a, b)
    case (None, _) => true
    case (Some(_), None) => false
    case (Some(x), Some(y)) => x <= y
  }

  /** `sort({ completed: 1, dueDate: 1 })`: open tasks first, then by due date. */
  predicate ListOrder(a: Task, b: Task)
  {
    (!a.completed && b.completed) || (a.completed == b.completed && DueNoLater(a.dueDate, b.dueDate))
  }

  lemma ListOrderIsTotalPreorder()
    ensures TotalPreorder(ListOrder)
  {
  }

  /** What a sorted listing looks like at its ends: no completed task
      precedes an open one, and among open tasks an undated one precedes
      every dated one. */
  lemma ListOrderConsequences(r: seq<Task>, i: int, j: int)
    requires SortedBy(r, ListOrder) && 0 <= i < j < |r|
    ensures !(r[i].completed && !r[j].completed)
    ensures r[i].completed == r[j].completed && r[j].dueDate.None? ==> r[i].dueDate.None?
    ensures r[i].completed == r[j].completed && r[i].dueDate.Some? && r[j].dueDate.Some? ==>
              r[i].dueDate.value <= r[j].dueDate.value
  {
    assert ListOrder(r[i], r[j]);
  }

  /** The tasks getTasks selects: without a folder, those the caller
      created; with one, every task filed in it. */
  predicate InScope(t: Task, caller: UserId, folderId: Option<FolderId>)
  {
    if folderId.None? then t.userId == caller else t.folderId == folderId.value
  }

  // ---------------------------------------------------------------------
  // Endpoints
  // ---------------------------------------------------------------------

  /** POST /tasks: any caller may file a task in any folder id; the
      creator is the caller. `priority` None is the schema default. */
  method CreateTask(db: Db, caller: UserId, title: string, description: Option<string>, folderId: Option<FolderId>,
                    priority: Option<string>, dueDate: Option<int>, emitOk: bool)
    returns (st: Status, id: Option<TaskId>)
    requires db.Valid()
    modifies db
    ensures db.Valid()
    ensures db.users == old(db.users) && db.folders == old(db.folders)
    ensures st == BadRequest <==> title == "" || folderId.None?
    ensures st != BadRequest ==> st == Created
    ensures st == BadRequest ==> id == None && db.tasks == old(db.tasks) && db.log == old(db.log)
    ensures st == Created ==> id.Some? && id.value !in old(db.tasks)
    ensures st == Created ==>
              var t := Task(id.value, title, description, caller, folderId.value, priority.GetOrDefault("medium"), false, dueDate);
              db.tasks == old(db.tasks)[id.value := t] &&
              db.log == old(db.log) + (if emitOk then [Emit(folderId.value, TaskCreated(t))] else [])
  {
    if title == "" || folderId.None? {
      return BadRequest, None;
    }
    var tid := db.nextId;
    var t := Task(tid, title, description, caller, folderId.value, priority.GetOrDefault("medium"), false, dueDate);
    db.tasks := db.tasks[tid := t];
    db.nextId := db.nextId + 1;
    if emitOk {
      db.log := db.log + [Emit(folderId.value, TaskCreated(t))];
    }
    return Created, Some(tid);
  }

  /** GET /tasks[?folderId]: the caller's own tasks, or, for a folder the
      caller owns or is granted, all of that folder's tasks; in list order. */
  method GetTasks(db: Db, caller: UserId, folderId: Option<FolderId>) returns (st: Status, r: seq<Task>)
    requires db.Valid()
    ensures folderId.Some? && folderId.value !in db.folders ==> st == NotFound
    ensures folderId.Some? && folderId.value in db.folders && !CanView(db.folders[folderId.value], caller) ==> st == Forbidden
    ensures st == Ok <==> folderId.None? || (folderId.value in db.folders && CanView(db.folders[folderId.value], caller))
    ensures st != Ok ==> r == []
    ensures st == Ok ==> forall t :: t in r <==> t in db.tasks.Values && InScope(t, caller, folderId)
    ensures NoDuplicates(r)
    ensures SortedBy(r, ListOrder)
  {
    if folderId.Some? {
      if folderId.value !in db.folders {
        return NotFound, [];
      }
      var folder := db.folders[folderId.value];
      var isOwner := folder.owner == caller;
      var isShared := HasGrant(folder.sharedWith, caller);
      if !(isOwner || isShared) {
        return Forbidden, [];
      }
    }
    ListOrderIsTotalPreorder();
    st, r := Ok, [];
    var todo := db.tasks.Keys;
    while todo != {}
      invariant todo <= db.tasks.Keys
      invariant forall t :: t in r <==> t.id in db.tasks.Keys - todo && db.tasks[t.id] == t && InScope(t, caller, folderId)
      invariant NoDuplicates(r)
      invariant SortedBy(r, ListOrder)
      decreases todo
    {
      var k :| k in todo;
      var t := db.tasks[k];
      if InScope(t, caller, folderId) {
        var j;
        ghost var before := r;
        r, j := InsertSorted(r, t, ListOrder);
        SpliceNoDuplicates(before, t, j);
      }
      todo := todo - {k};
    }
    forall t ensures t in r <==> t in db.tasks.Values && InScope(t, caller, folderId) {
      if t in db.tasks.Values {
        var k :| k in db.tasks && db.tasks[k] == t;
        assert k == t.id;
      }
    }
  }

  /** GET /tasks/:id: the creator only. */
  method GetTask(db: Db, caller: UserId, id: TaskId) returns (st: Status, t: Option<Task>)
    ensures st == NotFound <==> id !in db.tasks
    ensures st == Forbidden <==> id in db.tasks && db.tasks[id].userId != caller
    ensures st == Ok <==> id in db.tasks && db.tasks[id].userId == caller
    ensures st == Ok ==> t == Some(db.tasks[id])
    ensures st != Ok ==> t == None
  {
    if id !in db.tasks {
      return NotFound, None;
    }
    var task := db.tasks[id];
    if task.userId != caller {
      return Forbidden, None;
    }
    return Ok, Some(task);
  }

  /** PUT /tasks/:id: the creator or an edit grantee of the task's current
      folder applies the patch (a move is not checked against the new
      folder). The event goes to the folder the task is in afterwards,
      and is lost when that folder does not exist. */
  method UpdateTask(db: Db, caller: UserId, id: TaskId, patch: TaskPatch, emitOk: bool) returns (st: Status)
    requires db.Valid()
    modifies db
    ensures db.Valid()
    ensures db.users == old(db.users) && db.folders == old(db.folders)
    ensures st == NotFound <==> id !in old(db.tasks)
    ensures st == Forbidden <==> id in old(db.tasks) && !MayChangeTask(old(db.tasks)[id], FolderOf(db.folders, old(db.tasks)[id]), caller)
    ensures st == Ok <==> id in old(db.tasks) && MayChangeTask(old(db.tasks)[id], FolderOf(db.folders, old(db.tasks)[id]), caller)
    ensures st != Ok ==> db.tasks == old(db.tasks) && db.log == old(db.log)
    ensures st == Ok ==>
              var t := ApplyPatch(old(db.tasks)[id], patch);
              db.tasks == old(db.tasks)[id := t] &&
              db.log == old(db.log) + (if emitOk && t.folderId in db.folders then [Emit(t.folderId, TaskUpdated(t))] else [])
  {
    if id !in db.tasks {
      return NotFound;
    }
    var task := db.tasks[id];
    var folder := FolderOf(db.folders, task);
    var isOwner := task.userId == caller;
    var isSharedEditor := folder.Some? && HasEditGrant(folder.value.sharedWith, caller);
    if !isOwner && !isSharedEditor {
      return Forbidden;
    }
    task := ApplyPatch(task, patch);
    db.tasks := db.tasks[id := task];
    if emitOk && task.folderId in db.folders {
      db.log := db.log + [Emit(task.folderId, TaskUpdated(task))];
    }
    return Ok;
  }

  /** DELETE /tasks/:id: the same rule as update; the event names the
      deleted task and goes to the folder it was in. */
  method DeleteTask(db: Db, caller: UserId, id: TaskId, emitOk: bool) returns (st: Status)
    requires db.Valid()
    modifies db
    ensures db.Valid()
    ensures db.users == old(db.users) && db.folders == old(db.folders)
    ensures st == NotFound <==> id !in old(db.tasks)
    ensures st == Forbidden <==> id in old(db.tasks) && !MayChangeTask(old(db.tasks)[id], FolderOf(db.folders, old(db.tasks)[id]), caller)
    ensures st == Ok <==> id in old(db.tasks) && MayChangeTask(old(db.tasks)[id], FolderOf(db.folders, old(db.tasks)[id]), caller)
    ensures st != Ok ==> db.tasks == old(db.tasks) && db.log == old(db.log)
    ensures st == Ok ==>
              db.tasks == old(db.tasks) - {id} &&
              db.log == old(db.log) + (if emitOk then [Emit(old(db.tasks)[id].folderId, TaskDeleted(id))] else [])
  {
    if id !in db.tasks {
      return NotFound;
    }
    var task := db.tasks[id];
    var folder := FolderOf(db.folders, task);
    var isOwner := task.userId == caller;
    var isSharedEditor := folder.Some? && HasEditGrant(folder.value.sharedWith, caller);
    if !isOwner && !isSharedEditor {
      return Forbidden;
    }
    db.tasks := db.tasks - {id};
    if emitOk {
      db.log := db.log + [Emit(task.folderId, TaskDeleted(id))];
    }
    return Ok;
  }
}
