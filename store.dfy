/** The in-memory document store the controllers work on: the users,
    folders and tasks collections, and the log of `taskUpdated` events
    emitted to per-folder rooms. */
module Store {
  import opened Common
  import opened FolderModel

  /** A user account; `password` is the stored credential, whose hashing
      is abstracted away. */
  datatype User = User(id: UserId, username: string, email: string, password: string)

  /** What a response reveals of a user: never the password. */
  datatype PublicUser = PublicUser(id: UserId, username: string, email: string)

  function Public(u: User): (p: PublicUser)
    ensures p.id == u.id && p.username == u.username && p.email == u.email
  {
    PublicUser(u.id, u.username, u.email)
  }

  /** A stored task. `userId` is the creating user, not the folder's owner. */
  datatype Task = Task(
    id: TaskId,
    title: string,
    description: Option<string>,
    userId: UserId,
    folderId: FolderId,
    priority: string,
    completed: bool,
    dueDate: Option<int>)

  /** The payload of a `taskUpdated` event. */
  datatype Event = TaskCreated(task: Task) | TaskUpdated(task: Task) | TaskDeleted(taskId: TaskId)

  /** One emission: an event sent to the room of a folder. */
  datatype Emit = Emit(room: FolderId, event: Event)

  /** The events a session subscribed to folder `room` receives, in order. */
  function EventsFor(log: seq<Emit>, room: FolderId): (r: seq<Event>)
    ensures |r| <= |log|
    ensures forall e :: e in r <==> Emit(room, e) in log
  {
    if log == [] then []
    else
      var last := log[|log| - 1];
      assert forall x :: x in log <==> x in log[..|log| - 1] || x == last;
      EventsFor(log[..|log| - 1], room) + (if last.room == room then [last.event] else [])
  }

  /** Appending one emission delivers it to its own room and to no other. */
  lemma {:induction false} EventsForAppend(log: seq<Emit>, e: Emit, room: FolderId)
    ensures EventsFor(log + [e], room) ==
            EventsFor(log, room) + (if e.room == room then [e.event] else [])
  {
    assert (log + [e])[..|log + [e]| - 1] == log;
  }

  /** Position of the first user with this email (`findOne({ email })` in
      insertion order), or |users| when there is none. */
  function FirstWithEmail(users: seq<User>, email: string): (i: nat)
    ensures i <= |users|
    ensures i < |users| ==> users[i].email == email
    ensures forall k :: 0 <= k < i ==> users[k].email != email
  {
    if users == [] then 0
    else if users[0].email == email then 0
    else 1 + FirstWithEmail(users[1..], email)
  }

  /** Position of the first user with this id, or |users| when there is none. */
  function FirstWithId(users: seq<User>, id: UserId): (i: nat)
    ensures i <= |users|
    ensures i < |users| ==> users[i].id == id
    ensures forall k :: 0 <= k < i ==> users[k].id != id
  {
    if users == [] then 0
    else if users[0].id == id then 0
    else 1 + FirstWithId(users[1..], id)
  }

  predicate UserExists(users: seq<User>, id: UserId)
  {
    exists u :: u in users && u.id == id
  }

  predicate UniqueIds(users: seq<User>)
  {
    forall i, j :: 0 <= i < j < |users| ==> users[i].id != users[j].id
  }

  class Db {
    var users: seq<User>
    var folders: map<FolderId, Folder>
    var tasks: map<TaskId, Task>
    var log: seq<Emit>
    /** The next fresh document id; every id in use is below it. */
    var nextId: nat

    /** Ids are fresh and unique, each task is stored under its own id,
        and every folder keeps the sharing invariant. */
    ghost predicate Valid()
      reads this
    {
      && (forall u :: u in users ==> u.id < nextId)
      && UniqueIds(users)
      && (forall id :: id in folders ==> id < nextId && WellShared(folders[id]))
      && (forall id :: id in tasks ==> id < nextId && tasks[id].id == id)
    }

    constructor ()
      ensures Valid()
      ensures users == [] && folders == map[] && tasks == map[] && log == []
    {
      users, folders, tasks, log, nextId := [], map[], map[], [], 0;
    }
  }
}
