/** The account endpoints (backend/controllers/authController.js): the
    register uniqueness check, the login failure rule, the profile patch
    and the account-delete cascade. Token signing and password hashing
    are abstracted: the stored credential is kept as given and compared by
    a caller-supplied predicate. */
module AuthController {
  import opened Common
  import opened FolderModel
  import opened Store
  import FolderController

  /** register's duplicate query: some account already uses the email or
      the username. */
  predicate Taken(users: seq<User>, username: string, email: string)
  {
    exists u :: u in users && (u.email == email || u.username == username)
  }

  datatype LoginResult = LoggedIn(user: PublicUser) | InvalidCredentials

  /** login: the first account with the email, if its credential matches.
      An unknown email and a wrong password give the same answer. */
  function Login(users: seq<User>, email: string, password: string, matches: (string, string) -> bool): (r: LoginResult)
    ensures (forall u :: u in users ==> u.email != email) ==> r == InvalidCredentials
    ensures r.LoggedIn? <==>
              var i := FirstWithEmail(users, email);
              i < |users| && matches(users[i].password, password)
    ensures r.LoggedIn? ==> exists u :: u in users && u.email == email && r.user == Public(u)
    ensures r.LoggedIn? ==>
              FirstWithEmail(users, email) < |users| && r.user == Public(users[FirstWithEmail(users, email)])
  {
    var i := FirstWithEmail(users, email);
    if i == |users| then InvalidCredentials
    else if !matches(users[i].password, password) then InvalidCredentials
    else
      assert users[i] in users;
      LoggedIn(Public(users[i]))
  }

  /** The accounts left after removing every account with this id. */
  function UsersWithout(users: seq<User>, id: UserId): (r: seq<User>)
    ensures forall u :: u in r <==> u in users && u.id != id
    ensures UniqueIds(users) ==> UniqueIds(r)
  {
    if users == [] then []
    else
      var rest := UsersWithout(users[1..], id);
      assert UniqueIds(users) ==> UniqueIds(users[1..]) by {
        if UniqueIds(users) {
          forall i, j | 0 <= i < j < |users[1..]| ensures users[1..][i].id != users[1..][j].id {
            assert users[1..][i] == users[i + 1] && users[1..][j] == users[j + 1];
          }
        }
      }
      if users[0].id == id then rest
      else
        assert UniqueIds(users) ==> UniqueIds([users[0]] + rest) by {
          if UniqueIds(users) {
            forall j | 0 < j < |[users[0]] + rest|
              ensures ([users[0]] + rest)[0].id != ([users[0]] + rest)[j].id
            {
              var v := ([users[0]] + rest)[j];
              assert v in rest;
              var k :| 0 <= k < |users[1..]| && users[1..][k] == v;
              assert users[k + 1] == v;
            }
          }
        }
        [users[0]] + rest
  }

  /** The task store after `Task.deleteMany({ userId })`. */
  function TasksNotCreatedBy(tasks: map<TaskId, Task>, u: UserId): (r: map<TaskId, Task>)
    ensures forall id :: id in r ==> id in tasks && r[id] == tasks[id] && r[id].userId != u
    ensures forall id :: id in tasks && tasks[id].userId != u ==> id in r
  {
    map id | id in tasks && tasks[id].userId != u :: tasks[id]
  }

  /** The folder store after `Folder.deleteMany({ userId })`. */
  function FoldersNotOwnedBy(folders: map<FolderId, Folder>, u: UserId): (r: map<FolderId, Folder>)
    ensures forall id :: id in r ==> id in folders && r[id] == folders[id] && r[id].owner != u
    ensures forall id :: id in folders && folders[id].owner != u ==> id in r
  {
    map id | id in folders && folders[id].owner != u :: folders[id]
  }

  /** The two cascades are not the same: a task another user filed in a
      folder of the deleted account survives the account delete, whose
      folder is nevertheless gone, while deleting the folder removes it. */
  lemma CascadesDiffer(folders: map<FolderId, Folder>, tasks: map<TaskId, Task>, owner: UserId, id: TaskId)
    requires id in tasks && tasks[id].folderId in folders
    requires folders[tasks[id].folderId].owner == owner && tasks[id].userId != owner
    ensures id in TasksNotCreatedBy(tasks, owner)
    ensures tasks[id].folderId !in FoldersNotOwnedBy(folders, owner)
    ensures id !in FolderController.TasksOutsideFolder(tasks, tasks[id].folderId)
  {
  }

  // ---------------------------------------------------------------------
  // Endpoints
  // ---------------------------------------------------------------------

  /** POST /auth/register: refused with 400 when the email or username is
      taken; otherwise adds exactly one account and answers without the
      password. */
  method Register(db: Db, username: string, email: string, password: string)
    returns (st: Status, resp: Option<PublicUser>)
    requires db.Valid()
    modifies db
    ensures db.Valid()
    ensures db.folders == old(db.folders) && db.tasks == old(db.tasks) && db.log == old(db.log)
    ensures st == BadRequest <==> Taken(old(db.users), username, email)
    ensures st != BadRequest ==> st == Created
    ensures st == BadRequest ==> db.users == old(db.users) && resp == None
    ensures st == Created ==>
              && resp.Some? && resp.value.username == username && resp.value.email == email
              && !UserExists(old(db.users), resp.value.id)
              && db.users == old(db.users) + [User(resp.value.id, username, email, password)]
  {
    if Taken(db.users, username, email) {
      return BadRequest, None;
    }
    var user := User(db.nextId, username, email, password);
    db.users := db.users + [user];
    db.nextId := db.nextId + 1;
    return Created, Some(Public(user));
  }

  /** GET /auth/profile: the caller's account without its password, or
      nothing when the account is gone. */
  method GetProfile(db: Db, caller: UserId) returns (resp: Option<PublicUser>)
    ensures resp.None? <==> !UserExists(db.users, caller)
    ensures resp.Some? ==> exists u :: u in db.users && u.id == caller && resp.value == Public(u)
  {
    var i := FirstWithId(db.users, caller);
    if i == |db.users| {
      return None;
    }
    assert db.users[i] in db.users;
    return Some(Public(db.users[i]));
  }

  /** PUT /auth/profile: username and email change only when given; the
      update of an account that is gone fails with 500. */
  method UpdateProfile(db: Db, caller: UserId, username: string, email: string)
    returns (st: Status, resp: Option<PublicUser>)
    requires db.Valid()
    modifies db
    ensures db.Valid()
    ensures db.folders == old(db.folders) && db.tasks == old(db.tasks) && db.log == old(db.log)
    ensures st == ServerError <==> !UserExists(old(db.users), caller)
    ensures st != ServerError ==> st == Ok
    ensures st == ServerError ==> db.users == old(db.users) && resp == None
    ensures st == Ok ==>
              var i := FirstWithId(old(db.users), caller);
              var u := old(db.users)[i];
              var u' := u.(username := if username != "" then username else u.username,
                           email := if email != "" then email else u.email);
              db.users == old(db.users)[i := u'] && resp == Some(Public(u'))
  {
    var i := FirstWithId(db.users, caller);
    if i == |db.users| {
      return ServerError, None;
    }
    var u := db.users[i];
    if username != "" {
      u := u.(username := username);
    }
    if email != "" {
      u := u.(email := email);
    }
    db.users := db.users[i := u];
    forall a | a in db.users ensures a.id < db.nextId {
      var k :| 0 <= k < |db.users| && db.users[k] == a;
      assert k != i ==> old(db.users)[k] == a;
      assert old(db.users)[k] in old(db.users);
    }
    return Ok, Some(Public(u));
  }

  /** DELETE /auth/account: removes the caller's tasks, the caller's
      folders and the caller's account, in that order. Tasks others filed
      in those folders, and the caller's grants on others' folders, stay. */
  method DeleteAccount(db: Db, caller: UserId) returns (st: Status)
    requires db.Valid()
    modifies db
    ensures db.Valid()
    ensures st == Ok
    ensures db.log == old(db.log)
    ensures db.tasks == TasksNotCreatedBy(old(db.tasks), caller)
    ensures db.folders == FoldersNotOwnedBy(old(db.folders), caller)
    ensures db.users == UsersWithout(old(db.users), caller)
  {
    db.tasks := TasksNotCreatedBy(db.tasks, caller);
    db.folders := FoldersNotOwnedBy(db.folders, caller);
    db.users := UsersWithout(db.users, caller);
    return Ok;
  }
}
