/** The SQLite credential store, modelled by what its statements observe
    rather than by SQL: a users table with an auto-assigned integer id, a
    UNIQUE email and an is_admin flag defaulting to false, and an apps table
    keyed by id. Preparing, executing or scanning a statement can fail for
    reasons outside the model (driver errors, cancellation); each call takes
    an `ioFault` flag saying whether it did, and such a failure surfaces as
    an error of kind Other with the store operation's name wrapped around it. */
module Sqlite {
  import opened Errors
  import opened Bcrypt
  import opened Models

  const StoreAppOp := "storage.sqlite.App"
  const StoreSaveUserOp := "storage.sqlite.SaveUser"
  const StoreUserOp := "storage.sqlite.User"
  const StoreIsAdminOp := "storage.sqlite.IsAdmin"

  /** One row of the users table, without its id (the key of the map). */
  datatype UserRow = UserRow(email: string, passHash: Digest, isAdmin: bool)

  /** The UNIQUE constraint on users.email. */
  ghost predicate UniqueEmails(users: map<int, UserRow>)
  {
    forall i, j :: i in users && j in users && users[i].email == users[j].email ==> i == j
  }

  /** Some row of the users table holds this email. */
  predicate EmailTaken(users: map<int, UserRow>, email: string)
  {
    exists id :: id in users && users[id].email == email
  }

  class Storage {
    var users: map<int, UserRow>
    var apps: map<int, App>
    /** The id the next successful insert is given. */
    var nextId: int

    ghost predicate Valid()
      reads this
    {
      && 1 <= nextId
      && (forall id :: id in users ==> 1 <= id < nextId)
      && UniqueEmails(users)
      && (forall id :: id in apps ==> apps[id].id == id)
    }

    /** sqlite.New: a store over a database that already holds the given
        tables (users possibly with admin flags set by other tools, apps
        provisioned outside this service), with `nextId` above every user id. */
    constructor (users: map<int, UserRow>, apps: map<int, App>, nextId: int)
      requires 1 <= nextId && forall id :: id in users ==> 1 <= id < nextId
      requires UniqueEmails(users)
      requires forall id :: id in apps ==> apps[id].id == id
      ensures Valid()
      ensures this.users == users && this.apps == apps && this.nextId == nextId
    {
      this.users := users;
      this.apps := apps;
      this.nextId := nextId;
    }

    /** INSERT INTO users (email, pass_hash): a taken email violates the
        unique constraint and leaves the table as it was; otherwise exactly
        one row is added, under a fresh id, which is returned. */
    method SaveUser(email: string, passHash: Digest, ioFault: bool) returns (id: int, err: Option<Error>)
      requires Valid()
      modifies this
      ensures Valid()
      ensures apps == old(apps)
      ensures err.Some? ==> id == 0 && users == old(users) && nextId == old(nextId)
      ensures ioFault ==> err == Some(Error(Other, [StoreSaveUserOp]))
      ensures !ioFault && EmailTaken(old(users), email) ==> err == Some(Error(UserExists, [StoreSaveUserOp]))
      ensures !ioFault && !EmailTaken(old(users), email) ==>
        && err == None
        && id == old(nextId)
        && id !in old(users)
        && users == old(users)[id := UserRow(email, passHash, false)]
        && nextId == old(nextId) + 1
    {
      if ioFault {
        return 0, Some(Error(Other, [StoreSaveUserOp]));
      }
      if EmailTaken(users, email) {
        return 0, Some(Error(UserExists, [StoreSaveUserOp]));
      }
      id := nextId;
      users := users[id := UserRow(email, passHash, false)];
      nextId := nextId + 1;
      err := None;
    }

    /** SELECT id, email, pass_hash FROM users WHERE email = ?. */
    function User(email: string, ioFault: bool): (r: Ret<Models.User>)
      reads this
      requires Valid()
      ensures !r.Ok() ==> r.value == ZeroUser
      ensures ioFault ==> r.err == Some(Error(Other, [StoreUserOp]))
      ensures !ioFault && !EmailTaken(users, email) ==> r.err == Some(Error(UserNotFound, [StoreUserOp]))
      ensures !ioFault && EmailTaken(users, email) ==>
        && r.Ok()
        && r.value.email == email
        && r.value.id in users
        && users[r.value.id].email == email
        && users[r.value.id].passHash == r.value.passHash
    {
      if ioFault then Ret(ZeroUser, Some(Error(Other, [StoreUserOp])))
      else if EmailTaken(users, email) then
        var id :| id in users && users[id].email == email;
        Ret(Models.User(id, email, users[id].passHash), None)
      else Ret(ZeroUser, Some(Error(UserNotFound, [StoreUserOp])))
    }

    /** SELECT id, name, secret FROM apps WHERE id = ?. */
    function App(appID: int, ioFault: bool): (r: Ret<Models.App>)
      reads this
      requires Valid()
      ensures !r.Ok() ==> r.value == ZeroApp
      ensures ioFault ==> r.err == Some(Error(Other, [StoreAppOp]))
      ensures !ioFault && appID !in apps ==> r.err == Some(Error(AppNotFound, [StoreAppOp]))
      ensures !ioFault && appID in apps ==> r.Ok() && r.value == apps[appID] && r.value.id == appID
    {
      if ioFault then Ret(ZeroApp, Some(Error(Other, [StoreAppOp])))
      else if appID in apps then Ret(apps[appID], None)
      else Ret(ZeroApp, Some(Error(AppNotFound, [StoreAppOp])))
    }

    /** SELECT is_admin FROM users WHERE id = ?. A missing row is reported
        with the application-not-found sentinel, as the store does. */
    function IsAdmin(userID: int, ioFault: bool): (r: Ret<bool>)
      reads this
      requires Valid()
      ensures !r.Ok() ==> !r.value
      ensures ioFault ==> r.err == Some(Error(Other, [StoreIsAdminOp]))
      ensures !ioFault && userID !in users ==> r.err == Some(Error(AppNotFound, [StoreIsAdminOp]))
      ensures !ioFault && userID in users ==> r.Ok() && r.value == users[userID].isAdmin
    {
      if ioFault then Ret(false, Some(Error(Other, [StoreIsAdminOp])))
      else if userID in users then Ret(users[userID].isAdmin, None)
      else Ret(false, Some(Error(AppNotFound, [StoreIsAdminOp])))
    }

    /** Looking a stored row up by its email finds that row: the email query
        and the insert agree on which user an email names. */
    lemma UserFindsRow(id: int)
      requires Valid()
      requires id in users
      ensures User(users[id].email, false) == Ret(Models.User(id, users[id].email, users[id].passHash), None)
    {
      var r := User(users[id].email, false);
      assert users[r.value.id].email == users[id].email;
    }
  }
}
