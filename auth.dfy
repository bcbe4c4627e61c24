/** The authentication service: Register, Login and IsAdmin over the
    credential store, with the policy that turns store errors into the
    errors callers see. The process wires one Storage into all three of the
    service's store roles (saver, user provider, app provider), so the model
    holds a single store. The clock, the hashing salt and the outcome of
    every call that can fail for reasons outside the model are parameters. */
module Auth {
  import opened Errors
  import opened Bcrypt
  import opened Models
  import opened Jwt
  import opened Sqlite

  const RegisterOp := "auth.Register"
  const LoginOp := "auth.Login"
  const IsAdminOp := "auth.IsAdmin"

  /** auth.ErrInvalidCredentials. */
  const ErrInvalidCredentials := Sentinel(InvalidCredentials)

  /** Which of Login's collaborators fail for reasons outside the model:
      the user query, the application query, the token signer. */
  datatype Faults = Faults(userQuery: bool, appQuery: bool, signing: bool)

  const NoFaults := Faults(false, false, false)

  class Auth {
    const store: Storage
    /** The lifetime of issued tokens, in nanoseconds (a time.Duration). */
    const tokenTTL: int

    constructor (store: Storage, tokenTTL: int)
      ensures this.store == store && this.tokenTTL == tokenTTL
    {
      this.store := store;
      this.tokenTTL := tokenTTL;
    }

    /** Hashes the password and saves the user. A failed hash saves nothing;
        a taken email is reported with the UserExists sentinel itself; any
        other store error is passed on wrapped; on success the id is the one
        the store assigned, and the stored hash matches the password. */
    method Register(email: string, password: string, salt: Option<Salt>, ioFault: bool)
      returns (userID: int, err: Option<Error>)
      requires store.Valid()
      modifies store
      ensures store.Valid()
      ensures store.apps == old(store.apps)
      ensures err.Some? ==> userID == 0 && store.users == old(store.users) && store.nextId == old(store.nextId)
      ensures salt.None? ==> err == Some(Error(Other, [RegisterOp]))
      ensures salt.Some? && ioFault ==> err == Some(Error(Other, [RegisterOp, StoreSaveUserOp]))
      ensures salt.Some? && !ioFault && EmailTaken(old(store.users), email) ==>
        err == Some(Error(UserExists, [RegisterOp]))
      ensures salt.Some? && !ioFault && !EmailTaken(old(store.users), email) ==>
        && err == None
        && userID == old(store.nextId)
        && 1 <= userID
        && userID !in old(store.users)
        && store.users == old(store.users)[userID := UserRow(email, Hashed(DefaultCost, salt.value, password), false)]
        && store.nextId == old(store.nextId) + 1
        && CompareHashAndPassword(store.users[userID].passHash, password)
    {
      var hash := GenerateFromPassword(password, salt);
      if !hash.Ok() {
        assert [RegisterOp] + [] == [RegisterOp];
        return 0, Some(Wrap(RegisterOp, hash.err.value));
      }
      var id, e := store.SaveUser(email, hash.value, ioFault);
      if e.Some? {
        if e.value.kind == UserExists {
          assert [RegisterOp] + [] == [RegisterOp];
          return 0, Some(Wrap(RegisterOp, Sentinel(UserExists)));
        }
        assert [RegisterOp] + [StoreSaveUserOp] == [RegisterOp, StoreSaveUserOp];
        return 0, Some(Wrap(RegisterOp, e.value));
      }
      return id, None;
    }

    /** Looks the user up, checks the password, looks the application up and
        issues a token, stopping at the first failure. An unknown email and a
        wrong password both give ErrInvalidCredentials; every other failure
        is passed on wrapped. Nothing is written. */
    function Login(email: string, password: string, appID: int, now: int, faults: Faults): (r: Ret<Token>)
      reads store
      requires store.Valid()
      ensures !r.Ok() ==> r.value == Empty
      ensures r.err.Some? && r.err.value.kind == InvalidCredentials <==>
        !faults.userQuery && !CredentialsMatch(email, password)
      ensures faults.userQuery ==> r.err == Some(Error(Other, [LoginOp, StoreUserOp]))
      ensures !faults.userQuery && CredentialsMatch(email, password) && faults.appQuery ==>
        r.err == Some(Error(Other, [LoginOp, StoreAppOp]))
      ensures (!faults.userQuery && CredentialsMatch(email, password) && !faults.appQuery && appID in store.apps
               && faults.signing) ==> r.err == Some(Error(Other, [LoginOp]))
      ensures r.Ok() <==>
        !faults.userQuery && CredentialsMatch(email, password) && !faults.appQuery && appID in store.apps && !faults.signing
    {
      var user := store.User(email, faults.userQuery);
      if !user.Ok() then
        assert [LoginOp] + [StoreUserOp] == [LoginOp, StoreUserOp];
        if user.err.value.kind == UserNotFound then Ret(Empty, Some(Wrap(LoginOp, ErrInvalidCredentials)))
        else Ret(Empty, Some(Wrap(LoginOp, user.err.value)))
      else if !CompareHashAndPassword(user.value.passHash, password) then
        Ret(Empty, Some(Wrap(LoginOp, ErrInvalidCredentials)))
      else
        var app := store.App(appID, faults.appQuery);
        assert [LoginOp] + [StoreAppOp] == [LoginOp, StoreAppOp];
        assert [LoginOp] + [] == [LoginOp];
        if !app.Ok() then Ret(Empty, Some(Wrap(LoginOp, app.err.value)))
        else
          var token := NewToken(user.value, app.value, tokenTTL, now, faults.signing);
          if !token.Ok() then Ret(Empty, Some(Wrap(LoginOp, token.err.value)))
          else Ret(token.value, None)
    }

    /** Some stored user has this email and its hash matches the password. */
    ghost predicate CredentialsMatch(email: string, password: string)
      reads store
    {
      exists id :: id in store.users && store.users[id].email == email
        && CompareHashAndPassword(store.users[id].passHash, password)
    }

    /** The store's admin flag, or false and the store's error wrapped, its
        sentinel unchanged (the branch for ErrAppNotFound does the same as
        the default one). */
    function IsAdmin(userID: int, ioFault: bool): (r: Ret<bool>)
      reads store
      requires store.Valid()
      ensures r.Ok() <==> !ioFault && userID in store.users
      ensures r.Ok() ==> r.value == store.users[userID].isAdmin
      ensures !r.Ok() ==> !r.value && r.err.value == Wrap(IsAdminOp, store.IsAdmin(userID, ioFault).err.value)
    {
      var admin := store.IsAdmin(userID, ioFault);
      if !admin.Ok() then
        if admin.err.value.kind == AppNotFound then Ret(false, Some(Wrap(IsAdminOp, admin.err.value)))
        else Ret(false, Some(Wrap(IsAdminOp, admin.err.value)))
      else Ret(admin.value, None)
    }

    /** An unknown email fails with ErrInvalidCredentials before any
        application is looked up: neither the application id, its lookup,
        the signer nor the clock affects the result. */
    lemma LoginUnknownEmail(email: string, password: string, appID: int, now: int, faults: Faults)
      requires store.Valid()
      requires !faults.userQuery && !EmailTaken(store.users, email)
      ensures Login(email, password, appID, now, faults) == Ret(Empty, Some(Error(InvalidCredentials, [LoginOp])))
    {
      assert [LoginOp] + [] == [LoginOp];
    }

    /** A stored user's email with a password its hash rejects fails with
        ErrInvalidCredentials, again before any application is looked up. */
    lemma LoginWrongPassword(id: int, password: string, appID: int, now: int, faults: Faults)
      requires store.Valid()
      requires id in store.users && !CompareHashAndPassword(store.users[id].passHash, password)
      requires !faults.userQuery
      ensures Login(store.users[id].email, password, appID, now, faults) == Ret(Empty, Some(Error(InvalidCredentials, [LoginOp])))
    {
      store.UserFindsRow(id);
      assert [LoginOp] + [] == [LoginOp];
    }

    /** A caller cannot tell an unknown email from a wrong password: the two
        Login results are the same value. */
    lemma LoginHidesWhichCredentialFailed(unknown: string, id: int, password1: string, password2: string,
                                          appID1: int, appID2: int, now1: int, now2: int, faults1: Faults, faults2: Faults)
      requires store.Valid()
      requires !faults1.userQuery && !EmailTaken(store.users, unknown)
      requires id in store.users && !CompareHashAndPassword(store.users[id].passHash, password2)
      requires !faults2.userQuery
      ensures Login(unknown, password1, appID1, now1, faults1)
           == Login(store.users[id].email, password2, appID2, now2, faults2)
    {
      LoginUnknownEmail(unknown, password1, appID1, now1, faults1);
      LoginWrongPassword(id, password2, appID2, now2, faults2);
    }

    /** Valid credentials for a missing application fail with the store's
        AppNotFound sentinel, distinguishable from ErrInvalidCredentials. */
    lemma LoginMissingApp(id: int, password: string, appID: int, now: int, faults: Faults)
      requires store.Valid()
      requires id in store.users && CompareHashAndPassword(store.users[id].passHash, password)
      requires !faults.userQuery && !faults.appQuery && appID !in store.apps
      ensures Login(store.users[id].email, password, appID, now, faults) == Ret(Empty, Some(Error(AppNotFound, [LoginOp, StoreAppOp])))
    {
      store.UserFindsRow(id);
      assert [LoginOp] + [StoreAppOp] == [LoginOp, StoreAppOp];
    }

    /** Valid credentials for a provisioned application yield the token
        NewToken builds from the stored user and that application; the
        application's secret verifies it, and it names the user's id and
        email, the application's id, and expires tokenTTL after `now`. */
    lemma LoginIssuesToken(id: int, password: string, appID: int, now: int)
      requires store.Valid()
      requires id in store.users && CompareHashAndPassword(store.users[id].passHash, password)
      requires appID in store.apps
      ensures var row := store.users[id];
              var app := store.apps[appID];
              var r := Login(row.email, password, appID, now, NoFaults);
              && r == Ret(NewToken(Models.User(id, row.email, row.passHash), app, tokenTTL, now, false).value, None)
              && Verify(r.value, app.secret) == Some(NewClaims(Models.User(id, row.email, row.passHash), app, tokenTTL, now))
              && var c := Verify(r.value, app.secret).value;
              && c.Keys == {"uid", "email", "app_id", "exp"}
              && c["uid"] == Number(id)
              && c["email"] == Text(row.email)
              && c["app_id"] == Number(appID)
              && c["exp"] == Number(Unix(now + tokenTTL))
    {
      store.UserFindsRow(id);
      NewTokenClaims(Models.User(id, store.users[id].email, store.users[id].passHash), store.apps[appID], tokenTTL, now);
    }
  }

  /** Registering a fresh email and then logging in with the same password
      for a provisioned application yields a token that the application's
      secret verifies to the returned id, that email, the application's id
      and the expiry second of now + tokenTTL. */
  method RegisterThenLogin(auth: Auth, email: string, password: string, salt: Salt, appID: int, now: int)
    returns (userID: int, token: Token)
    requires auth.store.Valid()
    requires !EmailTaken(auth.store.users, email) && appID in auth.store.apps
    modifies auth.store
    ensures auth.store.Valid()
    ensures auth.store.apps == old(auth.store.apps)
    ensures userID == old(auth.store.nextId) && userID !in old(auth.store.users)
    ensures auth.store.users == old(auth.store.users)[userID := UserRow(email, Hashed(DefaultCost, salt, password), false)]
    ensures auth.store.nextId == old(auth.store.nextId) + 1
    ensures auth.Login(email, password, appID, now, NoFaults) == Ret(token, None)
    ensures var app := auth.store.apps[appID];
      && Verify(token, app.secret).Some?
      && var c := Verify(token, app.secret).value;
      && c.Keys == {"uid", "email", "app_id", "exp"}
      && c["uid"] == Number(userID)
      && c["email"] == Text(email)
      && c["app_id"] == Number(appID)
      && c["exp"] == Number(Unix(now + auth.tokenTTL))
  {
    var err;
    userID, err := auth.Register(email, password, Some(salt), false);
    var login := auth.Login(email, password, appID, now, NoFaults);
    auth.LoginIssuesToken(userID, password, appID, now);
    token := login.value;
  }

  /** The service's register/login round trip on a fresh store with one
      application: the first registration gets id 1, logging in with the
      same password yields a token for that id, a wrong password and an
      unknown email give the same error, a second registration of the email
      is refused and leaves the store as it was, the new user is no
      administrator, and the next fresh email gets id 2. */
  method RegisterLoginScenario(now: int, salt1: Salt, salt2: Salt)
  {
    var app := App(1, "test", "test_secret");
    var store := new Storage(map[], map[1 := app], 1);
    var auth := new Auth(store, 3600 * NanosPerSecond);

    var id, token := RegisterThenLogin(auth, "a@x.com", "Passw0rd!", salt1, 1, now);
    assert id == 1;
    assert Verify(token, "test_secret").value["uid"] == Number(1);
    assert Verify(token, "test_secret").value["email"] == Text("a@x.com");
    assert store.users == map[1 := UserRow("a@x.com", Hashed(DefaultCost, salt1, "Passw0rd!"), false)];

    GeneratedHashRejectsOthers("Passw0rd!", "wrong", salt1);
    auth.LoginHidesWhichCredentialFailed("b@x.com", id, "Passw0rd!", "wrong", 1, 1, now, now, NoFaults, NoFaults);
    assert auth.Login("a@x.com", "wrong", 1, now, NoFaults) == auth.Login("b@x.com", "Passw0rd!", 1, now, NoFaults);
    assert auth.Login("a@x.com", "wrong", 1, now, NoFaults).err.value.kind == InvalidCredentials;

    var id2, err2 := auth.Register("a@x.com", "other", Some(salt2), false);
    assert err2 == Some(Error(UserExists, [RegisterOp])) && id2 == 0;
    assert store.users == map[1 := UserRow("a@x.com", Hashed(DefaultCost, salt1, "Passw0rd!"), false)];

    assert auth.IsAdmin(1, false) == Ret(false, None);

    var id3, err3 := auth.Register("b@x.com", "secret", Some(salt2), false);
    assert err3 == None && id3 == 2;
  }
}
