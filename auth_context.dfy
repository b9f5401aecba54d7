/** The authentication context: who is signed in, mirrored into the
    browser's key-value store under the keys `userData` and `token`. */
module AuthContext {
  import opened Common

  datatype User = User(token: string, username: string, role: string, departmentCode: string)

  /** A value in the browser store: the serialised user record that login
      writes, or plain text (the token, or anything another page wrote). */
  datatype Stored = UserJson(user: User) | Text(text: string)

  type Store = map<string, Stored>

  const UserDataKey: string := "userData"
  const TokenKey: string := "token"

  /** The user record the load effect finds under `userData`, if any. */
  function StoredUser(store: Store): Option<User> {
    if UserDataKey in store && store[UserDataKey].UserJson? then Some(store[UserDataKey].user) else None
  }

  /** Entries under keys other than the two session keys agree. */
  ghost predicate SameOutsideSession(a: Store, b: Store) {
    forall k :: k != UserDataKey && k != TokenKey ==> (k in a <==> k in b) && (k in a ==> a[k] == b[k])
  }

  /** The store after `login(u)`: the record and its token are written. */
  function LoginStore(store: Store, u: User): (r: Store)
    ensures UserDataKey in r && r[UserDataKey] == UserJson(u)
    ensures TokenKey in r && r[TokenKey] == Text(u.token)
    ensures r.Keys == store.Keys + {UserDataKey, TokenKey}
    ensures SameOutsideSession(store, r)
  {
    store[UserDataKey := UserJson(u)][TokenKey := Text(u.token)]
  }

  /** The store after `logout()`: both session keys are removed. */
  function LogoutStore(store: Store): (r: Store)
    ensures UserDataKey !in r && TokenKey !in r
    ensures r.Keys == store.Keys - {UserDataKey, TokenKey}
    ensures SameOutsideSession(store, r)
  {
    store - {UserDataKey, TokenKey}
  }

  /** The store after the load effect: a stored user's token is copied to `token`. */
  function LoadStore(store: Store): (r: Store)
    ensures StoredUser(store).None? ==> r == store
    ensures StoredUser(store).Some? ==>
              TokenKey in r && r[TokenKey] == Text(StoredUser(store).value.token) &&
              r.Keys == store.Keys + {TokenKey} && StoredUser(r) == StoredUser(store)
    ensures SameOutsideSession(store, r)
  {
    match StoredUser(store)
    case None => store
    case Some(u) => store[TokenKey := Text(u.token)]
  }

  /** A page reload after `login(u)` signs `u` back in, and the store is
      already in the state loading would bring it to. */
  lemma LoginThenReload(store: Store, u: User)
    ensures StoredUser(LoginStore(store, u)) == Some(u)
    ensures LoadStore(LoginStore(store, u)) == LoginStore(store, u)
  {
    var s := LoginStore(store, u);
    assert s[TokenKey := Text(u.token)] == s;
  }

  /** Nobody is found in the store after `logout()`. */
  lemma LogoutForgetsUser(store: Store)
    ensures StoredUser(LogoutStore(store)) == None
  {
  }

  /** Logging out twice is logging out once. */
  lemma LogoutIdempotent(store: Store)
    ensures LogoutStore(LogoutStore(store)) == LogoutStore(store)
  {
    assert LogoutStore(LogoutStore(store)).Keys == LogoutStore(store).Keys;
  }

  /** A login followed by a logout leaves the store as a logout alone would. */
  lemma LoginThenLogout(store: Store, u: User)
    ensures LogoutStore(LoginStore(store, u)) == LogoutStore(store)
  {
    assert LogoutStore(LoginStore(store, u)).Keys == LogoutStore(store).Keys;
  }

  /** The provider's state: the `user` slot and the browser store. */
  class AuthProvider {
    var user: Option<User>
    var store: Store

    /** Mounting the provider: nobody is signed in yet. */
    constructor (initial: Store)
      ensures user == None && store == initial
    {
      user := None;
      store := initial;
    }

    /** The effect that runs on load: a stored record signs its user in
        and puts its token back under `token`. */
    method LoadFromStore()
      modifies this
      ensures StoredUser(old(store)).Some? ==> user == StoredUser(old(store))
      ensures StoredUser(old(store)).None? ==> user == old(user)
      ensures store == LoadStore(old(store))
      ensures SameOutsideSession(old(store), store)
    {
      var stored := StoredUser(store);
      if stored.Some? {
        user := stored;
        store := store[TokenKey := Text(stored.value.token)];
      }
    }

    method Login(u: User)
      modifies this
      ensures user == Some(u)
      ensures store == LoginStore(old(store), u)
    {
      store := store[UserDataKey := UserJson(u)];
      user := Some(u);
      store := store[TokenKey := Text(u.token)];
    }

    method Logout()
      modifies this
      ensures user == None
      ensures store == LogoutStore(old(store))
    {
      store := store - {UserDataKey};
      user := None;
      store := store - {TokenKey};
    }
  }

  /** A sign-in followed by a page reload: a fresh provider over the same
      store signs the same user back in. */
  method ReloadAfterLogin(initial: Store, u: User) returns (restored: Option<User>)
    ensures restored == Some(u)
  {
    var before := new AuthProvider(initial);
    before.Login(u);
    var after := new AuthProvider(before.store);
    after.LoadFromStore();
    LoginThenReload(initial, u);
    restored := after.user;
  }
}
