/**
 * Callers of the user manager that derive, from the operations' contracts alone, the behaviour
 * the manager promises across several calls.
 */
module UserScenarios {
  import opened Wrappers
  import opened Crypto
  import opened SessionStore
  import opened UserFile
  import opened UserManagement

  /**
   * The account `alice` with routes `["dashboard"]`: the client logs in with the MD5 digest of
   * the password it was created with and gets the account's routes; a wrong password is refused;
   * refreshing keeps the token and resets its TTL.
   */
  method AliceLogin(crypto: Primitives, random: string)
      returns (granted: Option<Session>, wrong: Option<Session>, refreshed: Option<Entry>)
    requires Sound(crypto) && |random| == 128
    ensures granted.Some? && granted.value.routes == ["dashboard"]
    ensures wrong == None
    ensures refreshed == Some(Entry(granted.value.token, Some(TokenTtl)))
  {
    var cache := new SessionCache(map[]);
    var m := new UserManager([], cache, crypto, random);
    m.AddUser("alice", "secret123", ["dashboard"]);
    var digest := crypto.md5("secret123");
    var alice := User("alice", crypto.hash(digest), ["dashboard"], "enabled");
    assert m.users == [alice];
    assert Find(m.users, "alice") == Some(0);
    assert crypto.verify(digest, alice.password);
    granted := m.Login("alice", digest);
    assert granted.Some?;
    var token := granted.value.token;
    assert cache.entries[TokenKey("alice")] == Entry(token, Some(TokenTtl));
    assert !crypto.verify("wrong", alice.password) by {
      assert |digest| == 32;
    }
    wrong := m.Login("alice", "wrong");
    m.RefreshToken("alice", token);
    refreshed := if TokenKey("alice") in cache.entries then Some(cache.entries[TokenKey("alice")]) else None;
  }

  /**
   * After `alice` changes her password, the digest she logged in with before is refused and the
   * new password, hashed without the MD5 step, is accepted.
   */
  method AlicePasswordChange(crypto: Primitives, random: string)
      returns (changed: bool, oldPassword: Option<Session>, newPassword: Option<Session>)
    requires Sound(crypto) && |random| == 128
    ensures changed
    ensures oldPassword == None
    ensures newPassword.Some? && newPassword.value.routes == ["dashboard"]
  {
    var cache := new SessionCache(map[]);
    var m := new UserManager([], cache, crypto, random);
    m.AddUser("alice", "secret123", ["dashboard"]);
    var digest := crypto.md5("secret123");
    var alice := User("alice", crypto.hash(digest), ["dashboard"], "enabled");
    assert m.users == [alice];
    assert Find(m.users, "alice") == Some(0);
    changed := m.ChangePassword("alice", "newpw");
    var alice' := alice.(password := crypto.hash("newpw"));
    assert m.users == [alice'];
    assert Find(m.users, "alice") == Some(0);
    assert !crypto.verify(digest, alice'.password) by {
      assert |digest| == 32;
    }
    oldPassword := m.Login("alice", digest);
    assert crypto.verify("newpw", alice'.password);
    newPassword := m.Login("alice", "newpw");
  }

  /** A one-time code is good for one quick login: a second attempt with the same code is refused. */
  method QuickLoginTwice(m: UserManager, code: string, username: string)
      returns (first: Result<Option<Session>>, second: Result<Option<Session>>)
    modifies m.cache
    ensures first.Ok? && first.value.Some? ==> second == Ok(None)
  {
    first := m.QuickLogin(Some(code), username);
    second := m.QuickLogin(Some(code), username);
  }

  /**
   * With no one-time code pending, a quick login that supplies no code either: the code as
   * written opens a session for any known account, the intended check refuses it.
   */
  method QuickLoginWithoutCode(m: UserManager, username: string)
      returns (intended: Result<Option<Session>>, asWritten: Result<Option<Session>>)
    requires OtpKey !in m.cache.entries && Find(m.users, username).Some?
    modifies m.cache
    ensures intended == Ok(None)
    ensures asWritten.Ok? && asWritten.value.Some?
  {
    intended := m.QuickLoginRequiringCode(None, username);
    asWritten := m.QuickLogin(None, username);
  }

  /** Logging out twice with the same token: the second attempt always answers false. */
  method LogoutTwice(m: UserManager, username: string, token: string) returns (first: bool, second: bool)
    modifies m.cache
    ensures first <==> Lookup(old(m.cache.entries), TokenKey(username)) == Some(token)
    ensures !second
  {
    first := m.Logout(username, token);
    second := m.Logout(username, token);
  }

  /** Logging in twice keeps a single session entry, holding the second token. */
  method LoginTwice(m: UserManager, username: string, password: string)
      returns (first: Option<Session>, second: Option<Session>)
    modifies m.cache
    ensures second.Some? ==> m.cache.entries == old(m.cache.entries)[TokenKey(username) := Entry(second.value.token, Some(TokenTtl))]
    ensures first.Some? <==> second.Some?
  {
    first := m.Login(username, password);
    second := m.Login(username, password);
  }
}
