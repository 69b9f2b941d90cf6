/**
 * The account and session manager: the account list in memory, its mirror in the account file,
 * and the session tokens, one-time login code and signing secret it keeps in the session cache.
 */
module UserManagement {
  import opened Wrappers
  import opened Crypto
  import opened SessionStore
  import opened UserFile

  /** Cache key of the process-wide signing secret (stored without expiry). */
  const SecretKey: string := "karin-plugin-manage:secretKey"

  /** Cache key of the single, global one-time login code. */
  const OtpKey: string := "karin-plugin-manage:user:otp"

  /** Lifetime of a session in seconds: the token's `expiresIn: '1h'` and the cache entry's `EX`. */
  const TokenTtl: nat := 60 * 60

  /** Cache key of a user's current session token. */
  function TokenKey(username: string): (k: string)
    ensures |k| == |username| + 31
    ensures k[|k| - 6..] == ":token"
  {
    "karin-plugin-manage:user:" + username + ":token"
  }

  /** Distinct users have distinct session keys, so one user's session never touches another's. */
  lemma TokenKeyInjective(a: string, b: string)
    ensures TokenKey(a) == TokenKey(b) ==> a == b
  {
    if TokenKey(a) == TokenKey(b) {
      var ka, kb := TokenKey(a), TokenKey(b);
      assert |a| == |b|;
      assert ka[25..25 + |a|] == a;
      assert kb[25..25 + |b|] == b;
    }
  }

  /** A session key is neither the one-time code's key nor the secret's key. */
  lemma TokenKeyDistinct(username: string)
    ensures TokenKey(username) != OtpKey && TokenKey(username) != SecretKey
  {
    assert |TokenKey(username)| >= 31 > |SecretKey| > |OtpKey|;
  }

  /** What a successful login hands back: the token and the routes it grants. */
  datatype Session = Session(token: string, routes: seq<string>)

  /** Exceptions: `changePermissions`' "User not found", and the property read on `undefined` in `quickLogin`. */
  datatype Error = UserNotFound | UndefinedUser

  datatype Result<T> = Ok(value: T) | Err(error: Error)

  /** `users.find(u => u.username === name)`, as the index of the first account with that name. */
  function Find(users: seq<User>, name: string): (r: Option<nat>)
    ensures r.None? <==> forall i :: 0 <= i < |users| ==> users[i].username != name
    ensures r.Some? ==> r.value < |users| && users[r.value].username == name
    ensures r.Some? ==> forall i :: 0 <= i < r.value ==> users[i].username != name
  {
    if users == [] then None
    else if users[0].username == name then Some(0)
    else match Find(users[1..], name)
      case None => None
      case Some(k) => Some(k + 1)
  }

  /** The first account with a name is the one found. */
  lemma FirstMatchIsFound(users: seq<User>, name: string)
    ensures forall i ::
              (0 <= i < |users| && users[i].username == name && forall j :: 0 <= j < i ==> users[j].username != name)
              ==> Find(users, name) == Some(i)
  {
  }

  /**
   * The inner loop of `saveUserDataToYAML` over the fields of one record: `target` turns on at the
   * `username` field naming `user`, after which every field named `key` is overwritten.
   */
  method UpdateRecord(fields: Record, user: string, key: string, value: Node) returns (rec: Record)
    ensures rec == UpdateFields(fields, user, key, value)
  {
    rec := fields;
    var target := false;
    var l := 0;
    while l < |rec|
      invariant 0 <= l <= |rec| == |fields|
      invariant target == Reached(fields, user, l)
      invariant forall j :: 0 <= j < l ==> rec[j] == UpdateFields(fields, user, key, value)[j]
      invariant forall j :: l <= j < |rec| ==> rec[j] == fields[j]
    {
      if rec[l].key == "username" && rec[l].node == Scalar(user) {
        target := true;
      }
      assert target == Reached(fields, user, l + 1) by {
        if NamesUser(fields[l], user) { assert 0 <= l < l + 1; }
      }
      if rec[l].key == key && target {
        rec := rec[l := Field(rec[l].key, Assign(rec[l].node, value))];
      }
      l := l + 1;
    }
  }

  class UserManager {
    /** The account list; it is the read path of every lookup. */
    var users: seq<User>
    /** The account file as last saved. */
    var file: seq<Record>
    /** The signing secret, loaded from or stored into the cache by `Init`. */
    var secretKey: string
    const cache: SessionCache
    const crypto: Primitives

    /** The file mirrors the account list, and usernames are unique. */
    ghost predicate Valid()
      reads this
    {
      file == Records(users) && UniqueNames(users)
    }

    /** The token signed for a user: their name and routes, valid for an hour. */
    function IssueToken(username: string, routes: seq<string>): (t: string)
      reads this
      ensures Sound(crypto) ==> crypto.decode(t, secretKey) == Some(Claims(username, routes, TokenTtl))
    {
      crypto.sign(Claims(username, routes, TokenTtl), secretKey)
    }

    /**
     * The constructor runs `Init`. `stored` is what the account file holds, `random` the hex
     * rendering of 64 random bytes used when no secret exists yet.
     */
    constructor (stored: seq<User>, cache: SessionCache, crypto: Primitives, random: string)
      requires UniqueNames(stored)
      requires |random| == 128
      modifies cache
      ensures Valid() && users == stored && this.cache == cache && this.crypto == crypto
      ensures secretKey != ""
      ensures var old_secret := Lookup(old(cache.entries), SecretKey);
              if old_secret.Some? && old_secret.value != "" then
                secretKey == old_secret.value && cache.entries == old(cache.entries)
              else
                secretKey == random && cache.entries == old(cache.entries)[SecretKey := Entry(random, None)]
    {
      this.cache := cache;
      this.crypto := crypto;
      users := [];
      file := [];
      secretKey := "";
      new;
      Init(stored, random);
    }

    /**
     * Loads the accounts, then the secret: a missing or empty secret is replaced by `random`,
     * stored without expiry.
     */
    method Init(stored: seq<User>, random: string)
      requires UniqueNames(stored)
      requires |random| == 128
      modifies this`users, this`file, this`secretKey, cache
      ensures Valid() && users == stored
      ensures secretKey != ""
      ensures var old_secret := Lookup(old(cache.entries), SecretKey);
              if old_secret.Some? && old_secret.value != "" then
                secretKey == old_secret.value && cache.entries == old(cache.entries)
              else
                secretKey == random && cache.entries == old(cache.entries)[SecretKey := Entry(random, None)]
    {
      users := stored;
      file := Records(stored);
      var current := cache.Get(SecretKey);
      if current.None? || current.value == "" {
        secretKey := random;
        cache.Set(SecretKey, random, None);
      } else {
        secretKey := current.value;
      }
    }

    /** `checkUser`: whether an account with that name exists. */
    function CheckUser(username: string): (b: bool)
      reads this
      ensures b <==> exists i :: 0 <= i < |users| && users[i].username == username
    {
      Find(users, username).Some?
    }

    /**
     * `addUser`: an existing name changes nothing; a new one appends the account, with the
     * bcrypt hash of the MD5 digest of the password and status `enabled`, to memory and file.
     */
    method AddUser(username: string, password: string, routes: seq<string>)
      requires Valid()
      modifies this`users, this`file
      ensures Valid()
      ensures old(CheckUser(username)) ==> users == old(users) && file == old(file)
      ensures !old(CheckUser(username)) ==>
                var added := User(username, crypto.hash(crypto.md5(password)), routes, "enabled");
                users == old(users) + [added] && file == old(file) + [ToRecord(added)]
    {
      if CheckUser(username) {
        return;
      }
      var newUser := User(username, crypto.hash(crypto.md5(password)), routes, "enabled");
      RecordsAppend(users, newUser);
      users := users + [newUser];
      SaveUserToYaml(newUser);
    }

    /** `saveUserToYAML`: appends the account's record to the file. */
    method SaveUserToYaml(newUser: User)
      modifies this`file
      ensures file == old(file) + [ToRecord(newUser)]
    {
      file := file + [ToRecord(newUser)];
    }

    /**
     * `saveUserDataToYAML`: for a known user, walks every record and every field of the file; in
     * each record, once the `username` field naming `user` has been seen, every field named
     * `key` receives `value`.
     */
    method SaveUserDataToYaml(user: string, key: string, value: Node)
      modifies this`file
      ensures file == if CheckUser(user) then UpdateFile(old(file), user, key, value) else old(file)
    {
      if !CheckUser(user) {
        return;
      }
      var i := 0;
      while i < |file|
        invariant 0 <= i <= |file| == |old(file)|
        invariant forall j :: 0 <= j < i ==> file[j] == UpdateFields(old(file)[j], user, key, value)
        invariant forall j :: i <= j < |file| ==> file[j] == old(file)[j]
      {
        var rec := UpdateRecord(file[i], user, key, value);
        file := file[i := rec];
        i := i + 1;
      }
    }

    /**
     * `login`: an unknown name or a password `compareSync` rejects yields nothing and leaves the
     * cache alone; otherwise a fresh token is stored under the user's session key for an hour and
     * returned with the user's routes. The password is compared as supplied.
     */
    method Login(username: string, password: string) returns (r: Option<Session>)
      modifies cache
      ensures match Find(users, username)
        case None => r == None && cache.entries == old(cache.entries)
        case Some(k) =>
          if crypto.verify(password, users[k].password) then
            var token := IssueToken(username, users[k].routes);
            && r == Some(Session(token, users[k].routes))
            && cache.entries == old(cache.entries)[TokenKey(username) := Entry(token, Some(TokenTtl))]
          else
            r == None && cache.entries == old(cache.entries)
    {
      var found := Find(users, username);
      if found.None? || !crypto.verify(password, users[found.value].password) {
        return None;
      }
      var user := users[found.value];
      var token := IssueToken(username, user.routes);
      cache.Set(TokenKey(username), token, Some(TokenTtl));
      r := Some(Session(token, user.routes));
    }

    /**
     * `quickLogin`: a code that differs (by loose `!=`, so an absent code matches an absent code)
     * from the stored one yields nothing; an unknown name then fails on reading its routes; a
     * known one gets a session exactly as in `Login`, and the one-time code is deleted.
     */
    method QuickLogin(otp: Option<string>, username: string) returns (r: Result<Option<Session>>)
      modifies cache
      ensures otp != Lookup(old(cache.entries), OtpKey) ==>
                r == Ok(None) && cache.entries == old(cache.entries)
      ensures otp == Lookup(old(cache.entries), OtpKey) ==>
                match Find(users, username)
                case None => r == Err(UndefinedUser) && cache.entries == old(cache.entries)
                case Some(k) =>
                  var token := IssueToken(username, users[k].routes);
                  && r == Ok(Some(Session(token, users[k].routes)))
                  && cache.entries == old(cache.entries)[TokenKey(username) := Entry(token, Some(TokenTtl))] - {OtpKey}
      ensures r.Ok? && r.value.Some? ==> OtpKey !in cache.entries && TokenKey(username) in cache.entries
    {
      var auth := cache.Get(OtpKey);
      if otp != auth {
        return Ok(None);
      }
      var found := Find(users, username);
      if found.None? {
        return Err(UndefinedUser);
      }
      var user := users[found.value];
      var token := IssueToken(username, user.routes);
      cache.Set(TokenKey(username), token, Some(TokenTtl));
      var _ := cache.Del(OtpKey);
      TokenKeyDistinct(username);
      r := Ok(Some(Session(token, user.routes)));
    }

    /**
     * `quickLogin` as evidently intended: a login needs a pending one-time code and a supplied
     * code equal to it; otherwise it behaves as `QuickLogin`.
     */
    method QuickLoginRequiringCode(otp: Option<string>, username: string) returns (r: Result<Option<Session>>)
      modifies cache
      ensures Lookup(old(cache.entries), OtpKey).None? || otp != Lookup(old(cache.entries), OtpKey) ==>
                r == Ok(None) && cache.entries == old(cache.entries)
      ensures Lookup(old(cache.entries), OtpKey).Some? && otp == Lookup(old(cache.entries), OtpKey) ==>
                match Find(users, username)
                case None => r == Err(UndefinedUser) && cache.entries == old(cache.entries)
                case Some(k) =>
                  var token := IssueToken(username, users[k].routes);
                  && r == Ok(Some(Session(token, users[k].routes)))
                  && cache.entries == old(cache.entries)[TokenKey(username) := Entry(token, Some(TokenTtl))] - {OtpKey}
      ensures r.Ok? && r.value.Some? ==>
                otp.Some? && Lookup(old(cache.entries), OtpKey) == otp && OtpKey !in cache.entries
    {
      var auth := cache.Get(OtpKey);
      if auth.None? || otp != auth {
        return Ok(None);
      }
      r := QuickLogin(otp, username);
    }

    /**
     * `logout`: deletes the user's session only when `token` is the stored one; otherwise
     * answers false and changes nothing.
     */
    method Logout(username: string, token: string) returns (ok: bool)
      modifies cache
      ensures ok <==> Lookup(old(cache.entries), TokenKey(username)) == Some(token)
      ensures cache.entries == if ok then old(cache.entries) - {TokenKey(username)} else old(cache.entries)
    {
      var currentToken := cache.Get(TokenKey(username));
      if Some(token) == currentToken {
        var removed := cache.Del(TokenKey(username));
        return removed > 0;
      }
      return false;
    }

    /** `validatePassword`: whether the first account with that name accepts the password. */
    function ValidatePassword(username: string, password: string): (ok: bool)
      reads this
      ensures ok ==> CheckUser(username)
      ensures ok <==> exists i :: 0 <= i < |users| && users[i].username == username
                         && (forall j :: 0 <= j < i ==> users[j].username != username)
                         && crypto.verify(password, users[i].password)
    {
      FirstMatchIsFound(users, username);
      match Find(users, username)
      case None => false
      case Some(k) => crypto.verify(password, users[k].password)
    }

    /**
     * `changePassword`: false for an unknown name, with nothing changed; otherwise the user's
     * password becomes the bcrypt hash of the supplied string (no MD5 step) in memory and in the
     * file, and nothing else changes.
     */
    method ChangePassword(username: string, password: string) returns (ok: bool)
      requires Valid()
      modifies this`users, this`file
      ensures Valid()
      ensures match Find(old(users), username)
        case None => !ok && users == old(users) && file == old(file)
        case Some(k) =>
          && ok
          && users == old(users)[k := old(users)[k].(password := crypto.hash(password))]
      ensures forall i :: 0 <= i < |users| && users[i].username != username ==> users[i] == old(users)[i]
    {
      var found := Find(users, username);
      if found.None? {
        return false;
      }
      var k := found.value;
      var hashedNewPassword := crypto.hash(password);
      ghost var before := users;
      var changed := users[k].(password := hashedNewPassword);
      users := users[k := changed];
      assert CheckUser(username) by { assert users[k].username == username; }
      SaveUserDataToYaml(username, "password", Scalar(hashedNewPassword));
      UpdateMirrorsMemory(before, k, "password", Scalar(hashedNewPassword), changed);
      return true;
    }

    /**
     * `changePermissions`: an unknown name throws "User not found" with nothing changed;
     * otherwise the user's routes are replaced wholesale by `perm` in memory and in the file,
     * and nothing else changes.
     */
    method ChangePermissions(username: string, perm: seq<string>) returns (r: Result<bool>)
      requires Valid()
      modifies this`users, this`file
      ensures Valid()
      ensures match Find(old(users), username)
        case None => r == Err(UserNotFound) && users == old(users) && file == old(file)
        case Some(k) => r == Ok(true) && users == old(users)[k := old(users)[k].(routes := perm)]
      ensures forall i :: 0 <= i < |users| && users[i].username != username ==> users[i] == old(users)[i]
    {
      var found := Find(users, username);
      if found.None? {
        return Err(UserNotFound);
      }
      var k := found.value;
      ghost var before := users;
      var changed := users[k].(routes := perm);
      users := users[k := changed];
      assert CheckUser(username) by { assert users[k].username == username; }
      SaveUserDataToYaml(username, "routes", Items(perm));
      UpdateMirrorsMemory(before, k, "routes", Items(perm), changed);
      return Ok(true);
    }

    /**
     * `refreshToken`: when `token` is the stored session token, its TTL is reset to an hour and
     * its value kept; otherwise nothing changes.
     */
    method RefreshToken(username: string, token: string)
      modifies cache
      ensures cache.entries ==
                if Lookup(old(cache.entries), TokenKey(username)) == Some(token) then
                  old(cache.entries)[TokenKey(username) := Entry(token, Some(TokenTtl))]
                else old(cache.entries)
    {
      var currentToken := cache.Get(TokenKey(username));
      if Some(token) == currentToken {
        var _ := cache.Expire(TokenKey(username), TokenTtl);
      }
    }
  }
}
