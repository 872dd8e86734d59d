/** Users and login tokens (src/models/user.rs) over in-memory `users` and
    `user_tokens` tables. */
module Users {
  import opened Values
  import opened AppErrors
  import Base64Url

  /** A row of `users`; `password` holds the argon2 encoding, never the plaintext. */
  datatype User = User(id: Uuid, username: string, email: string, password: string, isAdmin: bool)

  /** A row of `user_tokens`. */
  datatype TokenRow = TokenRow(token: string, userId: Uuid)

  /** The argon2 library's `hash_encoded` (password and salt to an encoded hash) and
      `verify_encoded` (encoded hash and password to a verdict), foreign to this model.
      None stands for an error reported by the library. */
  datatype Argon2 = Argon2(hashEncoded: (string, seq<byte>) -> Option<string>,
                           verifyEncoded: (string, string) -> Option<bool>)

  /** A hash the library produced verifies against the password it was made from. */
  ghost predicate VerifiesOwnHashes(argon2: Argon2)
  {
    forall password, salt :: argon2.hashEncoded(password, salt).Some? ==>
      argon2.verifyEncoded(argon2.hashEncoded(password, salt).value, password) == Some(true)
  }

  /** The column a `users` query filters on: `WHERE id = $1` or `WHERE email = $1`. */
  datatype UserKey = ById(id: Uuid) | ByEmail(email: string)

  predicate Matches(u: User, key: UserKey)
  {
    match key
    case ById(id) => u.id == id
    case ByEmail(email) => u.email == email
  }

  /** `fetch_one` on `users` filtered by the key: the first matching row. */
  function FindUser(users: seq<User>, key: UserKey): (r: Option<User>)
    ensures r.Some? ==> r.value in users && Matches(r.value, key)
    ensures r.None? <==> forall i :: 0 <= i < |users| ==> !Matches(users[i], key)
  {
    if users == [] then None
    else if Matches(users[0], key) then Some(users[0])
    else FindUser(users[1..], key)
  }

  /** `User::from_uuid`. A failed query (`queryFault`) is mapped to the same error
      as a missing row. */
  function FromUuid(users: seq<User>, id: Uuid, queryFault: bool): (r: Result<User>)
    ensures r.Err? <==> queryFault || forall i :: 0 <= i < |users| ==> users[i].id != id
    ensures r.Err? ==> r.error == NotFoundError("User not found")
    ensures r.Ok? ==> r.value in users && r.value.id == id
  {
    if queryFault then Err(NotFoundError("User not found"))
    else
      match FindUser(users, ById(id))
      case None => Err(NotFoundError("User not found"))
      case Some(u) => Ok(u)
  }

  /** `User::from_login`: the user with that email whose stored hash verifies the
      password. An unknown email, a failed query (`queryFault`) and a wrong password
      give the same error; only a failure of the verification itself is reported
      differently. */
  function FromLogin(users: seq<User>, email: string, password: string, argon2: Argon2, queryFault: bool): (r: Result<User>)
    ensures queryFault || (forall i :: 0 <= i < |users| ==> users[i].email != email) ==>
              r == Err(NotFoundError("User not found"))
    ensures r.Ok? ==> !queryFault && r.value in users && r.value.email == email
                      && argon2.verifyEncoded(r.value.password, password) == Some(true)
    ensures r.Err? ==> r.error == NotFoundError("User not found") || r.error == InternalError("Failed to retrieve user")
    ensures r == Err(InternalError("Failed to retrieve user")) <==>
              !queryFault && FindUser(users, ByEmail(email)).Some?
              && argon2.verifyEncoded(FindUser(users, ByEmail(email)).value.password, password).None?
  {
    if queryFault then Err(NotFoundError("User not found"))
    else
      match FindUser(users, ByEmail(email))
      case None => Err(NotFoundError("User not found"))
      case Some(u) =>
        match argon2.verifyEncoded(u.password, password)
        case None => Err(InternalError("Failed to retrieve user"))
        case Some(valid) => if valid then Ok(u) else Err(NotFoundError("User not found"))
  }

  /** Ids, usernames and emails are unique among users. */
  ghost predicate UniqueUsers(users: seq<User>)
  {
    forall i, j :: 0 <= i < j < |users| ==>
      users[i].id != users[j].id && users[i].username != users[j].username && users[i].email != users[j].email
  }

  /** A new row with these keys violates no uniqueness constraint. */
  predicate Admits(users: seq<User>, id: Uuid, username: string, email: string)
  {
    forall i :: 0 <= i < |users| ==> users[i].id != id && users[i].username != username && users[i].email != email
  }

  lemma {:induction false} FindByEmailUnique(users: seq<User>, k: nat)
    requires UniqueUsers(users) && k < |users|
    ensures FindUser(users, ByEmail(users[k].email)) == Some(users[k])
  {
    if k > 0 {
      assert users[0].email != users[k].email;
      FindByEmailUnique(users[1..], k - 1);
    }
  }

  /** With unique emails, logging in as a stored user succeeds exactly when the query
      goes through and the stored hash verifies the password; it fails with NotFound
      when the query fails or the hash does not verify, and with Internal exactly when
      the verification itself errs. */
  lemma LoginOutcomes(users: seq<User>, k: nat, password: string, argon2: Argon2, queryFault: bool)
    requires UniqueUsers(users) && k < |users|
    ensures var r := FromLogin(users, users[k].email, password, argon2, queryFault);
            var verdict := argon2.verifyEncoded(users[k].password, password);
            && (r == Ok(users[k]) <==> !queryFault && verdict == Some(true))
            && (r == Err(NotFoundError("User not found")) <==> queryFault || verdict == Some(false))
            && (r == Err(InternalError("Failed to retrieve user")) <==> !queryFault && verdict.None?)
  {
    FindByEmailUnique(users, k);
  }

  lemma {:induction false} FindByEmailAppend(users: seq<User>, u: User)
    requires forall i :: 0 <= i < |users| ==> users[i].email != u.email
    ensures FindUser(users + [u], ByEmail(u.email)) == Some(u)
  {
    if users != [] {
      assert (users + [u])[1..] == users[1..] + [u];
      FindByEmailAppend(users[1..], u);
    }
  }

  /** Registration followed by login: once a user is stored with the encoding of a
      password, logging in with that email and password returns that user. */
  lemma RegisteredUserCanLogIn(users: seq<User>, u: User, password: string, salt: seq<byte>, argon2: Argon2)
    requires forall i :: 0 <= i < |users| ==> users[i].email != u.email
    requires argon2.hashEncoded(password, salt) == Some(u.password)
    requires VerifiesOwnHashes(argon2)
    ensures FromLogin(users + [u], u.email, password, argon2, false) == Ok(u)
  {
    FindByEmailAppend(users, u);
  }

  /** Tokens are unique in `user_tokens`. */
  ghost predicate UniqueTokens(tokens: seq<TokenRow>)
  {
    forall i, j :: 0 <= i < j < |tokens| ==> tokens[i].token != tokens[j].token
  }

  class UserStore {
    var users: seq<User>
    var tokens: seq<TokenRow>

    ghost predicate Valid()
      reads this
    {
      UniqueUsers(users) && UniqueTokens(tokens)
    }

    constructor ()
      ensures users == [] && tokens == [] && Valid()
    {
      users, tokens := [], [];
    }

    /** `User::create`: reject a password shorter than 8 bytes, hash it with the salt,
        and insert the row. Any rejected insert (a duplicate id, username or email, or
        another database error) is reported as BadRequest. */
    method Create(username: string, email: string, password: string, isAdmin: bool,
                  salt: seq<byte>, newId: Uuid, argon2: Argon2, storageFault: bool)
      returns (r: Result<User>)
      requires |salt| == 16
      requires Valid()
      modifies this`users
      ensures Valid()
      ensures Utf8Len(password) < 8 ==> r == Err(BadRequestError("Password must be at least 8 characters"))
      ensures Utf8Len(password) >= 8 && argon2.hashEncoded(password, salt).None? ==>
                r == Err(InternalError("Failed to hash password"))
      ensures r.Ok? <==> Utf8Len(password) >= 8 && argon2.hashEncoded(password, salt).Some?
                         && !storageFault && Admits(old(users), newId, username, email)
      ensures r.Ok? ==> r.value == User(newId, username, email, argon2.hashEncoded(password, salt).value, isAdmin)
                        && users == old(users) + [r.value]
      ensures r.Err? && Utf8Len(password) >= 8 && argon2.hashEncoded(password, salt).Some? ==>
                r == Err(BadRequestError("Failed to create user"))
      ensures r.Err? ==> users == old(users)
    {
      if Utf8Len(password) < 8 {
        return Err(BadRequestError("Password must be at least 8 characters"));
      }
      var hash := argon2.hashEncoded(password, salt);
      if hash.None? {
        return Err(InternalError("Failed to hash password"));
      }
      if storageFault || !Admits(users, newId, username, email) {
        return Err(BadRequestError("Failed to create user"));
      }
      var user := User(newId, username, email, hash.value, isAdmin);
      users := users + [user];
      r := Ok(user);
    }

    /** `User::create_token`: encode the 48 random bytes as unpadded base64url and
        insert the token for this user. */
    method CreateToken(user: User, randomBytes: seq<byte>, storageFault: bool) returns (r: Result<string>)
      requires |randomBytes| == 48
      requires Valid()
      modifies this`tokens
      ensures Valid()
      ensures r.Ok? <==> !storageFault
                         && forall i :: 0 <= i < |old(tokens)| ==> old(tokens)[i].token != Base64Url.Encode(randomBytes)
      ensures r.Ok? ==> r.value == Base64Url.Encode(randomBytes) && tokens == old(tokens) + [TokenRow(r.value, user.id)]
      ensures r.Ok? ==> |r.value| == 64 && forall i :: 0 <= i < |r.value| ==> Base64Url.IsUrlSafe(r.value[i])
      ensures r.Err? ==> r.error == InternalError("Failed to issue token") && tokens == old(tokens)
    {
      var token := Base64Url.Encode(randomBytes);
      if storageFault || exists i :: 0 <= i < |tokens| && tokens[i].token == token {
        return Err(InternalError("Failed to issue token"));
      }
      tokens := tokens + [TokenRow(token, user.id)];
      r := Ok(token);
    }
  }
}
