/** The user endpoints (src/api/user.rs): registration, login and the caller's own
    profile. */
module UserApi {
  import opened Values
  import opened AppErrors
  import Users
  import Base64Url

  datatype CreateUserRequest = CreateUserRequest(username: string, email: string, password: string,
                                                 hcaptchaToken: Option<string>)

  /** The outcome of posting a captcha token to the hCaptcha verification service: the
      request could not be sent, the reply could not be parsed, or the reply's
      `success` flag. */
  datatype CaptchaReply = SendFailed | ParseFailed | Verdict(success: bool)

  /** The captcha step of `create_user`. It applies only when a site key is configured;
      `reply` is what the service answers for the given token. */
  function CheckCaptcha(configured: bool, token: Option<string>, reply: CaptchaReply): (r: Result<()>)
    ensures !configured ==> r == Ok(())
    ensures configured && token.None? ==> r == Err(BadRequestError("Missing hCaptcha token"))
    ensures r.Ok? <==> !configured || (token.Some? && reply == Verdict(true))
    ensures configured && token.Some? && r.Err? ==>
              r.error.message == (match reply
                                  case SendFailed => "Failed to verify hCaptcha"
                                  case ParseFailed => "Failed to parse hCaptcha response"
                                  case Verdict(_) => "Invalid hCaptcha token")
    ensures r.Err? ==> (r.error.kind == InternalServerError <==> token.Some? && !reply.Verdict?)
  {
    if !configured then Ok(())
    else match token
      case None => Err(BadRequestError("Missing hCaptcha token"))
      case Some(_) =>
        match reply
        case SendFailed => Err(InternalError("Failed to verify hCaptcha"))
        case ParseFailed => Err(InternalError("Failed to parse hCaptcha response"))
        case Verdict(success) => if success then Ok(()) else Err(BadRequestError("Invalid hCaptcha token"))
  }

  /** The field checks of `create_user`, in source order: username of at least 3
      bytes, password of at least 8 bytes, an '@' in the email. The first that fails
      is reported. */
  function ValidateRegistration(username: string, email: string, password: string): (r: Result<()>)
    ensures r.Ok? <==> Utf8Len(username) >= 3 && Utf8Len(password) >= 8 && '@' in email
    ensures r.Err? ==> r.error.kind == BadRequest
    ensures Utf8Len(username) < 3 ==> r.Err? && r.error.message == "Username must be at least 3 characters"
    ensures Utf8Len(username) >= 3 && Utf8Len(password) < 8 ==>
              r.Err? && r.error.message == "Password must be at least 8 characters"
    ensures Utf8Len(username) >= 3 && Utf8Len(password) >= 8 && '@' !in email ==>
              r.Err? && r.error.message == "Invalid email address"
  {
    if Utf8Len(username) < 3 then Err(BadRequestError("Username must be at least 3 characters"))
    else if Utf8Len(password) < 8 then Err(BadRequestError("Password must be at least 8 characters"))
    else if '@' !in email then Err(BadRequestError("Invalid email address"))
    else Ok(())
  }

  /** Byte lengths, not character counts: a two-character username of multi-byte
      characters passes the three-byte check, and an ASCII one does not. */
  lemma UsernameLengthIsBytes()
    ensures ValidateRegistration("éé", "a@b", "password").Ok?
    ensures ValidateRegistration("ab", "a@b", "password") == Err(BadRequestError("Username must be at least 3 characters"))
  {
    assert Utf8Len("éé") == 4 by {
      assert "éé"[1..] == "é";
      assert "é"[1..] == "";
    }
    assert '@' in "a@b" by { assert "a@b"[1] == '@'; }
  }

  /** `create_user`: the captcha step, then the field checks, then `User::create` for a
      non-admin user. Nothing is stored unless every check passes. */
  method CreateUser(store: Users.UserStore, req: CreateUserRequest, captchaConfigured: bool, reply: CaptchaReply,
                    salt: seq<byte>, newId: Uuid, argon2: Users.Argon2, storageFault: bool)
    returns (r: Result<string>)
    requires |salt| == 16
    requires store.Valid()
    modifies store
    ensures store.Valid() && store.tokens == old(store.tokens)
    ensures CheckCaptcha(captchaConfigured, req.hcaptchaToken, reply).Err? ==>
              r == Err(CheckCaptcha(captchaConfigured, req.hcaptchaToken, reply).error)
    ensures CheckCaptcha(captchaConfigured, req.hcaptchaToken, reply).Ok?
            && ValidateRegistration(req.username, req.email, req.password).Err? ==>
              r == Err(ValidateRegistration(req.username, req.email, req.password).error)
    ensures r.Ok? <==> CheckCaptcha(captchaConfigured, req.hcaptchaToken, reply).Ok?
                       && ValidateRegistration(req.username, req.email, req.password).Ok?
                       && argon2.hashEncoded(req.password, salt).Some? && !storageFault
                       && Users.Admits(old(store.users), newId, req.username, req.email)
    ensures r.Ok? ==> r.value == "User created"
                      && store.users == old(store.users) +
                           [Users.User(newId, req.username, req.email, argon2.hashEncoded(req.password, salt).value, false)]
    ensures r.Err? ==> store.users == old(store.users)
  {
    var captcha := CheckCaptcha(captchaConfigured, req.hcaptchaToken, reply);
    if captcha.Err? {
      return Err(captcha.error);
    }
    var valid := ValidateRegistration(req.username, req.email, req.password);
    if valid.Err? {
      return Err(valid.error);
    }
    var created := store.Create(req.username, req.email, req.password, false, salt, newId, argon2, storageFault);
    if created.Err? {
      return Err(created.error);
    }
    r := Ok("User created");
  }

  datatype LoginUserResponse = LoginUserResponse(id: Uuid, username: string, email: string, isAdmin: bool, token: string)

  /** `login_user`: look the user up by email and password, then issue a token.
      `queryFault` stands for a failure of the lookup's query, `storageFault` for a
      failure of the token insert. */
  method LoginUser(store: Users.UserStore, email: string, password: string, argon2: Users.Argon2,
                   queryFault: bool, randomBytes: seq<byte>, storageFault: bool)
    returns (r: Result<LoginUserResponse>)
    requires |randomBytes| == 48
    requires store.Valid()
    modifies store
    ensures store.Valid() && store.users == old(store.users)
    ensures var login := Users.FromLogin(store.users, email, password, argon2, queryFault);
            r.Ok? <==> login.Ok? && !storageFault
                       && forall i :: 0 <= i < |old(store.tokens)| ==> old(store.tokens)[i].token != Base64Url.Encode(randomBytes)
    ensures Users.FromLogin(store.users, email, password, argon2, queryFault).Err? ==>
              r == Err(Users.FromLogin(store.users, email, password, argon2, queryFault).error)
              && store.tokens == old(store.tokens)
    ensures r.Ok? ==> var u := Users.FromLogin(store.users, email, password, argon2, queryFault).value;
                      && r.value == LoginUserResponse(u.id, u.username, u.email, u.isAdmin, Base64Url.Encode(randomBytes))
                      && |r.value.token| == 64
                      && store.tokens == old(store.tokens) + [Users.TokenRow(r.value.token, u.id)]
    ensures Users.FromLogin(store.users, email, password, argon2, queryFault).Ok? && r.Err? ==>
              r == Err(InternalError("Failed to issue token")) && store.tokens == old(store.tokens)
  {
    var user := Users.FromLogin(store.users, email, password, argon2, queryFault);
    if user.Err? {
      return Err(user.error);
    }
    var u := user.value;
    var token := store.CreateToken(u, randomBytes, storageFault);
    if token.Err? {
      return Err(token.error);
    }
    r := Ok(LoginUserResponse(u.id, u.username, u.email, u.isAdmin, token.value));
  }

  datatype UserSelfResponse = UserSelfResponse(id: Uuid, username: string, email: string, isAdmin: bool)

  /** `get_self`, given the outcome of extracting the requesting user (that extraction
      is not part of this model). */
  function GetSelf(extracted: Result<Users.User>): (r: Result<UserSelfResponse>)
    ensures extracted.Err? ==> r == Err(extracted.error)
    ensures r.Ok? <==> extracted.Ok?
    ensures r.Ok? ==> var u := extracted.value;
                      r.value.id == u.id && r.value.username == u.username
                      && r.value.email == u.email && r.value.isAdmin == u.isAdmin
  {
    match extracted
    case Err(e) => Err(e)
    case Ok(u) => Ok(UserSelfResponse(u.id, u.username, u.email, u.isAdmin))
  }

  /** The profile reveals nothing about the stored password hash. */
  lemma GetSelfIgnoresPassword(u: Users.User, hash: string)
    ensures GetSelf(Ok(u)) == GetSelf(Ok(u.(password := hash)))
  {
  }
}
