/**
 * The account routes, `POST /api/auth/register`, `POST /api/auth/login`
 * and `GET /api/auth/me`. Both server entry points run the same steps. A
 * `fault` flag stands for the database call throwing.
 */
module Accounts {
  import opened Wrappers
  import opened Schema
  import opened Server

  const EmailTakenMessage := "อีเมลนี้ถูกใช้งานแล้ว"
  const RegisteredMessage := "สมัครสมาชิกสำเร็จ"
  const BadCredentialsMessage := "อีเมลหรือรหัสผ่านไม่ถูกต้อง"
  const SuspendedMessage := "บัญชีผู้ใช้ถูกระงับ"
  const LoggedInMessage := "เข้าสู่ระบบสำเร็จ"

  /** The row a registration stores: the validated fields, the password
      replaced by its hash, the confirmation dropped, the account active. */
  function NewAccount(id: nat, data: NewUser, crypto: Crypto): (u: User)
    ensures u.id == id && u.email == data.email && u.role == RoleName(data.role)
    ensures u.firstName == data.firstName && u.lastName == data.lastName
    ensures u.passwordHash == crypto.hash(data.password, SaltRounds) && u.isActive
  {
    User(id, data.email, crypto.hash(data.password, SaltRounds), data.firstName,
         data.lastName, RoleName(data.role), true)
  }

  /** The register handler. Invalid input is 400 with the issues; an e-mail
      already in use is 400 and stores nothing; otherwise exactly one user is
      added, with the next id and the hashed password, and the response is
      201 with that user minus the password. */
  method Register(db: Database, crypto: Crypto, isEmail: string -> bool,
                  body: RegisterInput, fault: bool) returns (resp: Response)
    requires db.Valid()
    modifies db`users
    ensures db.Valid()
    ensures ParseRegister(isEmail, body).Err? ==>
      resp == FailureResponse(ValidationFailure(ParseRegister(isEmail, body).error))
    ensures ParseRegister(isEmail, body).Ok? && fault ==> resp == FailureResponse(InternalFailure)
    ensures ParseRegister(isEmail, body).Ok? && !fault && FindByEmail(old(db.users), body.email).Some? ==>
      resp == Response(400, Message(EmailTakenMessage))
    ensures resp.status == 201 <==>
      ParseRegister(isEmail, body).Ok? && !fault && FindByEmail(old(db.users), body.email).None?
    ensures resp.status == 201 ==>
      var u := NewAccount(|old(db.users)| + 1, ParseRegister(isEmail, body).value, crypto);
      db.users == old(db.users) + [u] && resp == Response(201, Registered(RegisteredMessage, Strip(u)))
    ensures resp.status != 201 ==> db.users == old(db.users)
  {
    var parsed := ParseRegister(isEmail, body);
    if parsed.Err? {
      return FailureResponse(ValidationFailure(parsed.error));
    }
    if fault {
      return FailureResponse(InternalFailure);
    }
    var data := parsed.value;
    if FindByEmail(db.users, data.email).Some? {
      return Response(400, Message(EmailTakenMessage));
    }
    var account := NewAccount(|db.users| + 1, data, crypto);
    var created := db.CreateUser(account.email, account.passwordHash, account.firstName,
                                 account.lastName, account.role, account.isActive);
    resp := Response(201, Registered(RegisteredMessage, Strip(created.value)));
  }

  /** The login handler. An unknown e-mail and a wrong password get the same
      401 answer; the suspended-account answer is given only once the
      password has matched; a successful login signs exactly the user's id,
      e-mail and role for 24 hours and returns the user minus the password. */
  function Login(users: seq<User>, crypto: Crypto, secret: string, isEmail: string -> bool,
                 body: LoginInput, fault: bool): (r: Response)
    ensures ParseLogin(isEmail, body).Err? ==>
      r == FailureResponse(ValidationFailure(ParseLogin(isEmail, body).error))
    ensures ParseLogin(isEmail, body).Ok? && fault ==> r == FailureResponse(InternalFailure)
    ensures ParseLogin(isEmail, body).Ok? && !fault ==>
      match FindByEmail(users, body.email)
      case None => r == Response(401, Message(BadCredentialsMessage))
      case Some(u) =>
        if !crypto.compare(body.password, u.passwordHash) then r == Response(401, Message(BadCredentialsMessage))
        else if !u.isActive then r == Response(401, Message(SuspendedMessage))
        else r == Response(200, LoggedIn(LoggedInMessage,
                                         crypto.sign(Claims(u.id, u.email, u.role), secret, TokenLifetime),
                                         Strip(u)))
    ensures r.body == Message(SuspendedMessage) ==>
      FindByEmail(users, body.email).Some? &&
      crypto.compare(body.password, FindByEmail(users, body.email).value.passwordHash)
    ensures r.status == 200 ==> r.body.LoggedIn? && r.body.user.email == body.email && r.body.user.isActive
  {
    match ParseLogin(isEmail, body)
    case Err(issues) => FailureResponse(ValidationFailure(issues))
    case Ok(_) =>
      if fault then FailureResponse(InternalFailure)
      else
        match FindByEmail(users, body.email)
        case None => Response(401, Message(BadCredentialsMessage))
        case Some(u) =>
          if !crypto.compare(body.password, u.passwordHash) then Response(401, Message(BadCredentialsMessage))
          else if !u.isActive then Response(401, Message(SuspendedMessage))
          else
            var token := crypto.sign(Claims(u.id, u.email, u.role), secret, TokenLifetime);
            Response(200, LoggedIn(LoggedInMessage, token, Strip(u)))
  }

  /** An unknown e-mail and a known e-mail with the wrong password cannot be
      told apart from the answer. */
  lemma LoginHidesWhichCheckFailed(users: seq<User>, crypto: Crypto, secret: string,
                                   isEmail: string -> bool, unknown: LoginInput, wrong: LoginInput)
    requires ParseLogin(isEmail, unknown).Ok? && ParseLogin(isEmail, wrong).Ok?
    requires FindByEmail(users, unknown.email).None?
    requires FindByEmail(users, wrong.email).Some?
    requires !crypto.compare(wrong.password, FindByEmail(users, wrong.email).value.passwordHash)
    ensures Login(users, crypto, secret, isEmail, unknown, false) == Login(users, crypto, secret, isEmail, wrong, false)
  {
  }

  /** `GET /api/auth/me`: the token's user minus the password, or 404 when
      the database has no user with the token's id. */
  function Me(users: seq<User>, crypto: Crypto, secret: string, header: Option<string>, fault: bool): (r: Response)
    ensures Authenticate(crypto, secret, header).Refused? ==> r == Authenticate(crypto, secret, header).response
    ensures Authenticate(crypto, secret, header).Authorized? && !fault ==>
      var id := Authenticate(crypto, secret, header).claims.userId;
      (r.status == 404 <==> FindById(users, id).None?) &&
      (r.status == 200 ==> r == Response(200, UserBody(Strip(FindById(users, id).value))))
    ensures Authenticate(crypto, secret, header).Authorized? && fault ==> r == FailureResponse(InternalFailure)
  {
    match Authenticate(crypto, secret, header)
    case Refused(response) => response
    case Authorized(claims) =>
      if fault then FailureResponse(InternalFailure)
      else
        match FindById(users, claims.userId)
        case None => Response(404, Message(NoUserMessage))
        case Some(u) => Response(200, UserBody(Strip(u)))
  }

  /** Registering and then logging in with the same e-mail and password
      succeeds, provided the hash function's own check accepts a password
      against its hash, and the new user is the one logged in. */
  method RegisterThenLogin(db: Database, crypto: Crypto, secret: string, isEmail: string -> bool,
                           body: RegisterInput) returns (registered: Response, loggedIn: Response)
    requires db.Valid()
    requires crypto.compare(body.password, crypto.hash(body.password, SaltRounds))
    modifies db`users
    ensures db.Valid()
    ensures registered.status == 201 ==>
      loggedIn.status == 200 && loggedIn.body.LoggedIn? && registered.body.Registered? &&
      loggedIn.body.user == registered.body.user
  {
    registered := Register(db, crypto, isEmail, body, false);
    loggedIn := Login(db.users, crypto, secret, isEmail, LoginInput(body.email, body.password), false);
    if registered.status == 201 {
      var data := ParseRegister(isEmail, body).value;
      LoginFindsNewAccount(old(db.users), crypto, secret, isEmail, body, data);
    }
  }

  /** A user just appended under an e-mail nobody else has can log in with
      the password that was hashed for it. */
  lemma LoginFindsNewAccount(users: seq<User>, crypto: Crypto, secret: string, isEmail: string -> bool,
                             body: RegisterInput, data: NewUser)
    requires isEmail(body.email) && body.password != []
    requires data.email == body.email && data.password == body.password
    requires FindByEmail(users, body.email).None?
    requires crypto.compare(body.password, crypto.hash(body.password, SaltRounds))
    ensures var u := NewAccount(|users| + 1, data, crypto);
      var r := Login(users + [u], crypto, secret, isEmail, LoginInput(body.email, body.password), false);
      r.status == 200 && r.body.LoggedIn? && r.body.user == Strip(u)
  {
    var u := NewAccount(|users| + 1, data, crypto);
    FindByEmailAppend(users, u, body.email);
  }
}
