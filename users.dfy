/**
 * The user routes of the second server entry point, `GET /api/users` and
 * `GET /api/users/:id`, both behind the bearer-token middleware.
 */
module Users {
  import opened Wrappers
  import opened Server

  /** `users.map(({ password, ...user }) => user)`: every user, in the same
      order, each without the password. */
  function StripAll(users: seq<User>): (r: seq<PublicUser>)
    ensures |r| == |users|
    ensures forall i :: 0 <= i < |users| ==> r[i] == Strip(users[i])
  {
    if users == [] then [] else [Strip(users[0])] + StripAll(users[1..])
  }

  /** Stripping loses nothing but the password: two users with the same
      public columns differ at most in their password hash. */
  lemma StripOnlyDropsPassword(u: User, v: User)
    requires Strip(u) == Strip(v)
    ensures u == v.(passwordHash := u.passwordHash)
  {
  }

  /** `GET /api/users`: every stored user, same count and order, with the
      password removed. */
  function ListUsers(users: seq<User>, crypto: Crypto, secret: string, header: Option<string>, fault: bool): (r: Response)
    ensures Authenticate(crypto, secret, header).Refused? ==> r == Authenticate(crypto, secret, header).response
    ensures Authenticate(crypto, secret, header).Authorized? && fault ==> r == FailureResponse(InternalFailure)
    ensures Authenticate(crypto, secret, header).Authorized? && !fault ==>
      r.status == 200 && r.body.UserList? && |r.body.users| == |users| &&
      forall i :: 0 <= i < |users| ==> r.body.users[i] == Strip(users[i])
  {
    match Authenticate(crypto, secret, header)
    case Refused(response) => response
    case Authorized(_) =>
      if fault then FailureResponse(InternalFailure) else Response(200, UserList(StripAll(users)))
  }

  /** `GET /api/users/:id`, with the id already read from the path: the user
      without the password, or 404 when there is no such user. */
  function GetUser(users: seq<User>, crypto: Crypto, secret: string, header: Option<string>,
                   id: int, fault: bool): (r: Response)
    ensures Authenticate(crypto, secret, header).Refused? ==> r == Authenticate(crypto, secret, header).response
    ensures Authenticate(crypto, secret, header).Authorized? && fault ==> r == FailureResponse(InternalFailure)
    ensures Authenticate(crypto, secret, header).Authorized? && !fault ==>
      (r.status == 404 <==> forall i :: 0 <= i < |users| ==> users[i].id != id) &&
      (r.status == 200 ==> r.body.UserBody? && r.body.user.id == id &&
                           exists i :: 0 <= i < |users| && r.body.user == Strip(users[i]))
  {
    match Authenticate(crypto, secret, header)
    case Refused(response) => response
    case Authorized(_) =>
      if fault then FailureResponse(InternalFailure)
      else
        match FindById(users, id)
        case None => Response(404, Message(NoUserMessage))
        case Some(u) => Response(200, UserBody(Strip(u)))
  }
}
