/**
 * What the two server entry points share: the user and course records, the
 * JSON responses, the token secret, the bearer-token middleware, the mapping
 * of caught exceptions to status codes, and the database holding users and
 * courses. Password hashing and token signing are library calls and are
 * taken as parameters (`Crypto`).
 */
module Server {
  import opened Wrappers
  import opened Text
  import opened Schema
  import opened Sequences

  /** The secret used when the environment does not set one. */
  const DefaultSecret := "your-secret-key"
  /** How long a login token is valid. */
  const TokenLifetime := "24h"
  /** The bcrypt cost factor used on registration. */
  const SaltRounds: nat := 10

  const NoTokenMessage := "ไม่พบ token การเข้าสู่ระบบ"
  const BadTokenMessage := "Token ไม่ถูกต้อง"
  const InvalidDataMessage := "ข้อมูลไม่ถูกต้อง"
  const ServerErrorMessage := "เกิดข้อผิดพลาดในระบบ"
  const NoUserMessage := "ไม่พบผู้ใช้"

  /** `process.env.JWT_SECRET || "your-secret-key"`: an unset or empty
      variable falls back to the built-in secret, so the secret is never
      empty. */
  function JwtSecret(env: Option<string>): (s: string)
    ensures s != ""
    ensures env.Some? && env.value != "" ==> s == env.value
    ensures env.None? || env.value == "" ==> s == DefaultSecret
  {
    if env.Some? && env.value != "" then env.value else DefaultSecret
  }

  /** A stored user; `passwordHash` is the `password` column. */
  datatype User = User(
    id: nat, email: string, passwordHash: string,
    firstName: string, lastName: string, role: string, isActive: bool)

  /** A user as sent to clients: every column but the password. */
  datatype PublicUser = PublicUser(
    id: nat, email: string, firstName: string, lastName: string, role: string, isActive: bool)

  /** `const { password, ...rest } = user`: drops the password and keeps the
      rest unchanged. */
  function Strip(u: User): (p: PublicUser)
    ensures p.id == u.id && p.email == u.email && p.role == u.role && p.isActive == u.isActive
    ensures p.firstName == u.firstName && p.lastName == u.lastName
  {
    PublicUser(u.id, u.email, u.firstName, u.lastName, u.role, u.isActive)
  }

  /** A course row: its own columns, whatever the course schema admits, and
      the teacher who owns it. */
  datatype Course = Course(id: nat, fields: seq<(string, string)>, teacherId: nat)

  /** The payload carried inside a login token. */
  datatype Claims = Claims(userId: nat, email: string, role: string)

  /** The library calls around passwords and tokens: `bcrypt.hash`,
      `bcrypt.compare`, `jwt.sign` and `jwt.verify` (which yields the
      payload, or nothing when the token is bad or expired). */
  datatype Crypto = Crypto(
    hash: (string, nat) -> string,
    compare: (string, string) -> bool,
    sign: (Claims, string, string) -> string,
    verify: (string, string) -> Option<Claims>)

  /** The JSON bodies the handlers send. */
  datatype Body =
    | Message(message: string)
    | Invalid(message: string, errors: seq<Issue>)
    | UserBody(user: PublicUser)
    | Registered(message: string, user: PublicUser)
    | LoggedIn(message: string, token: string, user: PublicUser)
    | UserList(users: seq<PublicUser>)
    | CourseBody(course: Course)
    | CourseCreated(message: string, course: Course)

  /** A status code and a body. */
  datatype Response = Response(status: nat, body: Body)

  /** What a handler's `catch` receives: a validation error with its issues,
      or anything else. */
  datatype Failure = ValidationFailure(issues: seq<Issue>) | InternalFailure

  /** The `catch` blocks: an error that carries issues is the client's fault
      (400 with the issues), anything else is the server's (500). */
  function FailureResponse(f: Failure): (r: Response)
    ensures r.status == 400 <==> f.ValidationFailure?
    ensures r.status == 500 <==> f.InternalFailure?
    ensures f.ValidationFailure? ==> r.body == Invalid(InvalidDataMessage, f.issues)
  {
    match f
    case ValidationFailure(issues) => Response(400, Invalid(InvalidDataMessage, issues))
    case InternalFailure => Response(500, Message(ServerErrorMessage))
  }

  // ---------------------------------------------------------------- tokens

  /** `authHeader && authHeader.split(' ')[1]`: the second space-separated
      field of the header, if the header is present and that field exists
      and is non-empty. */
  function BearerToken(header: Option<string>): (t: Option<string>)
    ensures t.Some? ==> t.value != "" && ' ' !in t.value
    ensures t.Some? ==> header.Some? && Contains(header.value, [' '] + t.value)
    ensures t.Some? <==> header.Some? && |Split(header.value, ' ')| >= 2 && Split(header.value, ' ')[1] != ""
    ensures t.Some? ==> t.value == Split(header.value, ' ')[1]
  {
    if header.None? || header.value == "" then None
    else
      var parts := Split(header.value, ' ');
      if |parts| >= 2 && parts[1] != "" then
        assert Contains(header.value, [' '] + parts[1]) by {
          JoinSplit(header.value, ' ');
          var rest := if |parts| > 2 then [' '] + Join(parts[2..], [' ']) else "";
          assert Join(parts[1..], [' ']) == parts[1] + rest by {
            assert parts[1..][1..] == parts[2..];
          }
          assert header.value == parts[0] + [' '] + parts[1] + rest;
          assert OccursAt(header.value, [' '] + parts[1], |parts[0]|) by {
            assert header.value[|parts[0]|..|parts[0]| + 1 + |parts[1]|] == [' '] + parts[1];
          }
        }
        Some(parts[1])
      else None
  }

  /** Read by the header's first space at `k`: the token is the text after
      it up to the next space or the end, and there is none when that text
      is empty. */
  lemma BearerTokenAfterFirstSpace(h: string, k: nat)
    requires k < |h| && h[k] == ' ' && ' ' !in h[..k]
    ensures BearerToken(Some(h)) ==
      if TakeUntil(h[k + 1..], ' ') != "" then Some(TakeUntil(h[k + 1..], ' ')) else None
  {
    SplitAtFirstSeparator(h, ' ', k);
  }

  /** The header the client sends, `Bearer <token>`, hands the middleware
      exactly that token. */
  lemma BearerHeaderRoundTrip(token: string)
    requires token != "" && ' ' !in token
    ensures BearerToken(Some("Bearer " + token)) == Some(token)
  {
    SplitJoin(["Bearer", token], ' ');
    assert Join(["Bearer", token], " ") == "Bearer " + token by {
      assert ["Bearer", token][1..] == [token];
    }
  }

  /** A header with no space in it carries no token. */
  lemma HeaderWithoutSpace(h: string)
    requires ' ' !in h
    ensures BearerToken(Some(h)).None?
  {
    SplitJoin([h], ' ');
  }

  /** The middleware's outcome: the request goes on with the token's
      payload, or it is answered at once. */
  datatype Auth = Authorized(claims: Claims) | Refused(response: Response)

  /** `authenticateToken`: no token is 401, a token that does not verify is
      403, and otherwise the handler runs with the payload the token
      carries. */
  function Authenticate(crypto: Crypto, secret: string, header: Option<string>): (a: Auth)
    ensures a.Refused? ==> a.response.body.Message?
    ensures BearerToken(header).None? ==> a == Refused(Response(401, Message(NoTokenMessage)))
    ensures BearerToken(header).Some? ==>
      match crypto.verify(BearerToken(header).value, secret)
      case None => a == Refused(Response(403, Message(BadTokenMessage)))
      case Some(c) => a == Authorized(c)
  {
    match BearerToken(header)
    case None => Refused(Response(401, Message(NoTokenMessage)))
    case Some(token) =>
      match crypto.verify(token, secret)
      case None => Refused(Response(403, Message(BadTokenMessage)))
      case Some(c) => Authorized(c)
  }

  /** A token the server signed, sent back as `Bearer <token>`, lets the
      request through with the payload it was signed with, provided the
      token library verifies its own tokens and they contain no space. */
  lemma SignedTokenAccepted(crypto: Crypto, secret: string, c: Claims)
    requires crypto.sign(c, secret, TokenLifetime) != ""
    requires ' ' !in crypto.sign(c, secret, TokenLifetime)
    requires crypto.verify(crypto.sign(c, secret, TokenLifetime), secret) == Some(c)
    ensures Authenticate(crypto, secret, Some("Bearer " + crypto.sign(c, secret, TokenLifetime))) == Authorized(c)
  {
    BearerHeaderRoundTrip(crypto.sign(c, secret, TokenLifetime));
  }

  // ---------------------------------------------------------------- storage

  /** `findUnique({ where: { email } })`: the user with that e-mail, if any. */
  function FindByEmail(users: seq<User>, email: string): (r: Option<User>)
    ensures r.Some? ==> r.value in users && r.value.email == email
    ensures r.None? <==> forall i :: 0 <= i < |users| ==> users[i].email != email
  {
    if users == [] then None
    else if users[0].email == email then Some(users[0])
    else FindByEmail(users[1..], email)
  }

  /** `findUnique({ where: { id } })`: the user with that id, if any. */
  function FindById(users: seq<User>, id: int): (r: Option<User>)
    ensures r.Some? ==> r.value in users && r.value.id == id
    ensures r.None? <==> forall i :: 0 <= i < |users| ==> users[i].id != id
  {
    match FirstWhere(users, (u: User) => u.id == id)
    case None => None
    case Some(i) => Some(users[i])
  }

  /** The course with that id, if any. */
  function FindCourse(courses: seq<Course>, id: int): (r: Option<Course>)
    ensures r.Some? ==> r.value in courses && r.value.id == id
    ensures r.None? <==> forall i :: 0 <= i < |courses| ==> courses[i].id != id
  {
    match FirstWhere(courses, (c: Course) => c.id == id)
    case None => None
    case Some(i) => Some(courses[i])
  }

  /** Looking an e-mail up after one more user was added: an earlier user
      with that e-mail still wins, otherwise the new user is found if the
      e-mail is theirs. */
  lemma {:induction false} FindByEmailAppend(users: seq<User>, u: User, email: string)
    ensures FindByEmail(users + [u], email) ==
      if FindByEmail(users, email).Some? then FindByEmail(users, email)
      else if u.email == email then Some(u) else None
  {
    if users != [] {
      assert (users + [u])[1..] == users[1..] + [u];
      FindByEmailAppend(users[1..], u, email);
    }
  }

  /** The database: users and courses, each numbered from 1 in the order
      they were created, and no two users sharing an e-mail. */
  class Database {
    var users: seq<User>
    var courses: seq<Course>

    ghost predicate Valid()
      reads this
    {
      (forall i :: 0 <= i < |users| ==> users[i].id == i + 1) &&
      (forall i, j :: 0 <= i < j < |users| ==> users[i].email != users[j].email) &&
      (forall i :: 0 <= i < |courses| ==> courses[i].id == i + 1)
    }

    constructor ()
      ensures Valid() && users == [] && courses == []
    {
      users := [];
      courses := [];
    }

    /** `user.create`: the next id and the given columns. The e-mail column
        is unique, so a taken e-mail makes the call fail and nothing is
        added. */
    method CreateUser(email: string, passwordHash: string, firstName: string,
                      lastName: string, role: string, isActive: bool) returns (u: Option<User>)
      requires Valid()
      modifies this`users
      ensures Valid()
      ensures u.None? <==> FindByEmail(old(users), email).Some?
      ensures u.Some? ==>
        u.value == User(|old(users)| + 1, email, passwordHash, firstName, lastName, role, isActive) &&
        users == old(users) + [u.value]
      ensures u.None? ==> users == old(users)
    {
      if FindByEmail(users, email).Some? {
        u := None;
      } else {
        var created := User(|users| + 1, email, passwordHash, firstName, lastName, role, isActive);
        users := users + [created];
        u := Some(created);
      }
    }

    /** `course.create`: the next id and the given columns. */
    method CreateCourse(fields: seq<(string, string)>, teacherId: nat) returns (c: Course)
      requires Valid()
      modifies this`courses
      ensures Valid()
      ensures c == Course(|old(courses)| + 1, fields, teacherId)
      ensures courses == old(courses) + [c]
    {
      c := Course(|courses| + 1, fields, teacherId);
      courses := courses + [c];
    }
  }
}
