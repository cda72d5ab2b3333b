/**
 * The browser's session store: the login token and the signed-in user, kept
 * under two keys of local storage. The user is stored as JSON; the JSON
 * codec is the platform's and is taken as a parameter.
 */
module ClientAuth {
  import opened Wrappers
  import opened Server

  const TokenKey := "auth_token"
  const UserKey := "auth_user"

  /** `JSON.stringify` and `JSON.parse` for users. */
  datatype JsonCodec = JsonCodec(stringify: PublicUser -> string, parse: string -> PublicUser)

  /** Parsing what was stringified gives the user back, and a stringified
      user is never the empty string. */
  ghost predicate RoundTrips(codec: JsonCodec) {
    forall u :: codec.parse(codec.stringify(u)) == u && codec.stringify(u) != ""
  }

  /** What the login endpoint answered: a message and perhaps a token and a
      user. */
  datatype AuthResponse = AuthResponse(message: string, token: Option<string>, user: Option<PublicUser>)

  /** How the request to `/api/auth/me` ended. */
  datatype MeOutcome = Thrown | NotOk | OkBody(user: Option<PublicUser>)

  class AuthService {
    const codec: JsonCodec
    var storage: map<string, string>
    /** The user last stored, as a value. */
    ghost var user: Option<PublicUser>

    /** The user key holds exactly the JSON of the stored user. */
    ghost predicate Valid()
      reads this
    {
      RoundTrips(codec) &&
      (UserKey in storage <==> user.Some?) &&
      (user.Some? ==> storage[UserKey] == codec.stringify(user.value))
    }

    constructor (codec: JsonCodec)
      requires RoundTrips(codec)
      ensures Valid() && this.codec == codec && storage == map[] && user == None
    {
      this.codec := codec;
      storage := map[];
      user := None;
    }

    /** `getToken()`: the stored token, if any. */
    function GetToken(): (t: Option<string>)
      reads this
      ensures t.Some? <==> TokenKey in storage
      ensures t.Some? ==> t.value == storage[TokenKey]
    {
      if TokenKey in storage then Some(storage[TokenKey]) else None
    }

    /** `setToken(t)`: the token key now holds `t`; nothing else changes. */
    method SetToken(t: string)
      requires Valid()
      modifies this`storage
      ensures Valid()
      ensures storage == old(storage)[TokenKey := t]
      ensures GetToken() == Some(t)
    {
      storage := storage[TokenKey := t];
    }

    /** `removeToken()`: both the token and the user are gone. */
    method RemoveToken()
      requires Valid()
      modifies this`storage, this`user
      ensures Valid()
      ensures storage == old(storage) - {TokenKey, UserKey}
      ensures GetToken() == None && user == None
    {
      storage := storage - {TokenKey, UserKey};
      user := None;
    }

    /** `getUser()`: the stored user read back from its JSON; none when the
        key is missing. */
    function GetUser(): (u: Option<PublicUser>)
      requires Valid()
      reads this
      ensures u == user
    {
      if UserKey in storage && storage[UserKey] != "" then Some(codec.parse(storage[UserKey])) else None
    }

    /** `setUser(u)`: the user key holds the JSON of `u`, so that `getUser`
        gives `u` back; nothing else changes. */
    method SetUser(u: PublicUser)
      requires Valid()
      modifies this`storage, this`user
      ensures Valid()
      ensures storage == old(storage)[UserKey := codec.stringify(u)]
      ensures GetUser() == Some(u)
    {
      storage := storage[UserKey := codec.stringify(u)];
      user := Some(u);
    }

    /** `isAuthenticated()`: a non-empty token is stored. */
    function IsAuthenticated(): (b: bool)
      reads this
      ensures b <==> TokenKey in storage && storage[TokenKey] != ""
    {
      GetToken().Some? && GetToken().value != ""
    }

    /** `login` once the response has arrived: the token and the user are
        stored only when the answer carries both (a non-empty token); the
        answer is handed back unchanged. */
    method Login(data: AuthResponse) returns (r: AuthResponse)
      requires Valid()
      modifies this`storage, this`user
      ensures Valid() && r == data
      ensures data.token.Some? && data.token.value != "" && data.user.Some? ==>
        storage == old(storage)[TokenKey := data.token.value][UserKey := codec.stringify(data.user.value)] &&
        GetToken() == data.token && GetUser() == data.user && IsAuthenticated()
      ensures !(data.token.Some? && data.token.value != "" && data.user.Some?) ==>
        storage == old(storage) && user == old(user)
    {
      if data.token.Some? && data.token.value != "" && data.user.Some? {
        SetToken(data.token.value);
        SetUser(data.user.value);
      }
      r := data;
    }

    /** `logout()`: the same as `removeToken()`. */
    method Logout()
      requires Valid()
      modifies this`storage, this`user
      ensures Valid()
      ensures storage == old(storage) - {TokenKey, UserKey}
      ensures !IsAuthenticated() && GetUser() == None
    {
      RemoveToken();
    }

    /** `getCurrentUser()`. Without a token it answers nothing, sends no
        request and changes nothing. Otherwise it sends the token as
        `Bearer <token>`; a failed or refused request clears both keys, and
        an answer with a user stores that user. */
    method GetCurrentUser(outcome: MeOutcome) returns (u: Option<PublicUser>, request: Option<string>)
      requires Valid()
      modifies this`storage, this`user
      ensures Valid()
      ensures !old(IsAuthenticated()) ==>
        u == None && request == None && storage == old(storage) && user == old(user)
      ensures old(IsAuthenticated()) ==> request == Some("Bearer " + old(storage[TokenKey]))
      ensures old(IsAuthenticated()) && ' ' !in old(storage[TokenKey]) ==>
        BearerToken(request) == Some(old(storage[TokenKey]))
      ensures old(IsAuthenticated()) && (outcome.Thrown? || outcome.NotOk?) ==>
        u == None && storage == old(storage) - {TokenKey, UserKey} && user == None
      ensures old(IsAuthenticated()) && outcome.OkBody? ==>
        u == outcome.user &&
        (outcome.user.Some? ==> storage == old(storage)[UserKey := codec.stringify(outcome.user.value)] &&
                                GetUser() == outcome.user) &&
        (outcome.user.None? ==> storage == old(storage) && user == old(user))
    {
      var token := GetToken();
      if token.None? || token.value == "" {
        return None, None;
      }
      request := Some("Bearer " + token.value);
      if ' ' !in token.value {
        BearerHeaderRoundTrip(token.value);
      }
      match outcome
      case Thrown =>
        RemoveToken();
        u := None;
      case NotOk =>
        RemoveToken();
        u := None;
      case OkBody(body) =>
        if body.Some? {
          SetUser(body.value);
        }
        u := body;
    }
  }
}
