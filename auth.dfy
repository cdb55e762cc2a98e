/** The auth router: registration with a unique email, login with a single
    failure answer, and access tokens that carry the user's id and role and
    an expiry instant. Password hashing, hash verification and token encoding
    are parameters of the operations, as is the clock. */
module Auth {
  import opened Common
  import opened Decimal
  import opened Models

  const MicrosPerMinute := 60 * 1000 * 1000

  /** `ACCESS_TOKEN_EXPIRE_MINUTES` when the environment does not set it. */
  const DefaultExpireMinutes := 1440

  const EmailTaken := "Email already registered."
  const InvalidCredentials := "Invalid credentials"

  /** A value a token claim holds: text, or an instant for `exp`. */
  datatype ClaimValue = Text(text: string) | Instant(micros: int)

  /** `expires_delta or timedelta(minutes=ACCESS_TOKEN_EXPIRE_MINUTES)`: a zero
      interval is false in Python, so it falls back to the default as a
      missing one does. */
  function Expiry(now: int, expiresDelta: Option<int>): (exp: int)
    ensures expiresDelta.Some? && expiresDelta.value != 0 ==> exp == now + expiresDelta.value
    ensures expiresDelta.None? || expiresDelta.value == 0 ==> exp == now + DefaultExpireMinutes * MicrosPerMinute
    ensures exp != now
  {
    now + (if expiresDelta.Some? && expiresDelta.value != 0 then expiresDelta.value
           else DefaultExpireMinutes * MicrosPerMinute)
  }

  /** A Python `dict` of claims: `copy()` gives an independent object and
      `update` overwrites or adds entries in place. */
  class ClaimDict {
    var entries: map<string, ClaimValue>

    constructor Of(m: map<string, ClaimValue>)
      ensures entries == m
    {
      entries := m;
    }

    /** `d.copy()`. */
    constructor Copy(d: ClaimDict)
      ensures entries == d.entries
    {
      entries := d.entries;
    }

    /** `d.update(m)`: the entries of `m` win. */
    method Update(m: map<string, ClaimValue>)
      modifies this
      ensures entries == old(entries) + m
    {
      entries := entries + m;
    }
  }

  /** The claims that are encoded: the caller's claims with `exp` set. */
  function WithExpiry(data: map<string, ClaimValue>, exp: int): (claims: map<string, ClaimValue>)
    ensures claims.Keys == data.Keys + {"exp"}
    ensures claims["exp"] == Instant(exp)
    ensures forall k :: k in data && k != "exp" ==> claims[k] == data[k]
  {
    data + map["exp" := Instant(exp)]
  }

  /** `create_access_token(data, expires_delta)`: works on a copy, so the
      caller's dict is left as it was. */
  method CreateAccessToken(data: ClaimDict, expiresDelta: Option<int>, now: int,
                           encode: map<string, ClaimValue> -> string) returns (token: string)
    ensures token == encode(WithExpiry(data.entries, Expiry(now, expiresDelta)))
    ensures unchanged(data)
  {
    var toEncode := new ClaimDict.Copy(data);
    var expire := Expiry(now, expiresDelta);
    toEncode.Update(map["exp" := Instant(expire)]);
    token := encode(toEncode.entries);
  }

  /** `UserCreate`. */
  datatype UserCreate = UserCreate(email: string, name: string, role: Role, password: string)

  /** Whether a user with this email is stored. */
  predicate HasEmail(users: seq<User>, email: string) {
    exists i :: 0 <= i < |users| && users[i].email == email
  }

  /** The lookup `filter(User.email == email).first()`. */
  function UserByEmail(users: seq<User>, email: string): (r: Option<User>)
    ensures r.None? <==> !HasEmail(users, email)
    ensures r.Some? ==> r.value in users && r.value.email == email
    ensures r.Some? && EmailsUnique(users) ==>
              forall i :: 0 <= i < |users| && users[i].email == email ==> users[i] == r.value
  {
    var r := FirstWhere(users, (u: User) => u.email == email);
    assert r.Some? ==> r.value in users;
    r
  }

  /** `register`: a taken email is refused and nothing changes; otherwise one
      user is appended, holding the hash of the password and not the password. */
  method Register(db: Database, user: UserCreate, hash: string -> string) returns (r: Result<User, HttpError>)
    requires db.Valid()
    modifies db
    ensures db.Valid()
    ensures db.clients == old(db.clients) && db.appointments == old(db.appointments)
    ensures r.Failure? <==> HasEmail(old(db.users), user.email)
    ensures r.Failure? ==> r.error == HttpError(400, EmailTaken) && db.users == old(db.users)
    ensures r.Success? ==>
              r.value == User(NextId(UserIds(old(db.users))), user.email, user.name, user.role, hash(user.password))
              && db.users == old(db.users) + [r.value]
  {
    var existing := UserByEmail(db.users, user.email);
    if existing.Some? {
      return Failure(HttpError(400, EmailTaken));
    }
    var hashed := hash(user.password);
    var id := NextId(UserIds(db.users));
    var row := User(id, user.email, user.name, user.role, hashed);
    assert forall i :: 0 <= i < |db.users| ==> db.users[i].id == UserIds(db.users)[i];
    db.users := db.users + [row];
    r := Success(row);
  }

  /** The accept/reject decision of `login`: an unknown email and a wrong
      password give the same error. */
  function Authenticate(users: seq<User>, username: string, password: string,
                        verify: (string, string) -> bool): (r: Result<User, HttpError>)
    ensures r.Failure? ==> r.error == HttpError(401, InvalidCredentials)
    ensures r.Success? <==> HasEmail(users, username) && verify(password, UserByEmail(users, username).value.passwordHash)
    ensures r.Success? ==> r.value in users && r.value.email == username
  {
    match UserByEmail(users, username)
    case None => Failure(HttpError(401, InvalidCredentials))
    case Some(u) =>
      if !verify(password, u.passwordHash) then Failure(HttpError(401, InvalidCredentials))
      else Success(u)
  }

  /** The claims `login` puts in a token: `sub` is the decimal user id and
      `role` the role's name. */
  function LoginClaims(u: User): (claims: map<string, ClaimValue>)
    ensures claims.Keys == {"sub", "role"}
    ensures claims["sub"] == Text(IntToString(u.id)) && ParseInt(claims["sub"].text) == Some(u.id)
    ensures claims["role"] == Text(RoleName(u.role))
    ensures claims["role"].text == "owner" <==> u.role == Owner
    ensures claims["role"].text == "staff" <==> u.role == Staff
  {
    IntRoundTrip(u.id);
    map["sub" := Text(IntToString(u.id)), "role" := Text(RoleName(u.role))]
  }

  /** `{"access_token": token, "token_type": "bearer"}`. */
  datatype TokenResponse = TokenResponse(accessToken: string, tokenType: string)

  /** `login`: a bearer token for the user the form names, with the default expiry. */
  method Login(db: Database, username: string, password: string, now: int,
               verify: (string, string) -> bool, encode: map<string, ClaimValue> -> string)
    returns (r: Result<TokenResponse, HttpError>)
    ensures r.Failure? <==> Authenticate(db.users, username, password, verify).Failure?
    ensures r.Failure? ==> r.error == HttpError(401, InvalidCredentials)
    ensures r.Success? ==>
              var u := Authenticate(db.users, username, password, verify).value;
              r.value == TokenResponse(encode(WithExpiry(LoginClaims(u), Expiry(now, None))), "bearer")
  {
    var decision := Authenticate(db.users, username, password, verify);
    if decision.Failure? {
      return Failure(decision.error);
    }
    var claims := new ClaimDict.Of(LoginClaims(decision.value));
    var token := CreateAccessToken(claims, None, now, encode);
    r := Success(TokenResponse(token, "bearer"));
  }

  /** A user who has just registered is found by that email, and logs in with
      that password whenever the verifier accepts the password against its
      own hash. */
  lemma RegisterThenAuthenticate(users: seq<User>, row: User, password: string,
                                 hash: string -> string, verify: (string, string) -> bool)
    requires !HasEmail(users, row.email) && row.passwordHash == hash(password)
    requires verify(password, hash(password))
    ensures Authenticate(users + [row], row.email, password, verify) == Success(row)
  {
    FirstWhereAppend(users, row, (u: User) => u.email == row.email);
  }

  /** Registration keeps emails unique: appending a user whose email no
      stored user has leaves a table in which every email occurs once, the
      new one included. */
  lemma RegisteredEmailOnce(users: seq<User>, row: User)
    requires EmailsUnique(users) && !HasEmail(users, row.email)
    ensures EmailsUnique(users + [row])
    ensures HasEmail(users + [row], row.email)
  {
    assert (users + [row])[|users|] == row;
  }
}
