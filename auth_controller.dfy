/** `AuthController`: registration with a mailed code, code verification,
    password login, OAuth sign-in and the session checks. Password hashing
    (BCrypt) and token signing and validation (JWT) are foreign code and are
    passed in as functions; the clock is the parameter `now`, in seconds. */
module AuthController {
  import opened Common
  import opened Numbers
  import opened Store
  import opened Services

  /** How long a verification code stays valid: two hours. */
  const CodeLifetime: int := 2 * 60 * 60

  /** The token side of JWT: `sign` writes a token for a user and `idClaim`
      gives the "id" claim of a token whose signature and lifetime check out,
      `None` for any other token. A valid token without an "id" claim is
      given the empty claim, which fails parsing as the missing claim fails. */
  datatype Jwt = Jwt(sign: User -> string, idClaim: string -> Option<string>)

  /** The answer of the actions that sign a user in: the token and the user it names. */
  datatype SignedIn = SignedIn(authToken: string, user: User)

  // ---- Verification codes

  /** `GenerateVerificationCode`: `Random.Next(100000, 999999)` written in
      decimal. `roll` is the drawn number; the upper bound is exclusive, so
      999999 is never drawn. */
  function GenerateVerificationCode(roll: int): (code: string)
    requires 100000 <= roll < 999999
    ensures |code| == 6 && AllDigits(code)
    ensures ParseInt32(code) == Some(roll)
    ensures code != "999999"
  {
    SixDigitBounds();
    DigitsLength(roll, 6);
    ParseOfFormat(roll);
    DigitsValueOfDigits(roll);
    NineNinesValue();
    IntToString(roll)
  }

  lemma SixDigitBounds()
    ensures Pow10(5) == 100000 && Pow10(6) == 1000000
  {
    assert Pow10(2) == 100;
  }

  /** The digits "999999" denote 999999, which the exclusive upper bound never rolls. */
  lemma NineNinesValue()
    ensures DigitsValue("999999") == 999999
  {
    assert "999999"[..5] == "99999";
    assert "99999"[..4] == "9999";
    assert "9999"[..3] == "999";
    assert "999"[..2] == "99";
    assert "99"[..1] == "9";
    assert "9"[..0] == "";
  }

  /** The code record a verification request finds: its code and session
      token are those given and it expires after `now`. */
  function CodeIndex(codes: seq<VerificationCode>, code: string, session: string, now: int): Option<nat> {
    FirstIndex(codes, (vc: VerificationCode) => vc.code == code && vc.sessionToken == session && vc.expiresAt > now)
  }

  /** A code mailed at `issued` is accepted with its session token at any time
      before two hours have passed, and at no time after. */
  lemma FreshCodeMatchesUntilExpiry(codes: seq<VerificationCode>, vc: VerificationCode, issued: int, now: int)
    requires forall j :: 0 <= j < |codes| ==> codes[j].sessionToken != vc.sessionToken
    requires vc.expiresAt == issued + CodeLifetime
    ensures now < issued + CodeLifetime ==>
              CodeIndex(codes + [vc], vc.code, vc.sessionToken, now) == Some(|codes|)
    ensures now >= issued + CodeLifetime ==>
              CodeIndex(codes + [vc], vc.code, vc.sessionToken, now).None?
  {
    var all := codes + [vc];
    assert all[|codes|] == vc;
    assert forall j :: 0 <= j < |codes| ==> all[j] == codes[j];
  }

  /** Once the record with a session token is removed, nothing matches that
      session any more: a code succeeds at most once. */
  lemma ConsumedCodeCannotBeReused(codes: seq<VerificationCode>, k: nat, code: string, now: int, later: int)
    requires SessionsUnique(codes)
    requires k < |codes|
    ensures CodeIndex(RemoveAt(codes, k), code, codes[k].sessionToken, later).None?
  {
    var rest := RemoveAt(codes, k);
    forall j | 0 <= j < |rest|
      ensures rest[j].sessionToken != codes[k].sessionToken
    {
      if j < k {
        assert rest[j] == codes[j];
      } else {
        assert rest[j] == codes[j + 1];
      }
    }
  }

  // ---- Register

  datatype RegisterForm = RegisterForm(firstName: string, email: string, password: string)

  /** The first user with the given e-mail. */
  function EmailIndex(users: seq<User>, email: string): Option<nat> {
    FirstIndex(users, (u: User) => u.email == email)
  }

  /** `Register`. A used e-mail is answered 400, saying whether that account
      is still unconfirmed, and nothing is written. Otherwise one USER with
      the hashed password and no verification time is stored, then one code
      record for that user with the code drawn, the new session token and an
      expiry two hours from now, and the code is mailed. The send is not
      guarded: when it fails the answer is 500 and the user and the record
      stay stored. The session cookie is issued with the success answer. */
  method Register(db: Db, form: RegisterForm, hash: string -> string, roll: int, session: string, now: int, mailDelivered: bool)
    returns (r: Result<()>, cookie: Option<string>, mail: Option<Mail>)
    requires db.Valid()
    requires 100000 <= roll < 999999
    requires forall vc :: vc in db.codes ==> vc.sessionToken != session
    modifies db`users, db`codes, db`nextUserId, db`nextCodeId
    ensures db.Valid()
    ensures EmailIndex(old(db.users), form.email).Some? ==>
              var existing := old(db.users)[EmailIndex(old(db.users), form.email).value];
              && r == Fail(BadRequest(if existing.verified.None? then AccountNotConfirmed else UserExists))
              && cookie == None && mail == None
              && db.users == old(db.users) && db.codes == old(db.codes)
    ensures EmailIndex(old(db.users), form.email).None? ==>
              var user := User(old(db.nextUserId), form.firstName, form.email, hash(form.password), USER, None, None, None);
              var code := GenerateVerificationCode(roll);
              && db.users == old(db.users) + [user]
              && db.codes == old(db.codes) + [VerificationCode(old(db.nextCodeId), user.id, code, session, now + CodeLifetime)]
              && mail == Some(VerificationMail(form.email, code))
              && r == (if mailDelivered then Ok(()) else Fail(ServerError(MailFailed)))
              && cookie == (if mailDelivered then Some(session) else None)
  {
    var existing := EmailIndex(db.users, form.email);
    if existing.Some? {
      var u := db.users[existing.value];
      return Fail(BadRequest(if u.verified.None? then AccountNotConfirmed else UserExists)), None, None;
    }
    var code := GenerateVerificationCode(roll);
    var user := User(db.nextUserId, form.firstName, form.email, hash(form.password), USER, None, None, None);
    Enroll(db, user, code, session, now);
    mail := Some(VerificationMail(form.email, code));
    if !mailDelivered {
      return Fail(ServerError(MailFailed)), None, mail;
    }
    r, cookie := Ok(()), Some(session);
  }

  /** Stores new user `user`, then the code record `code` for it under session `session`. */
  method Enroll(db: Db, user: User, code: string, session: string, now: int)
    requires db.Valid() && user.id == db.nextUserId
    requires forall vc :: vc in db.codes ==> vc.sessionToken != session
    modifies db`users, db`codes, db`nextUserId, db`nextCodeId
    ensures db.Valid()
    ensures db.users == old(db.users) + [user]
    ensures db.codes == old(db.codes) + [VerificationCode(old(db.nextCodeId), user.id, code, session, now + CodeLifetime)]
  {
    AddUser(db, user);
    AddCode(db, VerificationCode(db.nextCodeId, user.id, code, session, now + CodeLifetime));
  }

  /** Stores `u` under the next user identity. */
  method AddUser(db: Db, u: User)
    requires db.Valid() && u.id == db.nextUserId
    modifies db`users, db`nextUserId
    ensures db.Valid()
    ensures db.users == old(db.users) + [u] && db.nextUserId == old(db.nextUserId) + 1
    ensures UserIndex(db.users, u.id) == Some(|old(db.users)|)
  {
    ghost var before := db.users;
    db.users := db.users + [u];
    db.nextUserId := db.nextUserId + 1;
    assert db.users[|before|] == u;
    forall vc | vc in db.codes
      ensures UserIndex(db.users, vc.userId).Some?
    {
      var k := UserIndex(before, vc.userId).value;
      assert db.users[k] == before[k];
    }
  }

  /** Stores `vc` under the next code identity; its session token must be unused. */
  method AddCode(db: Db, vc: VerificationCode)
    requires db.Valid() && vc.id == db.nextCodeId && UserIndex(db.users, vc.userId).Some?
    requires forall c :: c in db.codes ==> c.sessionToken != vc.sessionToken
    modifies db`codes, db`nextCodeId
    ensures db.Valid()
    ensures db.codes == old(db.codes) + [vc] && db.nextCodeId == old(db.nextCodeId) + 1
  {
    ghost var before := db.codes;
    db.codes := db.codes + [vc];
    db.nextCodeId := db.nextCodeId + 1;
    forall i, j | 0 <= i < j < |db.codes|
      ensures db.codes[i].sessionToken != db.codes[j].sessionToken
    {
      if j == |before| {
        assert db.codes[i] in before;
      } else {
        assert db.codes[i] == before[i] && db.codes[j] == before[j];
      }
    }
  }

  // ---- VerifyCode

  /** `VerifyCode`. An empty code or a missing session cookie is answered 400
      and writes nothing; so is a code no unexpired record of that session
      holds. Otherwise the record's user is marked verified now and exactly
      that record is removed, and the answer is a token for the user. */
  method VerifyCode(db: Db, code: string, session: string, now: int, jwt: Jwt) returns (r: Result<string>)
    requires db.Valid()
    modifies db`users, db`codes
    ensures db.Valid()
    ensures code == "" ==> r == Fail(BadRequest(InvalidCode)) && db.users == old(db.users) && db.codes == old(db.codes)
    ensures code != "" && session == "" ==>
              r == Fail(BadRequest(VerificationTokenMissing)) && db.users == old(db.users) && db.codes == old(db.codes)
    ensures code != "" && session != "" && CodeIndex(old(db.codes), code, session, now).None? ==>
              r == Fail(BadRequest(InvalidCode)) && db.users == old(db.users) && db.codes == old(db.codes)
    ensures code != "" && session != "" && CodeIndex(old(db.codes), code, session, now).Some? ==>
              var k := CodeIndex(old(db.codes), code, session, now).value;
              && UserIndex(old(db.users), old(db.codes)[k].userId).Some?
              && var u := UserIndex(old(db.users), old(db.codes)[k].userId).value;
                 && db.users == old(db.users)[u := old(db.users)[u].(verified := Some(now))]
                 && db.codes == RemoveAt(old(db.codes), k)
                 && r == Ok(jwt.sign(db.users[u]))
    ensures code != "" && session != "" ==> CodeIndex(db.codes, code, session, now).None?
  {
    if code == "" {
      return Fail(BadRequest(InvalidCode));
    }
    if session == "" {
      return Fail(BadRequest(VerificationTokenMissing));
    }
    var found := CodeIndex(db.codes, code, session, now);
    if found.None? {
      return Fail(BadRequest(InvalidCode));
    }
    var k := found.value;
    assert db.codes[k] in db.codes;
    var u := UserIndex(db.users, db.codes[k].userId).value;
    MarkVerified(db, u, now);
    ConsumedCodeCannotBeReused(db.codes, k, code, now, now);
    RemoveCode(db, k);
    r := Ok(jwt.sign(db.users[u]));
  }

  /** Sets the verification time of user `u`. */
  method MarkVerified(db: Db, u: nat, now: int)
    requires db.Valid() && u < |db.users|
    modifies db`users
    ensures db.Valid()
    ensures db.users == old(db.users)[u := old(db.users)[u].(verified := Some(now))]
  {
    ghost var before := db.users;
    assert before[u] in before;
    db.users := db.users[u := db.users[u].(verified := Some(now))];
    forall vc | vc in db.codes
      ensures UserIndex(db.users, vc.userId).Some?
    {
      FirstIndexAgrees(db.users, (x: User) => x.id == vc.userId, before, (x: User) => x.id == vc.userId);
    }
  }

  /** Removes code record `k`. */
  method RemoveCode(db: Db, k: nat)
    requires db.Valid() && k < |db.codes|
    modifies db`codes
    ensures db.Valid()
    ensures db.codes == RemoveAt(old(db.codes), k)
  {
    ghost var before := db.codes;
    db.codes := RemoveAt(db.codes, k);
    assert forall j :: 0 <= j < |db.codes| ==> db.codes[j] == before[if j < k then j else j + 1];
    forall vc | vc in db.codes
      ensures vc in before
    {
    }
  }

  // ---- Login

  /** `Login`: the first user with the e-mail signs in when the password
      matches its hash and the account is verified; every other case is the
      same 401. `passwordMatches(password, hash)` is BCrypt's check, `None`
      when it throws (a stored password that is not a hash), which fails the
      request (500). Nothing is written. */
  method Login(db: Db, email: string, password: string, passwordMatches: (string, string) -> Option<bool>, jwt: Jwt)
    returns (r: Result<SignedIn>)
    requires db.Valid()
    ensures EmailIndex(db.users, email).None? ==> r == Fail(Unauthorized(BadCredentials))
    ensures EmailIndex(db.users, email).Some? ==>
              var u := db.users[EmailIndex(db.users, email).value];
              && (passwordMatches(password, u.password).None? ==> r == Fail(ServerError(PasswordUnreadable)))
              && (passwordMatches(password, u.password) == Some(false) ==> r == Fail(Unauthorized(BadCredentials)))
              && (passwordMatches(password, u.password) == Some(true) ==>
                    r == if u.verified.None? then Fail(Unauthorized(BadCredentials))
                         else Ok(SignedIn(jwt.sign(u), u)))
    ensures r.Ok? ==> r.value.user in db.users && r.value.user.email == email && r.value.user.verified.Some?
  {
    var found := EmailIndex(db.users, email);
    if found.None? {
      return Fail(Unauthorized(BadCredentials));
    }
    var u := db.users[found.value];
    var check := passwordMatches(password, u.password);
    if check.None? {
      return Fail(ServerError(PasswordUnreadable));
    }
    if !check.value || u.verified.None? {
      return Fail(Unauthorized(BadCredentials));
    }
    r := Ok(SignedIn(jwt.sign(u), u));
  }

  // ---- OAuth

  datatype OAuthForm = OAuthForm(email: string, name: string, provider: string, providerId: string)

  /** The first user signed up through `provider` under `providerId`. */
  function ProviderIndex(users: seq<User>, provider: string, providerId: string): Option<nat> {
    FirstIndex(users, (u: User) => u.provider == Some(provider) && u.providerId == Some(providerId))
  }

  /** The users after an OAuth sign-in: the user of that provider account has
      only its e-mail and first name overwritten; without one, exactly one new
      USER for that account is appended, already verified and without a
      password. Either way that account now has a user. */
  function Upsert(users: seq<User>, form: OAuthForm, newId: int, now: int): (r: seq<User>)
    ensures ProviderIndex(users, form.provider, form.providerId).Some? ==>
              var k := ProviderIndex(users, form.provider, form.providerId).value;
              && |r| == |users|
              && r[k] == users[k].(email := form.email, firstName := form.name)
              && forall j :: 0 <= j < |r| && j != k ==> r[j] == users[j]
    ensures ProviderIndex(users, form.provider, form.providerId).None? ==>
              r == users + [User(newId, form.name, form.email, "", USER, Some(now), Some(form.provider), Some(form.providerId))]
    ensures ProviderIndex(r, form.provider, form.providerId).Some?
  {
    match ProviderIndex(users, form.provider, form.providerId)
    case Some(k) => users[k := users[k].(email := form.email, firstName := form.name)]
    case None =>
      var r := users + [User(newId, form.name, form.email, "", USER, Some(now), Some(form.provider), Some(form.providerId))];
      assert r[|users|].provider == Some(form.provider) && r[|users|].providerId == Some(form.providerId);
      r
  }

  /** A second sign-in with the same provider account creates no second user:
      it finds the user the first one left, at the same place. */
  lemma UpsertTwiceAddsNoUser(users: seq<User>, form: OAuthForm, form2: OAuthForm, id1: int, id2: int, now1: int, now2: int)
    requires form2.provider == form.provider && form2.providerId == form.providerId
    ensures |Upsert(Upsert(users, form, id1, now1), form2, id2, now2)| == |Upsert(users, form, id1, now1)|
    ensures ProviderIndex(Upsert(users, form, id1, now1), form.provider, form.providerId)
         == Some(if ProviderIndex(users, form.provider, form.providerId).Some?
                 then ProviderIndex(users, form.provider, form.providerId).value else |users|)
  {
    var once := Upsert(users, form, id1, now1);
    var p := (u: User) => u.provider == Some(form.provider) && u.providerId == Some(form.providerId);
    match ProviderIndex(users, form.provider, form.providerId)
    case Some(k) =>
      FirstIndexAgrees(once, p, users, p);
    case None =>
      assert forall j :: 0 <= j < |users| ==> once[j] == users[j];
  }

  /** Overwrites the e-mail and first name of user `k`, the user of the
      form's provider account, which stays where it was found. */
  method UpdateAccount(db: Db, k: nat, form: OAuthForm)
    requires db.Valid() && ProviderIndex(db.users, form.provider, form.providerId) == Some(k)
    modifies db`users
    ensures db.Valid()
    ensures db.users == old(db.users)[k := old(db.users)[k].(email := form.email, firstName := form.name)]
    ensures ProviderIndex(db.users, form.provider, form.providerId) == Some(k)
  {
    ghost var before := db.users;
    assert before[k] in before;
    db.users := db.users[k := db.users[k].(email := form.email, firstName := form.name)];
    forall vc | vc in db.codes
      ensures UserIndex(db.users, vc.userId).Some?
    {
      FirstIndexAgrees(db.users, (x: User) => x.id == vc.userId, before, (x: User) => x.id == vc.userId);
    }
    var p := (u: User) => u.provider == Some(form.provider) && u.providerId == Some(form.providerId);
    FirstIndexAgrees(db.users, p, before, p);
  }

  /** `OAuth`: upserts the provider account's user and signs it in. */
  method OAuth(db: Db, form: OAuthForm, now: int, jwt: Jwt) returns (r: SignedIn)
    requires db.Valid()
    modifies db`users, db`nextUserId
    ensures db.Valid()
    ensures db.users == Upsert(old(db.users), form, old(db.nextUserId), now)
    ensures db.nextUserId == old(db.nextUserId) + |db.users| - |old(db.users)|
    ensures var k := ProviderIndex(db.users, form.provider, form.providerId).value;
            r == SignedIn(jwt.sign(db.users[k]), db.users[k])
  {
    var found := ProviderIndex(db.users, form.provider, form.providerId);
    if found.Some? {
      var k := found.value;
      UpdateAccount(db, k, form);
      r := SignedIn(jwt.sign(db.users[k]), db.users[k]);
    } else {
      var u := User(db.nextUserId, form.name, form.email, "", USER, Some(now), Some(form.provider), Some(form.providerId));
      ghost var before := db.users;
      AddUser(db, u);
      assert db.users[|before|] == u;
      r := SignedIn(jwt.sign(u), u);
    }
  }

  // ---- The session checks

  /** The first user with the id that is verified. */
  function VerifiedUserIndex(users: seq<User>, id: int): Option<nat> {
    FirstIndex(users, (u: User) => u.id == id && u.verified.Some?)
  }

  /** Who a non-empty token names: 401 for a token that does not validate,
      500 when its id claim is not a number, 401 when no verified user has
      that id, and otherwise that user. */
  function TokenUser(users: seq<User>, jwt: Jwt, token: string): (r: Result<User>)
    ensures jwt.idClaim(token).None? ==> r == Fail(Unauthorized(InvalidToken))
    ensures jwt.idClaim(token).Some? && ParseInt32(jwt.idClaim(token).value).None? ==>
              r == Fail(ServerError(InvalidToken))
    ensures r.Ok? <==>
              && jwt.idClaim(token).Some? && ParseInt32(jwt.idClaim(token).value).Some?
              && exists u :: u in users && u.id == ParseInt32(jwt.idClaim(token).value).value && u.verified.Some?
    ensures r.Ok? ==> r.value in users && r.value.verified.Some? && r.value.id == ParseInt32(jwt.idClaim(token).value).value
  {
    match jwt.idClaim(token)
    case None => Fail(Unauthorized(InvalidToken))
    case Some(claim) =>
      match ParseInt32(claim)
      case None => Fail(ServerError(InvalidToken))
      case Some(id) =>
        match VerifiedUserIndex(users, id)
        case None =>
          assert forall u :: u in users ==> !(u.id == id && u.verified.Some?) by {
            forall u | u in users ensures !(u.id == id && u.verified.Some?) {
              var j :| 0 <= j < |users| && users[j] == u;
            }
          }
          Fail(Unauthorized(UserNotVerified))
        case Some(k) =>
          assert users[k] in users;
          Ok(users[k])
  }

  /** A token signed for a verified user names that user back, provided the
      token validates to the id claim `sign` wrote into it. */
  lemma SignedTokenNamesUser(users: seq<User>, jwt: Jwt, u: User)
    requires u in users && u.verified.Some? && Int32Min <= u.id <= Int32Max
    requires jwt.idClaim(jwt.sign(u)) == Some(IntToString(u.id))
    ensures TokenUser(users, jwt, jwt.sign(u)).Ok?
    ensures TokenUser(users, jwt, jwt.sign(u)).value.id == u.id
  {
    ParseOfFormat(u.id);
  }

  /** `GetCurrentUser`: the session cookie's user, 401 without a cookie. Nothing is written. */
  method GetCurrentUser(db: Db, cookie: string, jwt: Jwt) returns (r: Result<User>)
    requires db.Valid()
    ensures cookie == "" ==> r == Fail(Unauthorized(NotSignedIn))
    ensures cookie != "" ==> r == TokenUser(db.users, jwt, cookie)
  {
    if cookie == "" {
      return Fail(Unauthorized(NotSignedIn));
    }
    r := TokenUser(db.users, jwt, cookie);
  }

  /** `VerifyToken`: the posted token's user, 400 for an empty token. Nothing is written. */
  method VerifyToken(db: Db, authToken: string, jwt: Jwt) returns (r: Result<User>)
    requires db.Valid()
    ensures authToken == "" ==> r == Fail(BadRequest(TokenMissing))
    ensures authToken != "" ==> r == TokenUser(db.users, jwt, authToken)
  {
    if authToken == "" {
      return Fail(BadRequest(TokenMissing));
    }
    r := TokenUser(db.users, jwt, authToken);
  }
}
