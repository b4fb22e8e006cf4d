/** routes/users.js: registration, login, the caller's own profile, and the
    owner-guarded read, update and delete of `/api/users/:id`, over a users
    table held as a map from the serial id to the row.

    bcrypt is an oracle: `bcrypt.hash(password, 10)` and
    `bcrypt.compare(password, hash)` are function parameters. The handlers
    for `/:id` run behind Auth.OwnerChain, which lets a request through only
    when `parseInt` of the parameter is the caller's own id (Auth.GuardOwner).
    Their queries are then given the raw parameter text, which the database
    reads with its own integer rules (an IntCast parameter); RequestedRow is
    the row id that reading yields. ProfileById, UserTable.Update and
    UserTable.Delete are the handler bodies for a given row id. */
module Users {
  import opened JsRuntime
  import opened Http
  import opened Tables
  import Auth

  /** A row of the users table; `password` holds the bcrypt hash. */
  datatype User = User(name: string, email: string, password: string, phone: Option<string>, createdAt: int)

  /** The columns the handlers send back: everything but the hash. */
  datatype Profile = Profile(id: int, name: string, email: string, phone: Option<string>, createdAt: int)

  /** The body of a successful registration or login. */
  datatype Session = Session(token: string, user: Profile)

  /** Request bodies, reduced to the string members the handlers read; None
      stands for an absent or null member. */
  datatype RegisterBody = RegisterBody(name: Option<string>, email: Option<string>, password: Option<string>, phone: Option<string>)
  datatype LoginBody = LoginBody(email: Option<string>, password: Option<string>)

  /** bcrypt.hash(password, saltRounds). */
  type Hasher = (string, int) -> string
  /** bcrypt.compare(password, hash). */
  type Comparer = (string, string) -> bool

  const SALT_ROUNDS := 10
  const MIN_PASSWORD_LENGTH := 6

  function ProfileOf(id: int, u: User): (p: Profile)
    ensures p.id == id && p.name == u.name && p.email == u.email && p.phone == u.phone && p.createdAt == u.createdAt
  {
    Profile(id, u.name, u.email, u.phone, u.createdAt)
  }

  // ---------------------------------------------------------------------------
  // The e-mail pattern /^[^\s@]+@[^\s@]+\.[^\s@]+$/

  /** Every character is in the class [^\s@]. */
  predicate NoSpaceOrAt(s: string) {
    forall k :: 0 <= k < |s| ==> !IsJsSpace(s[k]) && s[k] != '@'
  }

  /** The pattern matches: some '@' and some later '.' cut the string into
      three non-empty runs of [^\s@]. */
  predicate MatchesEmail(s: string) {
    exists i, j :: 0 < i && i + 1 < j < |s| - 1 && s[i] == '@' && s[j] == '.'
      && NoSpaceOrAt(s[..i]) && NoSpaceOrAt(s[i + 1..j]) && NoSpaceOrAt(s[j + 1..])
  }

  /** A scan of the string instead of a choice of cut points: the first '@' is
      not at the start, it is the only '@', there is no white space, and a '.'
      lies strictly inside the part after the '@'. */
  predicate ScansAsEmail(s: string) {
    var i := IndexOf(s, '@');
    && 0 < i < |s|
    && NoSpaceOrAt(s[..i])
    && NoSpaceOrAt(s[i + 1..])
    && exists j :: i + 1 < j < |s| - 1 && s[j] == '.'
  }

  /** The pattern and the scan accept the same strings. */
  lemma MatchesEmailIffScans(s: string)
    ensures MatchesEmail(s) <==> ScansAsEmail(s)
  {
    if MatchesEmail(s) {
      MatchImpliesScan(s);
    }
    if ScansAsEmail(s) {
      ScanImpliesMatch(s);
    }
  }

  lemma MatchImpliesScan(s: string)
    requires MatchesEmail(s)
    ensures ScansAsEmail(s)
  {
    var i, j :| 0 < i && i + 1 < j < |s| - 1 && s[i] == '@' && s[j] == '.'
      && NoSpaceOrAt(s[..i]) && NoSpaceOrAt(s[i + 1..j]) && NoSpaceOrAt(s[j + 1..]);
    var user, mid, tld, after := s[..i], s[i + 1..j], s[j + 1..], s[i + 1..];
    assert forall k :: 0 <= k < i ==> user[k] == s[k];
    IndexOfFirst(s, '@', i);
    forall k | 0 <= k < |after|
      ensures !IsJsSpace(after[k]) && after[k] != '@'
    {
      assert after[k] == s[i + 1 + k];
      if i + 1 + k < j {
        assert mid[k] == s[i + 1 + k];
      } else if i + 1 + k > j {
        assert tld[k - (j - i)] == s[i + 1 + k];
      }
    }
    assert s[j] == '.';
  }

  lemma ScanImpliesMatch(s: string)
    requires ScansAsEmail(s)
    ensures MatchesEmail(s)
  {
    var i := IndexOf(s, '@');
    var after := s[i + 1..];
    var j :| i + 1 < j < |s| - 1 && s[j] == '.';
    var mid, tld := s[i + 1..j], s[j + 1..];
    forall k | 0 <= k < |mid|
      ensures !IsJsSpace(mid[k]) && mid[k] != '@'
    {
      assert mid[k] == after[k];
    }
    forall k | 0 <= k < |tld|
      ensures !IsJsSpace(tld[k]) && tld[k] != '@'
    {
      assert tld[k] == after[k + (j - i)];
    }
    assert s[i] == '@';
  }

  /** Any three non-empty runs of [^\s@] joined as `a@b.c` match. */
  lemma EmailOfParts(a: string, b: string, c: string)
    requires a != [] && b != [] && c != []
    requires NoSpaceOrAt(a) && NoSpaceOrAt(b) && NoSpaceOrAt(c)
    ensures MatchesEmail(a + ['@'] + b + ['.'] + c)
  {
    var s := a + ['@'] + b + ['.'] + c;
    var i, j := |a|, |a| + 1 + |b|;
    assert s[..i] == a;
    assert s[i + 1..j] == b;
    assert s[j + 1..] == c;
    assert s[i] == '@' && s[j] == '.';
  }

  // ---------------------------------------------------------------------------
  // Lookups

  /** Some user already has exactly this e-mail. */
  predicate EmailInUse(rows: map<int, User>, email: string) {
    exists id :: id in rows && rows[id].email == email
  }

  function FirstWithEmail(ids: seq<int>, rows: map<int, User>, email: string): (r: Option<int>)
    requires forall i :: 0 <= i < |ids| ==> ids[i] in rows
    ensures r.Some? ==> r.value in rows && r.value in ids && rows[r.value].email == email
    ensures r.None? ==> forall i :: 0 <= i < |ids| ==> rows[ids[i]].email != email
  {
    if ids == [] then None
    else if rows[ids[0]].email == email then Some(ids[0])
    else FirstWithEmail(ids[1..], rows, email)
  }

  /** `SELECT * FROM users WHERE email = $1`, first row. */
  function FindByEmail(rows: map<int, User>, email: string): (r: Option<int>)
    ensures r.Some? ==> r.value in rows && rows[r.value].email == email
    ensures r.None? <==> !EmailInUse(rows, email)
  {
    var ids := SortedKeys(rows.Keys);
    assert forall id :: id in rows ==> exists i :: 0 <= i < |ids| && ids[i] == id;
    FirstWithEmail(ids, rows, email)
  }

  /** Adding a user whose e-mail is lower-case and not in use keeps the e-mails
      normalized. */
  lemma InsertKeepsEmailsNormalized(rows: map<int, User>, id: int, user: User)
    requires EmailsNormalized(rows) && id !in rows
    requires ToLowerCase(user.email) == user.email && !EmailInUse(rows, user.email)
    ensures EmailsNormalized(rows[id := user])
  {
  }

  /** Stored e-mails are lower-case and no two users share one. */
  ghost predicate EmailsNormalized(rows: map<int, User>) {
    && (forall id :: id in rows ==> ToLowerCase(rows[id].email) == rows[id].email)
    && (forall a, b :: a in rows && b in rows && rows[a].email == rows[b].email ==> a == b)
  }

  /** With unique e-mails the lookup finds the one user who has that e-mail. */
  lemma FindByEmailUnique(rows: map<int, User>, id: int)
    requires EmailsNormalized(rows) && id in rows
    ensures FindByEmail(rows, rows[id].email) == Some(id)
  {
  }

  // ---------------------------------------------------------------------------
  // POST /register

  /** The registration checks, in the source's order: required fields, the
      e-mail pattern, the password length in UTF-16 units, and the lower-cased
      e-mail being free; None when all pass. */
  function RegistrationError(rows: map<int, User>, body: RegisterBody): (r: Option<ErrorTag>)
    ensures !(Present(body.name) && Present(body.email) && Present(body.password)) <==> r == Some(RegistrationFieldsRequired)
    ensures r == Some(InvalidEmail) <==>
      Present(body.name) && Present(body.email) && Present(body.password) && !MatchesEmail(body.email.value)
    ensures r == Some(PasswordTooShort) <==>
      Present(body.name) && Present(body.email) && Present(body.password) && MatchesEmail(body.email.value)
      && Utf16Length(body.password.value) < MIN_PASSWORD_LENGTH
    ensures r == Some(EmailTaken) <==>
      Present(body.name) && Present(body.email) && Present(body.password) && MatchesEmail(body.email.value)
      && Utf16Length(body.password.value) >= MIN_PASSWORD_LENGTH && EmailInUse(rows, ToLowerCase(body.email.value))
    ensures r.None? <==>
      Present(body.name) && Present(body.email) && Present(body.password) && MatchesEmail(body.email.value)
      && Utf16Length(body.password.value) >= MIN_PASSWORD_LENGTH && !EmailInUse(rows, ToLowerCase(body.email.value))
  {
    if !Present(body.name) || !Present(body.email) || !Present(body.password) then Some(RegistrationFieldsRequired)
    else if !MatchesEmail(body.email.value) then Some(InvalidEmail)
    else if Utf16Length(body.password.value) < MIN_PASSWORD_LENGTH then Some(PasswordTooShort)
    else if FindByEmail(rows, ToLowerCase(body.email.value)).Some? then Some(EmailTaken)
    else None
  }

  /** Which checks can reject depends on nothing later in the cascade: the
      field, pattern and length checks never look at the table. */
  lemma RegistrationShapeChecksIgnoreTable(rows1: map<int, User>, rows2: map<int, User>, body: RegisterBody)
    requires RegistrationError(rows1, body) in {Some(RegistrationFieldsRequired), Some(InvalidEmail), Some(PasswordTooShort)}
    ensures RegistrationError(rows2, body) == RegistrationError(rows1, body)
  {
  }

  /** The row registration inserts: the e-mail lower-cased, the password
      hashed with 10 salt rounds, an empty phone stored as null. */
  function NewUser(body: RegisterBody, hash: Hasher, now: int): (u: User)
    requires Present(body.name) && Present(body.email) && Present(body.password)
    ensures u.name == body.name.value && u.email == ToLowerCase(body.email.value)
    ensures u.password == hash(body.password.value, SALT_ROUNDS)
    ensures u.phone == OrNull(body.phone) && u.createdAt == now
  {
    User(body.name.value, ToLowerCase(body.email.value), hash(body.password.value, SALT_ROUNDS), OrNull(body.phone), now)
  }

  // ---------------------------------------------------------------------------
  // POST /login

  /** Login: missing fields are 400; an unknown e-mail and a wrong password
      are the same 401; otherwise a token for the stored user. */
  function Login(rows: map<int, User>, body: LoginBody, compare: Comparer, env: Auth.Env, sign: Auth.Signer): (r: Result<Session>)
    ensures !(Present(body.email) && Present(body.password)) <==> r == Err(CredentialsRequired)
    ensures r.Err? ==> r == Err(CredentialsRequired) || r == Err(WrongCredentials)
    ensures r.Ok? ==>
      && r.code == OK
      && r.value.user.id in rows
      && rows[r.value.user.id].email == ToLowerCase(body.email.value)
      && compare(body.password.value, rows[r.value.user.id].password)
      && r.value.user == ProfileOf(r.value.user.id, rows[r.value.user.id])
      && r.value.token == Auth.GenerateToken(r.value.user.id, rows[r.value.user.id].email, rows[r.value.user.id].name, env, sign)
    ensures Present(body.email) && Present(body.password) && !EmailInUse(rows, ToLowerCase(body.email.value)) ==>
      r == Err(WrongCredentials)
  {
    if !Present(body.email) || !Present(body.password) then Err(CredentialsRequired)
    else
      match FindByEmail(rows, ToLowerCase(body.email.value))
      case None => Err(WrongCredentials)
      case Some(id) =>
        var user := rows[id];
        if !compare(body.password.value, user.password) then Err(WrongCredentials)
        else Ok(OK, Session(Auth.GenerateToken(id, user.email, user.name, env, sign), ProfileOf(id, user)))
  }

  /** With the fields given, "no such e-mail" and "wrong password" give the
      identical answer. */
  lemma LoginDoesNotRevealUnknownEmail(rows: map<int, User>, email: string, password: string, compare: Comparer,
                                       env: Auth.Env, sign: Auth.Signer)
    requires email != "" && password != ""
    requires EmailsNormalized(rows)
    ensures var r := Login(rows, LoginBody(Some(email), Some(password)), compare, env, sign);
            r.Err? <==>
              (!EmailInUse(rows, ToLowerCase(email))
               || exists id :: id in rows && rows[id].email == ToLowerCase(email) && !compare(password, rows[id].password))
    ensures Login(rows, LoginBody(Some(email), Some(password)), compare, env, sign).Err? ==>
            Login(rows, LoginBody(Some(email), Some(password)), compare, env, sign) == Err(WrongCredentials)
  {
    var r := Login(rows, LoginBody(Some(email), Some(password)), compare, env, sign);
    if EmailInUse(rows, ToLowerCase(email)) {
      var id := FindByEmail(rows, ToLowerCase(email)).value;
      forall other | other in rows && rows[other].email == ToLowerCase(email)
        ensures other == id
      {
      }
    }
  }

  /** A user stored by registration can log in with the same password and the
      e-mail in any letter case, provided bcrypt accepts a password against its
      own hash; the login is for that user. */
  lemma RegisteredUserCanLogIn(rows: map<int, User>, id: int, body: RegisterBody, hash: Hasher, now: int,
                               loginEmail: string, compare: Comparer, env: Auth.Env, sign: Auth.Signer)
    requires Present(body.name) && Present(body.email) && Present(body.password)
    requires EmailsNormalized(rows) && id in rows && rows[id] == NewUser(body, hash, now)
    requires loginEmail != "" && ToLowerCase(loginEmail) == ToLowerCase(body.email.value)
    requires compare(body.password.value, hash(body.password.value, SALT_ROUNDS))
    ensures var r := Login(rows, LoginBody(Some(loginEmail), body.password), compare, env, sign);
            r.Ok? && r.value.user == ProfileOf(id, rows[id])
  {
    FindByEmailUnique(rows, id);
  }

  // ---------------------------------------------------------------------------
  // GET /me and GET /:id

  /** `SELECT id, name, email, phone, created_at FROM users WHERE id = $1`:
      404 when there is no such row. */
  function ProfileById(rows: map<int, User>, id: int): (r: Result<Profile>)
    ensures r.Err? <==> id !in rows
    ensures r.Err? ==> r.tag == UserNotFound
    ensures r.Ok? ==> r.code == OK && r.value == ProfileOf(id, rows[id])
  {
    if id in rows then Ok(OK, ProfileOf(id, rows[id])) else Err(UserNotFound)
  }

  /** GET /me: the profile of the user named by the token. */
  function Me(rows: map<int, User>, user: Auth.Claims): (r: Result<Profile>)
    ensures r.Ok? <==> user.id in rows
    ensures r.Ok? ==> r.code == OK && r.value == ProfileOf(user.id, rows[user.id])
    ensures r.Err? ==> r.tag == UserNotFound
  {
    ProfileById(rows, user.id)
  }

  /** The profile a login returns is the one GET /me then shows for any token
      carrying that user's id. */
  lemma MeAgreesWithLogin(rows: map<int, User>, body: LoginBody, compare: Comparer, env: Auth.Env, sign: Auth.Signer,
                          claims: Auth.Claims)
    requires Login(rows, body, compare, env, sign).Ok?
    requires claims.id == Login(rows, body, compare, env, sign).value.user.id
    ensures Me(rows, claims) == Ok(OK, Login(rows, body, compare, env, sign).value.user)
  {
  }

  // ---------------------------------------------------------------------------
  // The row the `/:id` handlers address

  /** The parameters of `/api/users/:id`. */
  function IdParams(idText: string): (p: Auth.RouteParams)
    ensures Auth.ResourceParam(p) == if idText == "" then None else Some(idText)
  {
    Auth.RouteParams(Some(idText), None)
  }

  /** As written: after authenticateToken and checkOwnership, the queries of
      GET, PUT and DELETE `/:id` are given the raw text, so the row they
      address is the database's reading of it, not the number the guard
      compared; a text the database rejects fails the query (500). When the
      database reads the text as parseInt does, that row is the caller's. */
  function RequestedRow(header: Option<string>, idText: string, secret: string, verify: Auth.Verifier,
                        cast: IntCast): (r: Result<int>)
    ensures var g := Auth.GuardOwner(header, IdParams(idText), secret, verify);
            && (g.Reject? ==> r == Err(g.tag))
            && (g.Proceed? && cast(idText).None? ==> r == Err(ServerError))
            && (g.Proceed? && cast(idText).Some? ==> r == Ok(OK, cast(idText).value))
            && (r.Ok? ==> g.Proceed? && ParseInt(idText) == Some(g.user.id) && cast(idText) == Some(r.value))
            && (r.Ok? && (cast(idText).Some? ==> ParseInt(idText) == cast(idText)) ==> r.value == g.user.id)
  {
    match Auth.GuardOwner(header, IdParams(idText), secret, verify)
    case Reject(tag) => Err(tag)
    case Proceed(_) => if cast(idText).None? then Err(ServerError) else Ok(OK, cast(idText).value)
  }

  /** Corrected: the queries address the number checkOwnership compared
      (`resourceUserId`), which is always the caller's own id. */
  function CheckedRow(header: Option<string>, idText: string, secret: string, verify: Auth.Verifier): (r: Result<int>)
    ensures var g := Auth.GuardOwner(header, IdParams(idText), secret, verify);
            && (g.Reject? ==> r == Err(g.tag))
            && (g.Proceed? ==> r == Ok(OK, g.user.id))
    ensures r.Ok? ==> ParseInt(idText) == Some(r.value)
  {
    match Auth.GuardOwner(header, IdParams(idText), secret, verify)
    case Reject(tag) => Err(tag)
    case Proceed(_) => Ok(OK, ParseInt(idText).value)
  }

  /** A database that reads `1_5` as 15 (underscores as digit separators) lets
      user 1 past the guard on `/api/users/1_5`, since parseInt reads 1, and
      the queries then address user 15; the corrected handler addresses user 1. */
  lemma UnderscoreIdReachesAnotherRow(secret: string, verify: Auth.Verifier, cast: IntCast, caller: Auth.Claims)
    requires caller.id == 1 && verify("tok", secret) == Auth.Decoded(caller)
    requires cast("1_5") == Some(15)
    ensures RequestedRow(Some("Bearer tok"), "1_5", secret, verify, cast) == Ok(OK, 15)
    ensures CheckedRow(Some("Bearer tok"), "1_5", secret, verify) == Ok(OK, 1)
  {
    Auth.TokenIsSecondWord("Bearer", "tok", []);
    assert "Bearer tok" == "Bearer" + [' '] + "tok" + [];
    ParseIntStopsAtUnderscore();
  }

  /** GET /:id as chained: guard, then the profile of the row the query
      addresses. */
  function ShowUser(rows: map<int, User>, header: Option<string>, idText: string, secret: string,
                    verify: Auth.Verifier, cast: IntCast): (r: Result<Profile>)
    ensures var target := RequestedRow(header, idText, secret, verify, cast);
            && (target.Err? ==> r == Err(target.tag))
            && (target.Ok? ==> r == ProfileById(rows, target.value))
    ensures r.Ok? && (cast(idText).Some? ==> ParseInt(idText) == cast(idText)) ==>
            Auth.Authenticate(header, secret, verify).Proceed?
            && r.value.id == Auth.Authenticate(header, secret, verify).user.id
  {
    match RequestedRow(header, idText, secret, verify, cast)
    case Err(tag) => Err(tag)
    case Ok(_, id) => ProfileById(rows, id)
  }

  // ---------------------------------------------------------------------------
  // PUT /:id

  /** `SET name = COALESCE($1, name), phone = COALESCE($2, phone)`: a null or
      absent value keeps the column; e-mail, hash and creation time never change. */
  function Coalesced(u: User, name: Option<string>, phone: Option<string>): (v: User)
    ensures v.email == u.email && v.password == u.password && v.createdAt == u.createdAt
    ensures v.name == (if name.Some? then name.value else u.name)
    ensures v.phone == (if phone.Some? then phone else u.phone)
  {
    u.(name := name.GetOr(u.name), phone := if phone.Some? then phone else u.phone)
  }

  // ---------------------------------------------------------------------------
  // The table

  class UserTable {
    var rows: map<int, User>
    var nextId: int

    /** Ids come from a serial sequence; stored e-mails are lower-case and unique. */
    ghost predicate Valid()
      reads this
    {
      && 1 <= nextId
      && (forall id :: id in rows ==> 1 <= id < nextId)
      && EmailsNormalized(rows)
    }

    constructor ()
      ensures Valid() && rows == map[] && nextId == 1
    {
      rows := map[];
      nextId := 1;
    }

    /** POST /register: on any failed check nothing changes; otherwise exactly
        one row is added under a fresh id and a token for it is returned (201). */
    method Register(body: RegisterBody, hash: Hasher, env: Auth.Env, sign: Auth.Signer, now: int) returns (r: Result<Session>)
      requires Valid()
      modifies this
      ensures Valid()
      ensures RegistrationError(old(rows), body).Some? ==>
        r == Err(RegistrationError(old(rows), body).value) && rows == old(rows) && nextId == old(nextId)
      ensures RegistrationError(old(rows), body).None? ==>
        var id := old(nextId);
        var user := NewUser(body, hash, now);
        && id !in old(rows)
        && rows == old(rows)[id := user]
        && nextId == id + 1
        && r == Ok(CREATED, Session(Auth.GenerateToken(id, user.email, user.name, env, sign), ProfileOf(id, user)))
    {
      var error := RegistrationError(rows, body);
      if error.Some? {
        return Err(error.value);
      }
      var user := NewUser(body, hash, now);
      var id := nextId;
      ToLowerCaseIdempotent(body.email.value);
      InsertKeepsEmailsNormalized(rows, id, user);
      rows := rows[id := user];
      nextId := nextId + 1;
      r := Ok(CREATED, Session(Auth.GenerateToken(id, user.email, user.name, env, sign), ProfileOf(id, user)));
    }

    /** PUT /:id with the id the ownership check accepted: 404 for a missing
        row, otherwise only name and phone are coalesced. */
    method Update(id: int, name: Option<string>, phone: Option<string>) returns (r: Result<Profile>)
      requires Valid()
      modifies this
      ensures Valid() && nextId == old(nextId)
      ensures id !in old(rows) ==> r == Err(UserNotFound) && rows == old(rows)
      ensures id in old(rows) ==>
        && rows == old(rows)[id := Coalesced(old(rows)[id], name, phone)]
        && r == Ok(OK, ProfileOf(id, rows[id]))
    {
      if id !in rows {
        return Err(UserNotFound);
      }
      var updated := Coalesced(rows[id], name, phone);
      rows := rows[id := updated];
      r := Ok(OK, ProfileOf(id, updated));
    }

    /** DELETE /:id with the id the ownership check accepted: 404 when there is
        no such row, otherwise exactly that row is removed. */
    method Delete(id: int) returns (r: Result<()>)
      requires Valid()
      modifies this
      ensures Valid() && nextId == old(nextId)
      ensures id !in old(rows) ==> r == Err(UserNotFound) && rows == old(rows)
      ensures id in old(rows) ==> r == Ok(OK, ()) && rows == old(rows) - {id}
    {
      if id !in rows {
        return Err(UserNotFound);
      }
      rows := rows - {id};
      r := Ok(OK, ());
    }

    /** PUT /:id as chained: guard, then Update of the row the query addresses.
        When the database reads the text as parseInt does, the caller's row is
        the only one that can change. */
    method UpdateRoute(header: Option<string>, idText: string, name: Option<string>, phone: Option<string>,
                       secret: string, verify: Auth.Verifier, cast: IntCast) returns (r: Result<Profile>)
      requires Valid()
      modifies this
      ensures Valid() && nextId == old(nextId)
      ensures var target := RequestedRow(header, idText, secret, verify, cast);
              && (target.Err? ==> r == Err(target.tag) && rows == old(rows))
              && (target.Ok? && target.value !in old(rows) ==> r == Err(UserNotFound) && rows == old(rows))
              && (target.Ok? && target.value in old(rows) ==>
                    rows == old(rows)[target.value := Coalesced(old(rows)[target.value], name, phone)]
                    && r == Ok(OK, ProfileOf(target.value, rows[target.value])))
      ensures (cast(idText).Some? ==> ParseInt(idText) == cast(idText)) ==>
              forall k :: k in old(rows) && (k !in rows || rows[k] != old(rows)[k]) ==>
                Auth.Authenticate(header, secret, verify).Proceed? && k == Auth.Authenticate(header, secret, verify).user.id
    {
      var target := RequestedRow(header, idText, secret, verify, cast);
      if target.Err? {
        return Err(target.tag);
      }
      r := Update(target.value, name, phone);
    }

    /** DELETE /:id as chained: guard, then Delete of the row the query
        addresses. When the database reads the text as parseInt does, the
        caller's row is the only one that can disappear. */
    method DeleteRoute(header: Option<string>, idText: string, secret: string, verify: Auth.Verifier,
                       cast: IntCast) returns (r: Result<()>)
      requires Valid()
      modifies this
      ensures Valid() && nextId == old(nextId)
      ensures var target := RequestedRow(header, idText, secret, verify, cast);
              && (target.Err? ==> r == Err(target.tag) && rows == old(rows))
              && (target.Ok? && target.value !in old(rows) ==> r == Err(UserNotFound) && rows == old(rows))
              && (target.Ok? && target.value in old(rows) ==> r == Ok(OK, ()) && rows == old(rows) - {target.value})
      ensures (cast(idText).Some? ==> ParseInt(idText) == cast(idText)) ==>
              forall k :: k in old(rows) && k !in rows ==>
                Auth.Authenticate(header, secret, verify).Proceed? && k == Auth.Authenticate(header, secret, verify).user.id
    {
      var target := RequestedRow(header, idText, secret, verify, cast);
      if target.Err? {
        return Err(target.tag);
      }
      r := Delete(target.value);
    }
  }
}
