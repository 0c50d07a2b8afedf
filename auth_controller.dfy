// `AuthController`: registration, login and the `me` profile, over the user store. The
// password hash and its check are parameters, as is the e-mail syntax check of the
// `[EmailAddress]` annotation.
module Authentication {
  import opened Wrappers
  import opened Text
  import opened Models
  import opened Errors
  import opened Access
  import opened Store
  import opened Tokens

  const UserRole: string := "user"
  const EmailTakenMessage: string := "Email d\U{00E9}j\U{00E0} utilis\U{00E9}."

  /** The request bodies; a property missing from the JSON is `None`. */
  datatype LoginRequest = LoginRequest(email: Option<string>, password: Option<string>)
  datatype RegisterRequest = RegisterRequest(email: Option<string>, pseudo: Option<string>, password: Option<string>)

  datatype RegisterResponse = RegisterResponse(id: string, email: string, pseudo: string, isSuperUser: bool)
  datatype MeResponse = MeResponse(id: string, email: string, pseudo: string, isSuperUser: bool, role: string)

  /** The action results the controller returns. */
  datatype Reply<T> = Ok(value: T) | ValidationProblem | Conflict(message: string) | Unauthorized

  /** `[Required]` on a string: present and not blank. */
  predicate RequiredText(s: Option<string>) {
    !IsNullOrWhiteSpace(s)
  }

  /** `[MinLength(n)]` on a string: a null passes, otherwise at least `n` UTF-16 code
      units (.NET's `string.Length`). */
  predicate MinLength(s: Option<string>, n: nat) {
    s.None? || Utf16Length(s.value) >= n
  }

  /** `[EmailAddress]`: a null passes, otherwise the syntax check decides. */
  predicate EmailAddress(s: Option<string>, isEmail: string -> bool) {
    s.None? || isEmail(s.value)
  }

  /** The annotations of `LoginRequest`. */
  predicate LoginRequestValid(body: LoginRequest, isEmail: string -> bool) {
    && RequiredText(body.email) && EmailAddress(body.email, isEmail)
    && RequiredText(body.password) && MinLength(body.password, 3)
  }

  /** The annotations of `RegisterRequest`. */
  predicate RegisterRequestValid(body: RegisterRequest, isEmail: string -> bool) {
    && RequiredText(body.email) && EmailAddress(body.email, isEmail)
    && RequiredText(body.pseudo) && MinLength(body.pseudo, 2)
    && RequiredText(body.password) && MinLength(body.password, 3)
  }

  /** A valid login carries an e-mail and a password of at least three UTF-16 code units,
      so two characters outside the Basic Multilingual Plane are password enough. */
  lemma LoginRequestRules(body: LoginRequest, isEmail: string -> bool)
    ensures LoginRequestValid(body, isEmail) ==>
              body.email.Some? && isEmail(body.email.value)
              && body.password.Some? && Utf16Length(body.password.value) >= 3
    ensures RequiredText(body.email) && isEmail(body.email.value) && body.password == Some("\U{1F355}\U{1F355}") ==>
              LoginRequestValid(body, isEmail)
    ensures body.password == Some("abc") || body.password == Some("ab") ==>
              (LoginRequestValid(body, isEmail) <==> body.password == Some("abc") && RequiredText(body.email) && isEmail(body.email.value))
  {
    EncodedLengthExamples();
    assert "\U{1F355}\U{1F355}"[1..] == "\U{1F355}";
    assert "abc"[1..] == "bc" && "bc"[1..] == "c";
    assert "ab"[1..] == "b";
  }

  /** `GetByEmailAsync`: the first stored user whose e-mail is exactly `email`. */
  function FirstWithEmail(all: seq<Utilisateur>, email: string): (r: Option<Utilisateur>)
    ensures r.None? <==> forall i :: 0 <= i < |all| ==> all[i].email != Some(email)
    ensures r.Some? ==> exists i :: 0 <= i < |all| && all[i] == r.value && r.value.email == Some(email)
                                    && forall j :: 0 <= j < i ==> all[j].email != Some(email)
  {
    if all == [] then None
    else if all[0].email == Some(email) then Some(all[0])
    else
      var r := FirstWithEmail(all[1..], email);
      assert r.Some? ==> exists i :: 1 <= i < |all| && all[i] == r.value && r.value.email == Some(email)
                                     && forall j :: 0 <= j < i ==> all[j].email != Some(email) by {
        if r.Some? {
          var i :| 0 <= i < |all[1..]| && all[1..][i] == r.value && r.value.email == Some(email)
                   && forall j :: 0 <= j < i ==> all[1..][j].email != Some(email);
          assert forall j :: 0 <= j < i + 1 ==> all[j].email != Some(email) by {
            forall j | 0 <= j < i + 1 ensures all[j].email != Some(email) {
              if j > 0 { assert all[j] == all[1..][j - 1]; }
            }
          }
        }
      }
      r
  }

  /** The user `Register` stores: trimmed e-mail and pseudo, never a superuser, the hash
      of the password. */
  function NewUser(body: RegisterRequest, newId: string, hash: string): (u: Utilisateur)
    requires body.email.Some? && body.pseudo.Some?
    ensures u.id == Some(newId) && !u.isSuperUser && u.passwordHash == Some(hash)
    ensures u.email == Some(Trim(body.email.value)) && u.pseudo == Some(Trim(body.pseudo.value))
  {
    Utilisateur(Some(newId), Some(Trim(body.email.value)), Some(Trim(body.pseudo.value)), false, Some(hash))
  }

  /** The role a user is given, in the login token and in the profile. */
  function RoleOf(u: Utilisateur): (role: string)
    ensures role == SuperUserRole <==> u.isSuperUser
    ensures role == UserRole <==> !u.isSuperUser
  {
    if u.isSuperUser then SuperUserRole else UserRole
  }

  /** The extra claims of a login token. */
  function LoginClaims(u: Utilisateur): seq<Claim> {
    [Claim(RoleClaim, RoleOf(u))]
  }

  /** `Login`'s check: a user was found, has a stored hash, and the password verifies. */
  predicate CanLogIn(found: Option<Utilisateur>, password: string, verify: (string, string) -> bool) {
    found.Some? && !IsNullOrEmpty(found.value.passwordHash) && verify(password, found.value.passwordHash.value)
  }

  /** `Login` once the request is valid: 401 unless the check passes, otherwise the token
      for the user with its role claim; a token the generator refuses is an exception. */
  function LoginReply(found: Option<Utilisateur>, password: string, verify: (string, string) -> bool,
                      settings: JwtSettings, now: Instant): (r: Result<Reply<JwtToken>, Exception>)
    requires 0 <= now <= MaxTicks
    ensures r == Success(Unauthorized) <==> !CanLogIn(found, password, verify)
    ensures r.Success? && r.value.Ok? ==>
              CanLogIn(found, password, verify) && Generate(found.value, settings, Some(LoginClaims(found.value)), now) == Success(r.value.value)
  {
    if !CanLogIn(found, password, verify) then Success(Unauthorized)
    else
      match Generate(found.value, settings, Some(LoginClaims(found.value)), now)
      case Success(t) => Success(Ok(t))
      case Failure(e) => Failure(e)
  }

  /** The e-mail `Me` reads: the `email` claim, else the e-mail-address claim. */
  function EmailOf(principal: Principal): Option<string> {
    match FindFirst(principal, EmailClaim)
    case Some(v) => Some(v)
    case None => FindFirst(principal, EmailAddressClaim)
  }

  /** `Me`'s lookup: by a non-empty user id first, then by a non-empty e-mail. */
  function MeLookup(docs: map<string, Utilisateur>, all: seq<Utilisateur>, principal: Principal): (r: Option<Utilisateur>)
    ensures var uid := CurrentUserId(principal);
      !IsNullOrEmpty(uid) && uid.value in docs ==> r == Some(docs[uid.value])
    ensures var uid := CurrentUserId(principal);
      (IsNullOrEmpty(uid) || uid.value !in docs) ==>
        r == if IsNullOrEmpty(EmailOf(principal)) then None else FirstWithEmail(all, EmailOf(principal).value)
  {
    var uid := CurrentUserId(principal);
    var byId := if !IsNullOrEmpty(uid) && uid.value in docs then Some(docs[uid.value]) else None;
    if byId.Some? then byId
    else
      var email := EmailOf(principal);
      if IsNullOrEmpty(email) then None else FirstWithEmail(all, email.value)
  }

  /** The profile `Me` answers with. */
  function MeProfile(u: Utilisateur): (p: MeResponse)
    ensures p.role == SuperUserRole <==> p.isSuperUser
    ensures p.isSuperUser == u.isSuperUser && p.id == u.id.GetOr("")
  {
    MeResponse(u.id.GetOr(""), u.email.GetOr(""), u.pseudo.GetOr(""), u.isSuperUser, RoleOf(u))
  }

  /** Every stored user carries its own non-empty key as id. */
  ghost predicate StoredUsersWellFormed(docs: map<string, Utilisateur>) {
    forall k :: k in docs ==> k != "" && docs[k].id == Some(k)
  }

  class AuthController {
    const settings: JwtSettings
    const users: Repository<Utilisateur>
    const isEmail: string -> bool
    const verify: (string, string) -> bool

    ghost predicate Valid()
      reads this, users
    {
      users.Valid() && StoredUsersWellFormed(users.docs)
    }

    constructor (settings: JwtSettings, users: Repository<Utilisateur>, isEmail: string -> bool, verify: (string, string) -> bool)
      ensures this.settings == settings && this.users == users && this.isEmail == isEmail && this.verify == verify
    {
      this.settings := settings;
      this.users := users;
      this.isEmail := isEmail;
      this.verify := verify;
    }

    /** `GetByEmailAsync`. */
    method GetByEmail(email: string) returns (r: Option<Utilisateur>)
      requires Valid()
      ensures r == FirstWithEmail(users.All(), email)
    {
      var all := users.GetAll();
      r := FirstWithEmail(all, email);
    }

    /** `Register`: an invalid body is a validation problem and a taken (trimmed) e-mail a
        conflict, neither storing anything; otherwise the new user is stored under the id
        the store assigns (`hash` is the hash of the password). */
    method Register(body: RegisterRequest, newId: string, hash: string) returns (r: Result<Reply<RegisterResponse>, Exception>)
      requires Valid() && newId != ""
      modifies users
      ensures Valid()
      ensures !RegisterRequestValid(body, isEmail) ==>
                r == Success(ValidationProblem) && users.docs == old(users.docs) && users.order == old(users.order)
      ensures RegisterRequestValid(body, isEmail) && FirstWithEmail(old(users.All()), Trim(body.email.value)).Some? ==>
                r == Success(Conflict(EmailTakenMessage)) && users.docs == old(users.docs) && users.order == old(users.order)
      ensures RegisterRequestValid(body, isEmail) && FirstWithEmail(old(users.All()), Trim(body.email.value)).None? ==>
                if newId in old(users.docs) then
                  r == Failure(DuplicateId) && users.docs == old(users.docs) && users.order == old(users.order)
                else
                  && r == Success(Ok(RegisterResponse(newId, Trim(body.email.value), Trim(body.pseudo.value), false)))
                  && users.docs == old(users.docs)[newId := NewUser(body, newId, hash)]
                  && users.order == old(users.order) + [newId]
    {
      if !RegisterRequestValid(body, isEmail) {
        return Success(ValidationProblem);
      }
      var email := Trim(body.email.value);
      var pseudo := Trim(body.pseudo.value);
      var existing := GetByEmail(email);
      if existing.Some? {
        return Success(Conflict(EmailTakenMessage));
      }
      var user := Utilisateur(Some(newId), Some(email), Some(pseudo), false, Some(hash));
      var created := users.Create(newId, user);
      if created.Fail? {
        return Failure(created.error);
      }
      r := Success(Ok(RegisterResponse(newId, email, pseudo, false)));
    }

    /** `Login`: an invalid body is a validation problem; otherwise the user with the
        trimmed e-mail is checked and given a token. */
    method Login(body: LoginRequest, now: Instant) returns (r: Result<Reply<JwtToken>, Exception>)
      requires Valid() && 0 <= now <= MaxTicks
      ensures !LoginRequestValid(body, isEmail) ==> r == Success(ValidationProblem)
      ensures LoginRequestValid(body, isEmail) ==>
                r == LoginReply(FirstWithEmail(users.All(), Trim(body.email.value)), body.password.value, verify, settings, now)
    {
      if !LoginRequestValid(body, isEmail) {
        return Success(ValidationProblem);
      }
      var user := GetByEmail(Trim(body.email.value));
      var valid := user.Some? && !IsNullOrEmpty(user.value.passwordHash) && verify(body.password.value, user.value.passwordHash.value);
      if !valid {
        return Success(Unauthorized);
      }
      var token := Generate(user.value, settings, Some([Claim(RoleClaim, if user.value.isSuperUser then SuperUserRole else UserRole)]), now);
      if token.Failure? {
        return Failure(token.error);
      }
      r := Success(Ok(token.value));
    }

    /** `Me`: the caller's profile, found by id and then by e-mail, or 401. */
    method Me(principal: Principal) returns (r: Reply<MeResponse>)
      requires Valid()
      ensures MeLookup(users.docs, users.All(), principal).None? ==> r == Unauthorized
      ensures MeLookup(users.docs, users.All(), principal).Some? ==> r == Ok(MeProfile(MeLookup(users.docs, users.All(), principal).value))
    {
      var userId := CurrentUserId(principal);
      var email := EmailOf(principal);
      var dbUser: Option<Utilisateur> := None;
      if !IsNullOrEmpty(userId) {
        dbUser := users.GetById(userId.value);
      }
      if dbUser.None? && !IsNullOrEmpty(email) {
        dbUser := GetByEmail(email.value);
      }
      if dbUser.None? {
        return Unauthorized;
      }
      var u := dbUser.value;
      r := Ok(MeResponse(u.id.GetOr(""), u.email.GetOr(""), u.pseudo.GetOr(""), u.isSuperUser,
                         if u.isSuperUser then SuperUserRole else UserRole));
    }
  }

  /** Adding a user behind users none of whom has the e-mail makes the lookup find that
      user exactly when the e-mail is its own. */
  lemma {:induction false} FirstWithEmailAppend(all: seq<Utilisateur>, u: Utilisateur, email: string)
    requires FirstWithEmail(all, email).None?
    ensures FirstWithEmail(all + [u], email) == if u.email == Some(email) then Some(u) else None
  {
    if all != [] {
      assert (all + [u])[1..] == all[1..] + [u];
      assert all[0].email != Some(email);
      FirstWithEmailAppend(all[1..], u, email);
    } else {
      assert [u][1..] == [];
    }
  }

  /** A login token names its user: read back (whatever claims the bearer handler adds
      after the token's own), it gives the stored user's id, makes `Me` find that very
      user, and passes the superuser check exactly for a superuser. */
  lemma LoginThenMe(docs: map<string, Utilisateur>, all: seq<Utilisateur>, k: string,
                    settings: JwtSettings, now: Instant, rest: Principal)
    requires StoredUsersWellFormed(docs) && k in docs && 0 <= now <= MaxTicks
    requires Generate(docs[k], settings, Some(LoginClaims(docs[k])), now).Success?
    ensures var p := Generate(docs[k], settings, Some(LoginClaims(docs[k])), now).value.claims + rest;
      && CurrentUserId(p) == Some(k)
      && MeLookup(docs, all, p) == Some(docs[k])
      && (IsSuperUser(p) <==> docs[k].isSuperUser)
  {
    var u := docs[k];
    var claims := Generate(u, settings, Some(LoginClaims(u)), now).value.claims;
    ClaimLookup(u, Some(LoginClaims(u)));
    FindFirstAppend(claims, rest, SubClaim);
    FindFirstAppend(claims, rest, RoleClaim);
    var p := claims + rest;
    assert FindFirst(p, RoleClaim) == Some(RoleOf(u));
    if !u.isSuperUser {
      EqualsIgnoreCaseFacts(UserRole, SuperUserRole, SuperUserRole);
    }
  }

  /** A successful registration can log in at once with its password: the stored user is
      found under the e-mail as typed, has a hash, and is not a superuser. */
  lemma RegisterThenLogin(all: seq<Utilisateur>, body: RegisterRequest, newId: string, hash: string,
                          verify: (string, string) -> bool, isEmail: string -> bool)
    requires RegisterRequestValid(body, isEmail)
    requires FirstWithEmail(all, Trim(body.email.value)).None?
    requires hash != "" && verify(body.password.value, hash)
    ensures var u := NewUser(body, newId, hash);
      && LoginRequestValid(LoginRequest(body.email, body.password), isEmail)
      && FirstWithEmail(all + [u], Trim(body.email.value)) == Some(u)
      && CanLogIn(Some(u), body.password.value, verify)
      && RoleOf(u) == UserRole
  {
    FirstWithEmailAppend(all, NewUser(body, newId, hash), Trim(body.email.value));
  }

  /** `Me` answers 401 when neither the id nor the e-mail finds a user, and a caller with
      neither claim is always refused. */
  lemma MeRefusesAnonymous(docs: map<string, Utilisateur>, all: seq<Utilisateur>, principal: Principal)
    requires CurrentUserId(principal).None? && EmailOf(principal).None?
    ensures MeLookup(docs, all, principal).None?
  {
  }
}
