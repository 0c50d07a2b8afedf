// `JwtTokenGenerator`: the argument checks, the claim sequence and the validity window of
// an issued token. Signing and the compact encoding are not part of this model.
module Tokens {
  import opened Wrappers
  import opened Text
  import opened Models
  import opened Errors
  import opened Access

  const PseudoClaim: string := "pseudo"
  const IsSuperUserClaim: string := "isSuperUser"

  /** `DateTime` arithmetic, in 100-nanosecond ticks. */
  const TicksPerSecond: int := 10_000_000
  const TicksPerMinute: int := 600_000_000
  /** `DateTime.MaxValue.Ticks`. */
  const MaxTicks: int := 3_155_378_975_999_999_999
  /** The ticks of 1970-01-01T00:00:00Z. */
  const UnixEpochTicks: int := 621_355_968_000_000_000

  /** `JwtSettings`; a key missing from the configuration is `None`. */
  datatype JwtSettings = JwtSettings(issuer: string, audience: string, key: Option<string>, expirationMinutes: int)

  /** The settings' defaults. */
  const DefaultSettings: JwtSettings :=
    JwtSettings("ListeDeCourses.Api", "ListeDeCourses.Client", Some("CHANGE_ME_SUPER_SECRET_MIN_32_CHARS"), 120)

  /** The `JwtSecurityToken` before signing: issuer, audience, claims and validity window. */
  datatype JwtToken = JwtToken(issuer: string, audience: string, claims: seq<Claim>, notBefore: Instant, expires: Instant)

  /** `b.ToString().ToLowerInvariant()`. */
  function BoolText(b: bool): (t: string)
    ensures t == "true" || t == "false"
    ensures t == "true" <==> b
  {
    if b then "true" else "false"
  }

  predicate HasPseudo(user: Utilisateur) {
    !IsNullOrWhiteSpace(user.pseudo)
  }

  /** `BuildClaims`: sub, email, the pseudo when it is not blank, the superuser flag, then
      the extra claims in their order. */
  function BuildClaims(user: Utilisateur, extra: Option<seq<Claim>>): (r: seq<Claim>)
    ensures |r| == (if HasPseudo(user) then 4 else 3) + |extra.GetOr([])|
    ensures r[0] == Claim(SubClaim, user.id.GetOr(""))
    ensures r[1] == Claim(EmailClaim, user.email.GetOr(""))
    ensures HasPseudo(user) ==> r[2] == Claim(PseudoClaim, user.pseudo.value)
    ensures r[|r| - |extra.GetOr([])| - 1] == Claim(IsSuperUserClaim, BoolText(user.isSuperUser))
    ensures r[|r| - |extra.GetOr([])|..] == extra.GetOr([])
  {
    OwnClaims(user) + extra.GetOr([])
  }

  /** HMAC-SHA256 signing refuses a key of fewer than 256 bits, i.e. 32 UTF-8 bytes. */
  const MinKeyBytes: nat := 32

  /** `WriteToken`'s refusal of a short signing key (an `ArgumentOutOfRangeException`). */
  const KeyTooShort: Exception :=
    ArgumentError(Some("key"), "HS256 requires a key size of at least 256 bits.")

  /** `Generate`: a blank key, then a non-positive lifetime, are argument errors; an
      expiry beyond the last representable instant is the `AddMinutes` range error; a
      key of fewer than 32 UTF-8 bytes is refused when `WriteToken` signs; otherwise the
      token is valid from `now` for the configured minutes. */
  function Generate(user: Utilisateur, settings: JwtSettings, extra: Option<seq<Claim>>, now: Instant): (r: Result<JwtToken, Exception>)
    requires 0 <= now <= MaxTicks
    ensures r.Success? <==>
              !IsNullOrWhiteSpace(settings.key) && settings.expirationMinutes > 0
              && now + settings.expirationMinutes * TicksPerMinute <= MaxTicks
              && Utf8Length(settings.key.value) >= MinKeyBytes
    ensures r.Success? ==>
              && r.value.issuer == settings.issuer && r.value.audience == settings.audience
              && r.value.claims == BuildClaims(user, extra)
              && r.value.notBefore == now && r.value.expires == now + settings.expirationMinutes * TicksPerMinute
  {
    if IsNullOrWhiteSpace(settings.key) then
      Failure(ArgumentError(Some("settings"), "JWT Key is missing in settings."))
    else if settings.expirationMinutes <= 0 then
      Failure(ArgumentError(Some("settings"), "JWT expiration must be greater than zero."))
    else if now + settings.expirationMinutes * TicksPerMinute > MaxTicks then
      Failure(ArgumentError(None, "The added or subtracted value results in an un-representable DateTime."))
    else if Utf8Length(settings.key.value) < MinKeyBytes then
      Failure(KeyTooShort)
    else
      Success(JwtToken(settings.issuer, settings.audience, BuildClaims(user, extra),
                       now, now + settings.expirationMinutes * TicksPerMinute))
  }

  /** The `nbf`/`exp` payload value of an instant: whole seconds since the Unix epoch, 0
      for an instant not after it. */
  function EpochSeconds(t: Instant): (s: int)
    ensures s >= 0
    ensures t > UnixEpochTicks ==> s * TicksPerSecond <= t - UnixEpochTicks < (s + 1) * TicksPerSecond
  {
    if t <= UnixEpochTicks then 0 else (t - UnixEpochTicks) / TicksPerSecond
  }

  /** The key check comes first, then the lifetime check; both name the settings. */
  lemma GenerateGuards(user: Utilisateur, settings: JwtSettings, extra: Option<seq<Claim>>, now: Instant)
    requires 0 <= now <= MaxTicks
    ensures IsNullOrWhiteSpace(settings.key) ==>
              Generate(user, settings, extra, now) == Failure(ArgumentError(Some("settings"), "JWT Key is missing in settings."))
    ensures !IsNullOrWhiteSpace(settings.key) && settings.expirationMinutes <= 0 ==>
              Generate(user, settings, extra, now) == Failure(ArgumentError(Some("settings"), "JWT expiration must be greater than zero."))
  {
  }

  /** The defaults issue two-hour tokens at any instant up to 9999-12-31T21:59:59. */
  lemma DefaultSettingsGenerate(user: Utilisateur, extra: Option<seq<Claim>>, now: Instant)
    requires 0 <= now <= MaxTicks - 120 * TicksPerMinute
    ensures Generate(user, DefaultSettings, extra, now).Success?
    ensures Generate(user, DefaultSettings, extra, now).value.expires - now == 2 * 60 * 60 * TicksPerSecond
  {
    DefaultKeySigns(DefaultSettings.key.value);
  }

  /** A key of 35 characters that does not start with white space passes the blank check
      and is long enough to sign with. */
  lemma DefaultKeySigns(key: string)
    requires key == "CHANGE_ME_SUPER_SECRET_MIN_32_CHARS"
    ensures !IsNullOrWhiteSpace(Some(key)) && Utf8Length(key) >= MinKeyBytes
  {
    assert key[0] == 'C' && !IsWhiteSpace(key[0]);
    assert |key| == 35;
  }

  /** The key check of `JwtSettings`, `[MinLength(32)]` in UTF-16 units, already keeps
      short keys out: such a key has at least 32 UTF-8 bytes, so once the lifetime is
      positive and representable `Generate` succeeds. A three-letter key passes the blank
      check but is refused when signing. */
  lemma ValidatedKeySigns(user: Utilisateur, settings: JwtSettings, extra: Option<seq<Claim>>, now: Instant)
    requires 0 <= now <= MaxTicks
    ensures settings.key.Some? && Utf16Length(settings.key.value) >= 32 && !IsNullOrWhiteSpace(settings.key)
            && settings.expirationMinutes > 0 && now + settings.expirationMinutes * TicksPerMinute <= MaxTicks ==>
              Generate(user, settings, extra, now).Success?
    ensures settings.key == Some("abc") && settings.expirationMinutes > 0
            && now + settings.expirationMinutes * TicksPerMinute <= MaxTicks ==>
              Generate(user, settings, extra, now) == Failure(KeyTooShort)
  {
    if settings.key.Some? {
      Utf8AtLeastUtf16(settings.key.value);
    }
    if settings.key == Some("abc") {
      assert "abc"[0] == 'a' && !IsWhiteSpace("abc"[0]);
    }
  }

  /** On the wire the validity window is exactly the configured minutes, in seconds. */
  lemma TokenLifetime(user: Utilisateur, settings: JwtSettings, extra: Option<seq<Claim>>, now: Instant)
    requires UnixEpochTicks < now <= MaxTicks
    requires Generate(user, settings, extra, now).Success?
    ensures var t := Generate(user, settings, extra, now).value;
      EpochSeconds(t.expires) == EpochSeconds(t.notBefore) + 60 * settings.expirationMinutes
  {
    var m := settings.expirationMinutes;
    var d := now - UnixEpochTicks;
    assert m * TicksPerMinute == (60 * m) * TicksPerSecond;
    assert (d + (60 * m) * TicksPerSecond) / TicksPerSecond == d / TicksPerSecond + 60 * m;
  }

  /** The pseudo claim is among the user's own claims exactly when the pseudo is not
      blank. */
  lemma PseudoClaimIffNotBlank(user: Utilisateur, extra: Option<seq<Claim>>)
    ensures var r := BuildClaims(user, extra);
      (exists i :: 0 <= i < |r| - |extra.GetOr([])| && r[i].claimType == PseudoClaim) <==> HasPseudo(user)
  {
    var r := BuildClaims(user, extra);
    var n := |r| - |extra.GetOr([])|;
    if HasPseudo(user) {
      assert r[2].claimType == PseudoClaim;
    } else {
      forall i | 0 <= i < n ensures r[i].claimType != PseudoClaim {
        assert i == 0 || i == 1 || i == 2;
        assert r[i].claimType == SubClaim || r[i].claimType == EmailClaim || r[i].claimType == IsSuperUserClaim;
      }
    }
  }

  /** The user's own claims, before the extra ones. */
  function OwnClaims(user: Utilisateur): seq<Claim> {
    [Claim(SubClaim, user.id.GetOr("")), Claim(EmailClaim, user.email.GetOr(""))]
    + (if HasPseudo(user) then [Claim(PseudoClaim, user.pseudo.value)] else [])
    + [Claim(IsSuperUserClaim, BoolText(user.isSuperUser))]
  }

  /** The claim types in use have pairwise different lengths, so no two of them are equal
      even ignoring case. */
  lemma ClaimTypesDiffer(a: string, b: string)
    requires a in {SubClaim, EmailClaim, PseudoClaim, IsSuperUserClaim, RoleClaim}
    requires b in {SubClaim, EmailClaim, PseudoClaim, IsSuperUserClaim, RoleClaim}
    requires a != b
    ensures !EqualsIgnoreCase(a, b)
  {
    EqualsIgnoreCaseFacts(a, b, b);
  }

  /** Read back by type, the user's own claims give the id, the e-mail and the superuser
      flag, and no role. */
  lemma OwnClaimLookup(user: Utilisateur)
    ensures var r := OwnClaims(user);
      && FindFirst(r, SubClaim) == Some(user.id.GetOr(""))
      && FindFirst(r, EmailClaim) == Some(user.email.GetOr(""))
      && FindFirst(r, IsSuperUserClaim) == Some(BoolText(user.isSuperUser))
      && FindFirst(r, RoleClaim).None?
  {
    var sub := Claim(SubClaim, user.id.GetOr(""));
    var em := Claim(EmailClaim, user.email.GetOr(""));
    var sup := Claim(IsSuperUserClaim, BoolText(user.isSuperUser));
    var ps: seq<Claim> := if HasPseudo(user) then [Claim(PseudoClaim, user.pseudo.value)] else [];
    var tail := ps + [sup];
    assert OwnClaims(user) == [sub] + ([em] + tail);
    ClaimTypesDiffer(SubClaim, RoleClaim);
    ClaimTypesDiffer(EmailClaim, RoleClaim);
    ClaimTypesDiffer(PseudoClaim, RoleClaim);
    ClaimTypesDiffer(IsSuperUserClaim, RoleClaim);
    ClaimTypesDiffer(SubClaim, EmailClaim);
    ClaimTypesDiffer(SubClaim, IsSuperUserClaim);
    ClaimTypesDiffer(EmailClaim, IsSuperUserClaim);
    ClaimTypesDiffer(PseudoClaim, IsSuperUserClaim);
    FindFirstCons(sub, [em] + tail, SubClaim);
    FindFirstCons(sub, [em] + tail, EmailClaim);
    FindFirstCons(em, tail, EmailClaim);
    FindFirstCons(sub, [em] + tail, IsSuperUserClaim);
    FindFirstCons(em, tail, IsSuperUserClaim);
    FindFirstAppend(ps, [sup], IsSuperUserClaim);
    FindFirstCons(sup, [], IsSuperUserClaim);
    assert forall c :: c in ps ==> c.claimType == PseudoClaim;
    assert FindFirst(ps, IsSuperUserClaim).None?;
    FindFirstCons(sub, [em] + tail, RoleClaim);
    FindFirstCons(em, tail, RoleClaim);
    FindFirstAppend(ps, [sup], RoleClaim);
    FindFirstCons(sup, [], RoleClaim);
    assert FindFirst(ps, RoleClaim).None?;
  }

  /** Read back by type, the claims give the user's id, e-mail and superuser flag, and
      whatever the extra claims say about the role. */
  lemma ClaimLookup(user: Utilisateur, extra: Option<seq<Claim>>)
    ensures var r := BuildClaims(user, extra);
      && FindFirst(r, SubClaim) == Some(user.id.GetOr(""))
      && FindFirst(r, EmailClaim) == Some(user.email.GetOr(""))
      && FindFirst(r, IsSuperUserClaim) == Some(BoolText(user.isSuperUser))
      && FindFirst(r, RoleClaim) == FindFirst(extra.GetOr([]), RoleClaim)
      && CurrentUserId(r) == Some(user.id.GetOr(""))
  {
    var own := OwnClaims(user);
    assert BuildClaims(user, extra) == own + extra.GetOr([]);
    OwnClaimLookup(user);
    FindFirstAppend(own, extra.GetOr([]), SubClaim);
    FindFirstAppend(own, extra.GetOr([]), EmailClaim);
    FindFirstAppend(own, extra.GetOr([]), IsSuperUserClaim);
    FindFirstAppend(own, extra.GetOr([]), RoleClaim);
  }
}
