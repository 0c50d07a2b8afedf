// The front end's reading of a token: base64url to base64, the payload's `exp`, and the
// expiry test. `atob` and `JSON.parse` are parameters.
module ClientTokens {
  import opened Wrappers
  import opened Text
  import opened Models
  import opened Access
  import opened Tokens

  /** The base64url alphabet's two letters mapped back to base64's. */
  function FromUrlChar(c: char): char {
    if c == '-' then '+' else if c == '_' then '/' else c
  }

  /** The replacements of `b64UrlDecode`. */
  function FromUrlAlphabet(s: string): (r: string)
    ensures |r| == |s|
    ensures forall i :: 0 <= i < |s| ==> r[i] == FromUrlChar(s[i])
    ensures '-' !in r && '_' !in r
  {
    seq(|s|, i requires 0 <= i < |s| => FromUrlChar(s[i]))
  }

  function Repeat(c: char, n: nat): (r: string)
    ensures |r| == n && forall i :: 0 <= i < n ==> r[i] == c
  {
    seq(n, i => c)
  }

  /** The padding of `b64UrlDecode`: '=' up to a multiple of four, only when needed. */
  function Padded(s: string): (r: string)
    ensures |s| <= |r| && |r| % 4 == 0 && |r| - |s| < 4
    ensures r[..|s|] == s && forall i :: |s| <= i < |r| ==> r[i] == '='
    ensures r == s <==> |s| % 4 == 0
  {
    var pad := |s| % 4;
    if pad != 0 then s + Repeat('=', 4 - pad) else s
  }

  /** The base64 text handed to `atob`. */
  function UrlToBase64(input: string): string {
    Padded(FromUrlAlphabet(input))
  }

  /** The base64url encoding of a padded base64 text, as a token issuer writes it: '+' and
      '/' replaced, the '=' padding dropped. */
  function ToUrlChar(c: char): char {
    if c == '+' then '-' else if c == '/' then '_' else c
  }

  function ToUrlAlphabet(s: string): (r: string)
    ensures |r| == |s| && forall i :: 0 <= i < |s| ==> r[i] == ToUrlChar(s[i])
  {
    seq(|s|, i requires 0 <= i < |s| => ToUrlChar(s[i]))
  }

  /** Decoding undoes encoding: a base64 text with at most two '=' of padding comes back
      exactly from its base64url form. */
  lemma UrlRoundTrip(body: string, padding: nat)
    requires padding <= 2 && (|body| + padding) % 4 == 0
    requires '-' !in body && '_' !in body
    ensures UrlToBase64(ToUrlAlphabet(body)) == body + Repeat('=', padding)
  {
    var back := FromUrlAlphabet(ToUrlAlphabet(body));
    assert back == body by {
      forall i | 0 <= i < |body| ensures back[i] == body[i] {
        assert body[i] != '-' && body[i] != '_' by { assert body[i] in body; }
      }
    }
  }

  /** The parsed payload; `exp` is `None` when the field is missing. */
  datatype Payload = Payload(exp: Option<int>)

  /** `parseJwt`: the second dot-separated part, decoded and parsed; any failure along the
      way (no second part, bad base64, bad JSON) is `None`. */
  function ParseJwt(token: string, atob: string -> Option<string>, parse: string -> Option<Payload>): (r: Option<Payload>)
    ensures Count(token, '.') == 0 ==> r.None?
  {
    var parts := Split(token, '.');
    if |parts| < 2 then None
    else
      match atob(UrlToBase64(parts[1]))
      case None => None
      case Some(json) => parse(json)
  }

  /** JavaScript truthiness of `payload?.exp`. */
  predicate HasExpiry(payload: Option<Payload>) {
    payload.Some? && payload.value.exp.Some? && payload.value.exp.value != 0
  }

  /** `isExpired`: no usable `exp` counts as expired; otherwise the current second, less
      the tolerated skew, has reached it. */
  function IsExpired(payload: Option<Payload>, nowMs: int, skewSeconds: int): bool {
    if !HasExpiry(payload) then true
    else nowMs / 1000 >= payload.value.exp.value - skewSeconds
  }

  /** `getExpiryMs`. */
  function GetExpiryMs(payload: Option<Payload>): (r: Option<int>)
    ensures r.Some? <==> HasExpiry(payload)
  {
    if HasExpiry(payload) then Some(payload.value.exp.value * 1000) else None
  }

  /** The two readings of a payload agree: expired exactly when there is no expiry or the
      clock, in milliseconds, has reached the expiry less the skew. */
  lemma ExpiryAgreement(payload: Option<Payload>, nowMs: int, skewSeconds: int)
    ensures IsExpired(payload, nowMs, skewSeconds) <==>
              GetExpiryMs(payload).None? || nowMs >= GetExpiryMs(payload).value - skewSeconds * 1000
  {
    if HasExpiry(payload) {
      var e := payload.value.exp.value - skewSeconds;
      assert nowMs / 1000 >= e <==> nowMs >= e * 1000;
    }
  }

  /** Once expired, a token stays expired. */
  lemma ExpiredStaysExpired(payload: Option<Payload>, nowMs: int, laterMs: int, skewSeconds: int)
    requires nowMs <= laterMs && IsExpired(payload, nowMs, skewSeconds)
    ensures IsExpired(payload, laterMs, skewSeconds)
  {
    assert nowMs / 1000 <= laterMs / 1000;
  }

  /** A token from the issuer, read on a clock that agrees with the issuer's, is valid
      from its issue for the configured minutes less the skew, and expired from then on. */
  lemma IssuedTokenWindow(user: Utilisateur, settings: JwtSettings, extra: Option<seq<Claim>>,
                          issued: Instant, nowMs: int, skewSeconds: int)
    requires UnixEpochTicks < issued <= MaxTicks
    requires Generate(user, settings, extra, issued).Success?
    ensures var t := Generate(user, settings, extra, issued).value;
      var p := Some(Payload(Some(EpochSeconds(t.expires))));
      var start := EpochSeconds(issued) * 1000;
      && (start <= nowMs < start + (60 * settings.expirationMinutes - skewSeconds) * 1000 ==> !IsExpired(p, nowMs, skewSeconds))
      && (nowMs >= start + (60 * settings.expirationMinutes - skewSeconds) * 1000 ==> IsExpired(p, nowMs, skewSeconds))
  {
    var t := Generate(user, settings, extra, issued).value;
    TokenLifetime(user, settings, extra, issued);
    var p := Some(Payload(Some(EpochSeconds(t.expires))));
    assert EpochSeconds(t.expires) > 0 by {
      assert settings.expirationMinutes > 0;
    }
    ExpiryAgreement(p, nowMs, skewSeconds);
  }
}
