/** The authorization-code grant with PKCE and the token store kept in
    `localStorage`: building the authorization request (section 4.1.1 of
    RFC 6749, section 4 of RFC 7636), exchanging the returned code (section
    4.1.3 of RFC 6749), refreshing (section 6 of RFC 6749) and reading back
    a stored token that has not yet expired.

    The network is a parameter: each token request is returned as the form it
    would post, and the endpoint's answer is passed in as a `TokenResponse`.
    The current time (`Date.now()`) is passed in as `now`. */
module SpotifyAuth {
  import opened Util
  import opened Decimal
  import opened Base64
  import opened WebEncoding
  import opened BrowserStorage

  const ClientId: string := "dedaf532a216473f9b9c436d5f2235b0"
  const RedirectUri: string := "http://localhost:5173/callback"
  const Scopes: string := "user-read-private user-read-email streaming user-read-playback-state user-modify-playback-state"
  const AuthorizeEndpoint: string := "https://accounts.spotify.com/authorize"

  const VerifierKey: string := "spotify_code_verifier"
  const AccessTokenKey: string := "spotify_access_token"
  const RefreshTokenKey: string := "spotify_refresh_token"
  const ExpiresAtKey: string := "spotify_token_expires_at"

  /** The alphabet `generateRandomString` draws from, written in three
      parts. */
  const Possible: string := Uppercase + Lowercase + DecimalDigits
  const Uppercase: string := "ABCDEFGHIJKLMNOPQRSTUVWXYZ"
  const Lowercase: string := "abcdefghijklmnopqrstuvwxyz"
  const DecimalDigits: string := "0123456789"
  const VerifierLength: nat := 128

  /** One outcome of `Math.floor(Math.random() * possible.length)`. */
  type AlphabetIndex = i: int | 0 <= i < 62

  type Form = seq<(string, string)>

  /** What the token endpoint does with a request: an ok response and the
      fields of its JSON body, a non-2xx response, or an exception from
      `fetch` or from reading the body. */
  datatype TokenResponse =
    | Granted(accessToken: string, refreshToken: string, expiresIn: int)
    | Rejected(status: int)
    | Failed

  predicate IsAlphanumeric(c: char)
  {
    ('A' <= c <= 'Z') || ('a' <= c <= 'z') || ('0' <= c <= '9')
  }

  /** The unreserved characters of section 4.1 of RFC 7636. */
  predicate IsUnreserved(c: char)
  {
    IsAlphanumeric(c) || c == '-' || c == '.' || c == '_' || c == '~'
  }

  /** A well-formed `code_verifier` (section 4.1 of RFC 7636). */
  predicate IsCodeVerifier(s: string)
  {
    43 <= |s| <= 128 && forall i :: 0 <= i < |s| ==> IsUnreserved(s[i])
  }

  lemma PossibleIsAlphanumeric(k: AlphabetIndex)
    ensures |Possible| == 62 && IsAlphanumeric(Possible[k])
  {
    if k < 26 {
      assert Possible[k] == Uppercase[k];
    } else if k < 52 {
      assert Possible[k] == Lowercase[k - 26];
    } else {
      assert Possible[k] == DecimalDigits[k - 52];
    }
  }

  /** `generateRandomString(length)`: the i-th character is the one at the
      i-th random index. */
  method GenerateRandomString(length: nat, draws: seq<AlphabetIndex>) returns (text: string)
    requires |draws| >= length
    ensures |text| == length
    ensures forall i :: 0 <= i < length ==> text[i] == Possible[draws[i]]
    ensures forall i :: 0 <= i < length ==> IsAlphanumeric(text[i])
  {
    text := "";
    var i := 0;
    while i < length
      invariant 0 <= i <= length && |text| == i
      invariant forall j :: 0 <= j < i ==> text[j] == Possible[draws[j]]
      invariant forall j :: 0 <= j < i ==> IsAlphanumeric(text[j])
    {
      PossibleIsAlphanumeric(draws[i]);
      text := text + [Possible[draws[i]]];
      i := i + 1;
    }
  }

  /** `generateCodeChallenge(verifier)`: `btoa` of the SHA-256 digest of the
      UTF-8 bytes, then the replace chain. SHA-256 is left uninterpreted. */
  function GenerateCodeChallenge(verifier: string, sha256: seq<byte> -> Digest): (challenge: string)
    ensures challenge == Base64UrlNoPad(sha256(Utf8Encode(verifier)))
    ensures |challenge| == 43 && AllUrlChars(challenge)
    ensures '+' !in challenge && '/' !in challenge && '=' !in challenge
  {
    var digest := sha256(Utf8Encode(verifier));
    ChallengeOfDigest(digest);
    UrlSafeRewrite(Btoa(digest))
  }

  /** The query of the authorization request, in the order it is built. */
  function AuthorizeParams(challenge: string): Form
  {
    [("client_id", ClientId), ("response_type", "code"), ("redirect_uri", RedirectUri),
     ("scope", Scopes), ("code_challenge_method", "S256"), ("code_challenge", challenge)]
  }

  /** `redirectToAuthCodeFlow()`: draws a 128-character verifier, stores it,
      and returns the URL the browser is sent to, together with the verifier
      and the query parameters it was built from. */
  method RedirectToAuthCodeFlow(storage: LocalStorage, draws: seq<AlphabetIndex>, sha256: seq<byte> -> Digest)
    returns (verifier: string, params: Form, authUrl: string)
    requires |draws| >= VerifierLength
    modifies storage
    ensures storage.items == old(storage.items)[VerifierKey := verifier]
    ensures |verifier| == VerifierLength && IsCodeVerifier(verifier)
    ensures forall i :: 0 <= i < VerifierLength ==> verifier[i] == Possible[draws[i]]
    ensures params == AuthorizeParams(GenerateCodeChallenge(verifier, sha256))
    ensures authUrl == AuthorizeEndpoint + "?" + SerializeForm(params)
    ensures FormEncode(params[5].1) == params[5].1
  {
    verifier := GenerateRandomString(VerifierLength, draws);
    var challenge := GenerateCodeChallenge(verifier, sha256);
    storage.SetItem(VerifierKey, verifier);
    params := [];
    params := params + [("client_id", ClientId)];
    params := params + [("response_type", "code")];
    params := params + [("redirect_uri", RedirectUri)];
    params := params + [("scope", Scopes)];
    params := params + [("code_challenge_method", "S256")];
    params := params + [("code_challenge", challenge)];
    assert params == AuthorizeParams(challenge);
    FormEncodeUrlSafe(challenge);
    authUrl := AuthorizeEndpoint + "?" + SerializeForm(params);
    assert forall i :: 0 <= i < |verifier| ==> IsAlphanumeric(verifier[i]);
  }

  /** The form posted to exchange an authorization code. */
  function ExchangeForm(code: string, verifier: string): Form
  {
    [("client_id", ClientId), ("grant_type", "authorization_code"), ("code", code),
     ("redirect_uri", RedirectUri), ("code_verifier", verifier)]
  }

  /** The form posted to refresh an access token. */
  function RefreshForm(refreshToken: string): Form
  {
    [("grant_type", "refresh_token"), ("refresh_token", refreshToken), ("client_id", ClientId)]
  }

  /** `String(now + expires_in * 1000)`: the stored expiry instant. */
  function ExpiryText(now: int, expiresIn: int): string
  {
    IntToDecimal(now + expiresIn * 1000)
  }

  /** The store after a code exchange that got `response`. */
  function AfterExchange(items: map<string, string>, response: TokenResponse, now: int): map<string, string>
  {
    match response
    case Granted(access, refresh, expiresIn) =>
      items[AccessTokenKey := access][RefreshTokenKey := refresh][ExpiresAtKey := ExpiryText(now, expiresIn)]
    case _ => items
  }

  /** The store after a refresh that got `response`: a refresh token in the
      response is not stored. */
  function AfterRefresh(items: map<string, string>, response: TokenResponse, now: int): map<string, string>
  {
    match response
    case Granted(access, _, expiresIn) =>
      items[AccessTokenKey := access][ExpiresAtKey := ExpiryText(now, expiresIn)]
    case _ => items
  }

  /** `getAccessToken(code)`. Without a stored verifier nothing is sent and
      nothing is written; otherwise the exchange form is sent and, if the
      endpoint grants a token, the three token keys are written. The verifier
      stays in the store either way. */
  method GetAccessToken(storage: LocalStorage, code: string, response: TokenResponse, now: int)
    returns (token: Option<string>, request: Option<Form>)
    modifies storage
    ensures !Truthy(Get(old(storage.items), VerifierKey)) ==>
      token == None && request == None && storage.items == old(storage.items)
    ensures Truthy(Get(old(storage.items), VerifierKey)) ==>
      && request == Some(ExchangeForm(code, old(storage.items)[VerifierKey]))
      && storage.items == AfterExchange(old(storage.items), response, now)
      && token == (if response.Granted? then Some(response.accessToken) else None)
    ensures Get(storage.items, VerifierKey) == Get(old(storage.items), VerifierKey)
  {
    var verifier := storage.GetItem(VerifierKey);
    if !Truthy(verifier) {
      return None, None;
    }
    var params: Form := [];
    params := params + [("client_id", ClientId)];
    params := params + [("grant_type", "authorization_code")];
    params := params + [("code", code)];
    params := params + [("redirect_uri", RedirectUri)];
    params := params + [("code_verifier", verifier.value)];
    assert params == ExchangeForm(code, verifier.value);
    request := Some(params);
    match response {
      case Rejected(_) =>
        token := None;
      case Failed =>
        token := None;
      case Granted(access, refresh, expiresIn) =>
        storage.SetItem(AccessTokenKey, access);
        storage.SetItem(RefreshTokenKey, refresh);
        storage.SetItem(ExpiresAtKey, ExpiryText(now, expiresIn));
        token := Some(access);
    }
  }

  /** `refreshAccessToken()`. Without a stored refresh token nothing is sent;
      otherwise the refresh form is sent and a granted token overwrites the
      access token and the expiry only. A failed refresh leaves the store as
      it was. */
  method RefreshAccessToken(storage: LocalStorage, response: TokenResponse, now: int)
    returns (token: Option<string>, request: Option<Form>)
    modifies storage
    ensures !Truthy(Get(old(storage.items), RefreshTokenKey)) ==>
      token == None && request == None && storage.items == old(storage.items)
    ensures Truthy(Get(old(storage.items), RefreshTokenKey)) ==>
      && request == Some(RefreshForm(old(storage.items)[RefreshTokenKey]))
      && storage.items == AfterRefresh(old(storage.items), response, now)
      && token == (if response.Granted? then Some(response.accessToken) else None)
    ensures Get(storage.items, RefreshTokenKey) == Get(old(storage.items), RefreshTokenKey)
  {
    var refreshToken := storage.GetItem(RefreshTokenKey);
    if !Truthy(refreshToken) {
      return None, None;
    }
    var params: Form := [];
    params := params + [("grant_type", "refresh_token")];
    params := params + [("refresh_token", refreshToken.value)];
    params := params + [("client_id", ClientId)];
    assert params == RefreshForm(refreshToken.value);
    request := Some(params);
    match response {
      case Rejected(_) =>
        token := None;
      case Failed =>
        token := None;
      case Granted(access, _, expiresIn) =>
        storage.SetItem(AccessTokenKey, access);
        storage.SetItem(ExpiresAtKey, ExpiryText(now, expiresIn));
        token := Some(access);
    }
  }

  /** `getStoredAccessToken()`: reads the store and never writes it. A token
      is returned only when both keys hold non-empty text, the expiry parses
      as a number and `now` is strictly before it. */
  function StoredAccessToken(items: map<string, string>, now: int): (r: Option<string>)
    ensures r.Some? ==> AccessTokenKey in items && r.value == items[AccessTokenKey] && r.value != ""
    ensures r.Some? ==> ExpiresAtKey in items && ParseInt(items[ExpiresAtKey]).Some?
                        && now < ParseInt(items[ExpiresAtKey]).value
    ensures !Truthy(Get(items, AccessTokenKey)) || !Truthy(Get(items, ExpiresAtKey)) ==> r == None
  {
    var accessToken := Get(items, AccessTokenKey);
    var expiresAt := Get(items, ExpiresAtKey);
    if !Truthy(accessToken) || !Truthy(expiresAt) then None
    else match ParseInt(expiresAt.value)
      case None => None
      case Some(t) => if now < t then accessToken else None
  }

  /** Expiry is strict and final: a token stored with expiry `x` is returned
      at every instant before `x` and at none from `x` on. */
  lemma StoredTokenExpiry(items: map<string, string>, access: string, x: int, now: int)
    requires AccessTokenKey in items && items[AccessTokenKey] == access && access != ""
    requires ExpiresAtKey in items && items[ExpiresAtKey] == IntToDecimal(x)
    ensures StoredAccessToken(items, now) == if now < x then Some(access) else None
  {
    ParseIntOfDecimal(x);
  }

  /** Once the stored token reads as expired, it stays expired. */
  lemma StoredTokenStaysExpired(items: map<string, string>, t: int, later: int)
    requires t <= later
    requires StoredAccessToken(items, t) == None
    ensures StoredAccessToken(items, later) == None
  {
  }

  /** After a granted exchange at `now`, the stored token is readable until
      `now + expires_in * 1000` (exclusive) exactly when it is non-empty. */
  lemma ExchangeThenStored(items: map<string, string>, access: string, refresh: string,
                           expiresIn: int, now: int, later: int)
    ensures StoredAccessToken(AfterExchange(items, Granted(access, refresh, expiresIn), now), later)
         == if access != "" && later < now + expiresIn * 1000 then Some(access) else None
  {
    var after := AfterExchange(items, Granted(access, refresh, expiresIn), now);
    assert after[AccessTokenKey] == access;
    assert after[ExpiresAtKey] == IntToDecimal(now + expiresIn * 1000);
    if access != "" {
      StoredTokenExpiry(after, access, now + expiresIn * 1000, later);
    }
  }

  /** The same after a granted refresh; the refresh token stays as it was. */
  lemma RefreshThenStored(items: map<string, string>, granted: TokenResponse, now: int, later: int)
    requires granted.Granted?
    ensures Get(AfterRefresh(items, granted, now), RefreshTokenKey) == Get(items, RefreshTokenKey)
    ensures StoredAccessToken(AfterRefresh(items, granted, now), later)
         == if granted.accessToken != "" && later < now + granted.expiresIn * 1000
            then Some(granted.accessToken) else None
  {
    var after := AfterRefresh(items, granted, now);
    assert after[AccessTokenKey] == granted.accessToken;
    assert after[ExpiresAtKey] == IntToDecimal(now + granted.expiresIn * 1000);
    if granted.accessToken != "" {
      StoredTokenExpiry(after, granted.accessToken, now + granted.expiresIn * 1000, later);
    }
  }
}
