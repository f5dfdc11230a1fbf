/**
 Session tokens: how session data becomes claims and comes back, with authenticated encryption taken
 as ideal, and which tokens a key manager still accepts after its key was rotated.
 */
module SessionTokens {
  import opened Wrappers
  import opened UuidText

  type Key = nat

  /** Claim values; `Instant` is RFC 3339 text, taken to print and parse exactly. */
  datatype Json = Text(text: string) | Number(number: nat) | Instant(at: nat) | Other

  datatype Claim = IssuedAt | Expiration | NotBefore | Subject | TokenId | ApplicationId | Platform
                 | DeviceTrusted | AppTier | AppSecretKeyId | Pubkey | AppFingerprint

  function Name(c: Claim): string {
    match c
    case IssuedAt => "iat"
    case Expiration => "exp"
    case NotBefore => "nbf"
    case Subject => "sub"
    case TokenId => "jti"
    case ApplicationId => "a"
    case Platform => "p"
    case DeviceTrusted => "d"
    case AppTier => "t"
    case AppSecretKeyId => "s"
    case Pubkey => "b"
    case AppFingerprint => "f"
  }

  /** The names tell the claims apart. */
  lemma NamesDiffer(a: Claim, b: Claim)
    requires Name(a) == Name(b)
    ensures a == b
  {
    assert Name(a)[0] == Name(b)[0];
    assert |Name(a)| == |Name(b)|;
    assert |Name(a)| > 1 ==> Name(a)[1] == Name(b)[1];
  }

  type Claims = map<Claim, Json>

  /** The JSON object that is encrypted. */
  type Payload = map<string, Json>

  lemma AllNamesDiffer()
    ensures forall a: Claim, b: Claim :: Name(a) == Name(b) ==> a == b
  {
    forall a: Claim, b: Claim | Name(a) == Name(b) ensures a == b {
      NamesDiffer(a, b);
    }
  }

  /** Claims under their names. */
  function Named(claims: Claims): Payload {
    AllNamesDiffer();
    map c | c in claims :: Name(c) := claims[c]
  }

  /** What asking a payload for each name gives. */
  function Claimed(payload: Payload): Claims {
    map c: Claim | Name(c) in payload :: payload[Name(c)]
  }

  /** No claim is lost or mistaken for another on the way. */
  lemma ClaimedNamed(claims: Claims)
    ensures Claimed(Named(claims)) == claims
  {
    AllNamesDiffer();
    forall c ensures (c in Claimed(Named(claims)) <==> c in claims)
                     && (c in claims ==> Claimed(Named(claims))[c] == claims[c]) {
      ClaimKept(claims, c);
    }
  }

  lemma ClaimKept(claims: Claims, c: Claim)
    ensures (Name(c) in Named(claims) <==> c in claims) && (c in claims ==> Named(claims)[Name(c)] == claims[c])
  {
    AllNamesDiffer();
  }

  /** A ciphertext opens with the key it was sealed with and no other. */
  datatype Token = Sealed(key: Key, payload: Payload) | Malformed

  /** Times are in nanoseconds, as their text is. */
  const SECOND: nat := 1_000_000_000

  type Score = n: nat | n < 256

  datatype SessionData = SessionData(clientId: Uuid, applicationId: Uuid, platform: string,
                                     platformConfigVersion: Uuid, deviceTrustScore: Score,
                                     appTier: Option<string>, applicationSecretApiKeyId: Option<Uuid>,
                                     pubkey: Option<string>)

  datatype TokenError = Unauthorized

  // ---------------------------------------------------------------- creation

  /** An optional field is a claim only when present. */
  function AddOptional(claims: Claims, name: Claim, text: Option<string>): Claims {
    match text case Some(t) => claims[name := Text(t)] case None => claims
  }

  /** The ids as the claims hold them. */
  datatype Ids = Ids(client: string, jti: string, application: string, version: string, secret: Option<string>)

  function PrintIds(data: SessionData, jti: Uuid): Ids {
    Ids(Print(data.clientId), Print(jti), Print(data.applicationId), Print(data.platformConfigVersion),
        match data.applicationSecretApiKeyId case Some(u) => Some(Print(u)) case None => None)
  }

  function Times(ttl: nat, now: nat): Claims {
    map[IssuedAt := Instant(now), NotBefore := Instant(now), Expiration := Instant(now + ttl * SECOND)]
  }

  function Required(claims: Claims, data: SessionData, ids: Ids): Claims {
    claims[Subject := Text(ids.client)][TokenId := Text(ids.jti)][ApplicationId := Text(ids.application)]
      [Platform := Text(data.platform)][DeviceTrusted := Number(data.deviceTrustScore)]
      [AppFingerprint := Text(ids.version)]
  }

  function Optionals(claims: Claims, data: SessionData, ids: Ids): Claims {
    var withTier := AddOptional(claims, AppTier, data.appTier);
    AddOptional(AddOptional(withTier, AppSecretKeyId, ids.secret), Pubkey, data.pubkey)
  }

  function SessionClaims(data: SessionData, ids: Ids, ttl: nat, now: nat): Claims {
    Optionals(Required(Times(ttl, now), data, ids), data, ids)
  }

  /** A new claims object has an hour to live until the expiration is set. */
  method FillClaims(data: SessionData, ids: Ids, ttl: nat, now: nat) returns (claims: Claims)
    ensures claims == SessionClaims(data, ids, ttl, now)
  {
    claims := map[IssuedAt := Instant(now), NotBefore := Instant(now), Expiration := Instant(now + 3600 * SECOND)];
    claims := claims[Expiration := Instant(now + ttl * SECOND)];
    assert claims == Times(ttl, now);
    claims := claims[Subject := Text(ids.client)];
    claims := claims[TokenId := Text(ids.jti)];
    claims := claims[ApplicationId := Text(ids.application)];
    claims := claims[Platform := Text(data.platform)];
    claims := claims[DeviceTrusted := Number(data.deviceTrustScore)];
    claims := claims[AppFingerprint := Text(ids.version)];
    if data.appTier.Some? {
      claims := claims[AppTier := Text(data.appTier.value)];
    }
    if ids.secret.Some? {
      claims := claims[AppSecretKeyId := Text(ids.secret.value)];
    }
    if data.pubkey.Some? {
      claims := claims[Pubkey := Text(data.pubkey.value)];
    }
  }

  method CreateSessionToken(key: Key, data: SessionData, ttl: nat, now: nat, jti: Uuid) returns (token: Token)
    ensures token == Sealed(key, Named(SessionClaims(data, PrintIds(data, jti), ttl, now)))
  {
    var claims := FillClaims(data, PrintIds(data, jti), ttl, now);
    token := Sealed(key, Named(claims));
  }

  // ---------------------------------------------------------------- verification

  function AsText(claims: Claims, name: Claim): Option<string> {
    if name in claims && claims[name].Text? then Some(claims[name].text) else None
  }

  function AsUuid(claims: Claims, name: Claim): Option<Uuid> {
    match AsText(claims, name) case Some(s) => Parse(s) case None => None
  }

  function AsInstant(claims: Claims, name: Claim): Option<nat> {
    if name in claims && claims[name].Instant? then Some(claims[name].at) else None
  }

  function OrElse<T>(o: Option<T>, default: T): T {
    if o.Some? then o.value else default
  }

  /** Cut to eight bits, and zero when there is no number. */
  function AsScore(claims: Claims, name: Claim): Score {
    if name in claims && claims[name].Number? then claims[name].number % 256 else 0
  }

  /** Issued, in force and not expired. */
  predicate Live(claims: Claims, now: nat) {
    && AsInstant(claims, IssuedAt).Some? && AsInstant(claims, IssuedAt).value <= now
    && AsInstant(claims, NotBefore).Some? && AsInstant(claims, NotBefore).value <= now
    && AsInstant(claims, Expiration).Some? && now < AsInstant(claims, Expiration).value
  }

  function Open(token: Token, key: Key, now: nat): Result<Claims, TokenError> {
    if token.Sealed? && token.key == key && Live(Claimed(token.payload), now) then Ok(Claimed(token.payload))
    else Err(Unauthorized)
  }

  datatype KeyManager = KeyManager(current: Key, previous: Option<Key>)

  function VerifyWithRotation(m: KeyManager, token: Token, now: nat): Result<Claims, TokenError> {
    var r := Open(token, m.current, now);
    if r.Ok? then r
    else if m.previous.Some? then Open(token, m.previous.value, now)
    else Err(Unauthorized)
  }

  function Extract(claims: Claims): Result<(SessionData, string), TokenError> {
    match (AsUuid(claims, Subject), AsText(claims, TokenId), AsUuid(claims, ApplicationId))
    case (Some(clientId), Some(jti), Some(applicationId)) =>
      Ok((SessionData(clientId, applicationId, OrElse(AsText(claims, Platform), "unknown"),
                      OrElse(AsUuid(claims, AppFingerprint), Nil()), AsScore(claims, DeviceTrusted),
                      AsText(claims, AppTier), AsUuid(claims, AppSecretKeyId), AsText(claims, Pubkey)),
          jti))
    case _ => Err(Unauthorized)
  }

  function VerifySessionToken(m: KeyManager, token: Token, now: nat): Result<(SessionData, string), TokenError> {
    match VerifyWithRotation(m, token, now)
    case Ok(claims) => Extract(claims)
    case Err(e) => Err(e)
  }

  function ExtractTokenExpiration(m: KeyManager, token: Token, now: nat): Result<nat, TokenError> {
    match VerifyWithRotation(m, token, now)
    case Ok(claims) =>
      (match AsInstant(claims, Expiration) case Some(at) => Ok(at) case None => Err(Unauthorized))
    case Err(e) => Err(e)
  }

  // ---------------------------------------------------------------- tokens from anywhere

  /** A text claim that reads as a UUID. */
  predicate HasUuid(claims: Claims, name: Claim) {
    name in claims && claims[name].Text? && Parse(claims[name].text).Some?
  }

  /**
   Whatever the claims, data comes out if and only if there are two readable ids and a token id; a missing platform is
   unknown, a missing or unreadable version is all zeros, and of a score only eight bits count.
   */
  lemma ExtractIff(claims: Claims)
    ensures var r := Extract(claims);
      && (r.Ok? <==> HasUuid(claims, Subject) && HasUuid(claims, ApplicationId)
                     && TokenId in claims && claims[TokenId].Text?)
      && (r.Ok? ==>
            var (data, jti) := r.value;
            && data.clientId == Parse(claims[Subject].text).value && jti == claims[TokenId].text
            && data.applicationId == Parse(claims[ApplicationId].text).value
            && data.platform == (if Platform in claims && claims[Platform].Text? then claims[Platform].text
                                 else "unknown")
            && data.platformConfigVersion == (if HasUuid(claims, AppFingerprint)
                                              then Parse(claims[AppFingerprint].text).value else seq(32, _ => 0))
            && data.deviceTrustScore == (if DeviceTrusted in claims && claims[DeviceTrusted].Number?
                                         then claims[DeviceTrusted].number % 256 else 0))
  {
  }

  /** An instant under a name of the payload. */
  predicate Dated(payload: Payload, name: string) {
    name in payload && payload[name].Instant?
  }

  /** A token opens if and only if one of the two keys sealed it and it is issued, in force and not past. */
  lemma OpensOnlyLive(m: KeyManager, token: Token, now: nat)
    ensures VerifyWithRotation(m, token, now).Ok? <==>
            && token.Sealed?
            && (token.key == m.current || (m.previous.Some? && token.key == m.previous.value))
            && Dated(token.payload, "iat") && token.payload["iat"].at <= now
            && Dated(token.payload, "nbf") && token.payload["nbf"].at <= now
            && Dated(token.payload, "exp") && now < token.payload["exp"].at
    ensures var r := VerifyWithRotation(m, token, now);
      r.Ok? && token.Sealed? ==> r.value == Claimed(token.payload)
  {
    if token.Sealed? {
      LiveInPayload(token.payload, now);
    }
  }

  lemma LiveInPayload(payload: Payload, now: nat)
    ensures Live(Claimed(payload), now) <==>
            && Dated(payload, "iat") && payload["iat"].at <= now
            && Dated(payload, "nbf") && payload["nbf"].at <= now
            && Dated(payload, "exp") && now < payload["exp"].at
  {
    var claims := Claimed(payload);
    assert IssuedAt in claims <==> Name(IssuedAt) in payload;
    assert NotBefore in claims <==> Name(NotBefore) in payload;
    assert Expiration in claims <==> Name(Expiration) in payload;
  }

  // ---------------------------------------------------------------- the round trip

  lemma TimesKept(data: SessionData, ids: Ids, ttl: nat, now: nat, later: nat)
    ensures var c := SessionClaims(data, ids, ttl, now);
      && AsInstant(c, Expiration) == Some(now + ttl * SECOND)
      && (Live(c, later) <==> now <= later < now + ttl * SECOND)
  {
    var c := SessionClaims(data, ids, ttl, now);
    assert AsInstant(c, IssuedAt) == Some(now);
    assert AsInstant(c, NotBefore) == Some(now);
  }

  /** The ids of the session data as some text that parses back to them. */
  ghost predicate Prints(ids: Ids, data: SessionData) {
    && Parse(ids.client) == Some(data.clientId)
    && Parse(ids.application) == Some(data.applicationId)
    && Parse(ids.version) == Some(data.platformConfigVersion)
    && ids.secret.Some? == data.applicationSecretApiKeyId.Some?
    && (ids.secret.Some? ==> Parse(ids.secret.value) == data.applicationSecretApiKeyId)
  }

  lemma IdsPrint(data: SessionData, jti: Uuid)
    ensures Prints(PrintIds(data, jti), data)
  {
    ParsePrint(data.clientId);
    ParsePrint(data.applicationId);
    ParsePrint(data.platformConfigVersion);
    if data.applicationSecretApiKeyId.Some? {
      ParsePrint(data.applicationSecretApiKeyId.value);
    }
  }

  /** No later claim overwrites an earlier one. */
  lemma RequiredKept(data: SessionData, ids: Ids, ttl: nat, now: nat)
    ensures var c := SessionClaims(data, ids, ttl, now);
      && AsText(c, Subject) == Some(ids.client)
      && AsText(c, TokenId) == Some(ids.jti)
      && AsText(c, ApplicationId) == Some(ids.application)
      && AsText(c, Platform) == Some(data.platform)
      && AsText(c, AppFingerprint) == Some(ids.version)
      && AsScore(c, DeviceTrusted) == data.deviceTrustScore
  {
  }

  lemma OptionalKept(data: SessionData, ids: Ids, ttl: nat, now: nat)
    ensures var c := SessionClaims(data, ids, ttl, now);
      && AsText(c, AppTier) == data.appTier
      && AsText(c, AppSecretKeyId) == ids.secret
      && AsText(c, Pubkey) == data.pubkey
  {
  }

  /** Every field comes back, present or absent, for every score. */
  lemma ExtractInverts(data: SessionData, ids: Ids, ttl: nat, now: nat)
    requires Prints(ids, data)
    ensures Extract(SessionClaims(data, ids, ttl, now)) == Ok((data, ids.jti))
  {
    RequiredKept(data, ids, ttl, now);
    OptionalKept(data, ids, ttl, now);
    ExtractReads(SessionClaims(data, ids, ttl, now), data, ids);
  }

  lemma ExtractReads(c: Claims, data: SessionData, ids: Ids)
    requires Prints(ids, data)
    requires AsText(c, Subject) == Some(ids.client)
    requires AsText(c, TokenId) == Some(ids.jti)
    requires AsText(c, ApplicationId) == Some(ids.application)
    requires AsText(c, Platform) == Some(data.platform)
    requires AsText(c, AppFingerprint) == Some(ids.version)
    requires AsScore(c, DeviceTrusted) == data.deviceTrustScore
    requires AsText(c, AppTier) == data.appTier
    requires AsText(c, AppSecretKeyId) == ids.secret
    requires AsText(c, Pubkey) == data.pubkey
    ensures Extract(c) == Ok((data, ids.jti))
  {
  }

  // ---------------------------------------------------------------- the names on the wire

  lemma NamedAs(claims: Claims, c: Claim, name: string)
    requires Name(c) == name
    ensures (name in Named(claims) <==> c in claims) && (c in claims ==> Named(claims)[name] == claims[c])
  {
    ClaimKept(claims, c);
  }

  predicate Says(payload: Payload, name: string, text: string) {
    name in payload && payload[name].Text? && payload[name].text == text
  }

  lemma TextNamed(claims: Claims, c: Claim, name: string, text: string)
    requires Name(c) == name && AsText(claims, c).Some? && AsText(claims, c).value == text
    ensures Says(Named(claims), name, text)
  {
    NamedAs(claims, c, name);
  }

  predicate KeepsRequired(claims: Claims, data: SessionData, ids: Ids) {
    && AsText(claims, Subject) == Some(ids.client)
    && AsText(claims, TokenId) == Some(ids.jti)
    && AsText(claims, ApplicationId) == Some(ids.application)
    && AsText(claims, Platform) == Some(data.platform)
    && AsText(claims, AppFingerprint) == Some(ids.version)
  }

  predicate SaysRequired(p: Payload, data: SessionData, ids: Ids) {
    && Says(p, "sub", ids.client) && Says(p, "jti", ids.jti) && Says(p, "a", ids.application)
    && Says(p, "p", data.platform) && Says(p, "f", ids.version)
  }

  lemma RequiredNamed(claims: Claims, data: SessionData, ids: Ids)
    requires KeepsRequired(claims, data, ids)
    ensures SaysRequired(Named(claims), data, ids)
  {
    TextNamed(claims, Subject, "sub", ids.client);
    TextNamed(claims, TokenId, "jti", ids.jti);
    TextNamed(claims, ApplicationId, "a", ids.application);
    TextNamed(claims, Platform, "p", data.platform);
    TextNamed(claims, AppFingerprint, "f", ids.version);
  }

  /** What a created token says, under the names that the wire has for it. */
  lemma RequiredNames(data: SessionData, ids: Ids, ttl: nat, now: nat)
    ensures SaysRequired(Named(SessionClaims(data, ids, ttl, now)), data, ids)
  {
    RequiredKept(data, ids, ttl, now);
    RequiredNamed(SessionClaims(data, ids, ttl, now), data, ids);
  }

  lemma NumbersKept(data: SessionData, ids: Ids, ttl: nat, now: nat)
    ensures var c := SessionClaims(data, ids, ttl, now);
      && IssuedAt in c && c[IssuedAt] == Instant(now) && NotBefore in c && c[NotBefore] == Instant(now)
      && Expiration in c && c[Expiration] == Instant(now + ttl * 1_000_000_000)
      && DeviceTrusted in c && c[DeviceTrusted] == Number(data.deviceTrustScore)
  {
  }

  lemma NumberNames(data: SessionData, ids: Ids, ttl: nat, now: nat)
    ensures var p := Named(SessionClaims(data, ids, ttl, now));
      && Dated(p, "iat") && p["iat"].at == now && Dated(p, "nbf") && p["nbf"].at == now
      && Dated(p, "exp") && p["exp"].at == now + ttl * 1_000_000_000
      && "d" in p && p["d"] == Number(data.deviceTrustScore)
  {
    NumbersKept(data, ids, ttl, now);
    var claims := SessionClaims(data, ids, ttl, now);
    NamedAs(claims, IssuedAt, "iat");
    NamedAs(claims, NotBefore, "nbf");
    NamedAs(claims, Expiration, "exp");
    NamedAs(claims, DeviceTrusted, "d");
  }

  predicate SaysOptional(p: Payload, name: string, text: Option<string>) {
    if text.Some? then Says(p, name, text.value) else name !in p
  }

  lemma OptionalNamed(claims: Claims, c: Claim, name: string, text: Option<string>)
    requires Name(c) == name && AsText(claims, c) == text && (text.None? ==> c !in claims)
    ensures SaysOptional(Named(claims), name, text)
  {
    NamedAs(claims, c, name);
  }

  lemma OptionalsAbsent(data: SessionData, ids: Ids, ttl: nat, now: nat)
    ensures var c := SessionClaims(data, ids, ttl, now);
      && (data.appTier.None? ==> AppTier !in c) && (ids.secret.None? ==> AppSecretKeyId !in c)
      && (data.pubkey.None? ==> Pubkey !in c)
  {
  }

  lemma TierNamed(data: SessionData, ids: Ids, ttl: nat, now: nat)
    ensures SaysOptional(Named(SessionClaims(data, ids, ttl, now)), "t", data.appTier)
  {
    OptionalKept(data, ids, ttl, now);
    OptionalsAbsent(data, ids, ttl, now);
    OptionalNamed(SessionClaims(data, ids, ttl, now), AppTier, "t", data.appTier);
  }

  lemma SecretNamed(data: SessionData, ids: Ids, ttl: nat, now: nat)
    ensures SaysOptional(Named(SessionClaims(data, ids, ttl, now)), "s", ids.secret)
  {
    OptionalKept(data, ids, ttl, now);
    OptionalsAbsent(data, ids, ttl, now);
    OptionalNamed(SessionClaims(data, ids, ttl, now), AppSecretKeyId, "s", ids.secret);
  }

  lemma PubkeyNamed(data: SessionData, ids: Ids, ttl: nat, now: nat)
    ensures SaysOptional(Named(SessionClaims(data, ids, ttl, now)), "b", data.pubkey)
  {
    OptionalKept(data, ids, ttl, now);
    OptionalsAbsent(data, ids, ttl, now);
    OptionalNamed(SessionClaims(data, ids, ttl, now), Pubkey, "b", data.pubkey);
  }

  /** The optional ones are there when the data has them. */
  lemma OptionalNames(data: SessionData, ids: Ids, ttl: nat, now: nat)
    ensures var p := Named(SessionClaims(data, ids, ttl, now));
      SaysOptional(p, "t", data.appTier) && SaysOptional(p, "s", ids.secret) && SaysOptional(p, "b", data.pubkey)
  {
    TierNamed(data, ids, ttl, now);
    SecretNamed(data, ids, ttl, now);
    PubkeyNamed(data, ids, ttl, now);
  }

  // ---------------------------------------------------------------- key rotation

  /** A deployment with a new key keeps the key before it. */
  function Rotate(m: KeyManager, key: Key): KeyManager {
    KeyManager(key, Some(m.current))
  }

  function RotateAll(m: KeyManager, keys: seq<Key>): KeyManager {
    if keys == [] then m else Rotate(RotateAll(m, keys[..|keys| - 1]), keys[|keys| - 1])
  }

  predicate Holds(m: KeyManager, key: Key) {
    key == m.current || (m.previous.Some? && m.previous.value == key)
  }

  lemma OpensIff(m: KeyManager, key: Key, claims: Claims, later: nat)
    ensures VerifyWithRotation(m, Sealed(key, Named(claims)), later) ==
            if Holds(m, key) && Live(claims, later) then Ok(claims) else Err(Unauthorized)
  {
    ClaimedNamed(claims);
  }

  /** A created token gives its data back exactly while it is live and its key is held. */
  lemma VerifiesIff(m: KeyManager, key: Key, data: SessionData, jti: Uuid, ttl: nat, now: nat, later: nat)
    ensures var token := Sealed(key, Named(SessionClaims(data, PrintIds(data, jti), ttl, now)));
      if Holds(m, key) && now <= later < now + ttl * 1_000_000_000 then
        && VerifySessionToken(m, token, later) == Ok((data, Print(jti)))
        && ExtractTokenExpiration(m, token, later) == Ok(now + ttl * 1_000_000_000)
      else VerifySessionToken(m, token, later) == Err(Unauthorized)
  {
    OpensIff(m, key, SessionClaims(data, PrintIds(data, jti), ttl, now), later);
    IdsPrint(data, jti);
    TimesKept(data, PrintIds(data, jti), ttl, now, later);
    ExtractInverts(data, PrintIds(data, jti), ttl, now);
  }

  /** Of all the keys a manager had, it holds the last two. */
  lemma {:induction false} HoldsLastTwo(m: KeyManager, keys: seq<Key>)
    ensures var all, r := [m.current] + keys, RotateAll(m, keys);
      && r.current == all[|all| - 1]
      && (keys != [] ==> r.previous.Some? && r.previous.value == all[|all| - 2])
      && (keys == [] ==> r == m)
  {
    if keys != [] {
      var before := keys[..|keys| - 1];
      HoldsLastTwo(m, before);
      var all := [m.current] + before;
      assert [m.current] + keys == all + [keys[|keys| - 1]];
    }
  }

  /** After any number of rotations to keys of its own, a live token is accepted after at most one. */
  lemma AcceptedThroughOneRotation(m: KeyManager, keys: seq<Key>, data: SessionData, jti: Uuid,
                                   ttl: nat, now: nat, later: nat)
    requires m.current !in keys && now <= later < now + ttl * 1_000_000_000
    ensures var token := Sealed(m.current, Named(SessionClaims(data, PrintIds(data, jti), ttl, now)));
      VerifySessionToken(RotateAll(m, keys), token, later) ==
      if |keys| <= 1 then Ok((data, Print(jti))) else Err(Unauthorized)
  {
    HoldsLastTwo(m, keys);
    VerifiesIff(RotateAll(m, keys), m.current, data, jti, ttl, now, later);
    if |keys| >= 2 {
      var all := [m.current] + keys;
      assert all[|all| - 1] == keys[|keys| - 1] && all[|all| - 2] == keys[|keys| - 2];
    }
  }
}
