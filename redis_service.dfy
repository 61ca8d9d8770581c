/** The revocation and session store (api/services/redis_service.py). Three key
    namespaces share one cache: stored token payloads under "jwt_token:<user id>",
    blacklist marks under "jwt_blacklist:<whole token string>", and session payloads
    under "user_sessions:<user id>". */
module Redis {
  import opened Results
  import opened Strings
  import opened Cache
  import opened Jwt

  const TokenPrefix := "jwt_token:"
  const BlacklistPrefix := "jwt_blacklist:"
  const SessionPrefix := "user_sessions:"

  const BlacklistedMark := "blacklisted"
  const DefaultBlacklistTtl := 86400
  const DefaultSessionTtl := 3600

  const TokenNotFound := "Token not found"
  const SessionNotFound := "Session not found"
  const InvalidTokenPrefix := "Invalid token: "

  function TokenKey(userId: string): string {
    TokenPrefix + userId
  }

  function BlacklistKey(token: string): string {
    BlacklistPrefix + token
  }

  function SessionKey(userId: string): string {
    SessionPrefix + userId
  }

  /** No key of one namespace is a key of another. */
  lemma {:induction false} KeyNamespacesDisjoint(u: string, v: string, t: string)
    ensures TokenKey(u) != SessionKey(v)
    ensures TokenKey(u) != BlacklistKey(t)
    ensures SessionKey(v) != BlacklistKey(t)
  {
    assert TokenKey(u)[0] == 'j' && SessionKey(v)[0] == 'u';
    assert TokenKey(u)[4] == 't' && BlacklistKey(t)[4] == 'b';
  }

  /** Within a namespace, distinct ids give distinct keys. */
  lemma {:induction false} KeysInjective(u: string, v: string)
    ensures TokenKey(u) == TokenKey(v) ==> u == v
    ensures SessionKey(u) == SessionKey(v) ==> u == v
    ensures BlacklistKey(u) == BlacklistKey(v) ==> u == v
  {
    if TokenKey(u) == TokenKey(v) {
      assert u == TokenKey(u)[|TokenPrefix|..] && v == TokenKey(v)[|TokenPrefix|..];
    }
    if SessionKey(u) == SessionKey(v) {
      assert u == SessionKey(u)[|SessionPrefix|..] && v == SessionKey(v)[|SessionPrefix|..];
    }
    if BlacklistKey(u) == BlacklistKey(v) {
      assert u == BlacklistKey(u)[|BlacklistPrefix|..] && v == BlacklistKey(v)[|BlacklistPrefix|..];
    }
  }

  /** What the service itself writes: payloads, never the blacklist mark, under the
      token and session namespaces. */
  ghost predicate WellTyped(c: Store) {
    (forall u :: TokenKey(u) in c ==> c[TokenKey(u)].value.Json?) &&
    (forall u :: SessionKey(u) in c ==> c[SessionKey(u)].value.Json?)
  }

  /** What `get_token(userId)` answers at time `now`. */
  function TokenOf(c: Store, userId: string, now: int): Result<Payload>
    requires WellTyped(c)
  {
    match Get(c, TokenKey(userId), now)
    case None => Error(TokenNotFound)
    case Some(v) => if v.Json? then Success(v.doc) else assert false; Error(TokenNotFound)
  }

  /** What `get_user_session(userId)` answers at time `now`. */
  function SessionOf(c: Store, userId: string, now: int): Result<Payload>
    requires WellTyped(c)
  {
    match Get(c, SessionKey(userId), now)
    case None => Error(SessionNotFound)
    case Some(v) => if v.Json? then Success(v.doc) else assert false; Error(SessionNotFound)
  }

  /** Whether `is_token_blacklisted(token)` reports the token at time `now`. */
  predicate Blacklisted(c: Store, token: string, now: int) {
    Get(c, BlacklistKey(token), now).Some?
  }

  /** `max(exp - now, expires_in)`, a missing `exp` counting as 0: the entry lives for
      the token's remaining lifetime, but never for less than `expiresIn`. */
  function BlacklistTtl(exp: Option<int>, now: int, expiresIn: int): (ttl: int)
    ensures ttl >= expiresIn
    ensures ttl >= (if exp.Some? then exp.value else 0) - now
    ensures ttl == expiresIn || ttl == (if exp.Some? then exp.value else 0) - now
  {
    var e := if exp.Some? then exp.value else 0;
    if e - now > expiresIn then e - now else expiresIn
  }

  /** The store after a successful `blacklist_token(token, expiresIn)` at `now`. */
  function AfterBlacklist(c: Store, token: string, exp: Option<int>, now: int, expiresIn: int): Store {
    Set(c, BlacklistKey(token), Text(BlacklistedMark), now, BlacklistTtl(exp, now, expiresIn))
  }

  /** Every write the service makes keeps the namespaces well typed. */
  lemma SetPayloadWellTyped(c: Store, key: string, d: Payload, now: int, ttl: int)
    requires WellTyped(c)
    ensures WellTyped(Set(c, key, Json(d), now, ttl))
  {
  }

  lemma {:induction false} AfterBlacklistWellTyped(c: Store, token: string, exp: Option<int>, now: int, expiresIn: int)
    requires WellTyped(c)
    ensures WellTyped(AfterBlacklist(c, token, exp, now, expiresIn))
  {
    var c' := AfterBlacklist(c, token, exp, now, expiresIn);
    forall u | TokenKey(u) in c' ensures c'[TokenKey(u)].value.Json? {
      KeyNamespacesDisjoint(u, u, token);
    }
    forall u | SessionKey(u) in c' ensures c'[SessionKey(u)].value.Json? {
      KeyNamespacesDisjoint(u, u, token);
    }
  }

  /** A stored token reads back unchanged until its timeout runs out, and is reported
      missing afterwards. */
  lemma StoreThenGetToken(c: Store, u: string, d: Payload, now: int, ttl: int, t: int)
    requires WellTyped(c)
    ensures WellTyped(Set(c, TokenKey(u), Json(d), now, ttl))
    ensures t < now + ttl ==> TokenOf(Set(c, TokenKey(u), Json(d), now, ttl), u, t) == Success(d)
    ensures t >= now + ttl ==> TokenOf(Set(c, TokenKey(u), Json(d), now, ttl), u, t) == Error(TokenNotFound)
  {
  }

  lemma StoreThenGetSession(c: Store, u: string, d: Payload, now: int, ttl: int, t: int)
    requires WellTyped(c)
    ensures WellTyped(Set(c, SessionKey(u), Json(d), now, ttl))
    ensures t < now + ttl ==> SessionOf(Set(c, SessionKey(u), Json(d), now, ttl), u, t) == Success(d)
    ensures t >= now + ttl ==> SessionOf(Set(c, SessionKey(u), Json(d), now, ttl), u, t) == Error(SessionNotFound)
  {
  }

  /** Storing a token touches no session and no blacklist answer, and no other user's
      token. */
  lemma {:induction false} StoreTokenIsolated(c: Store, u: string, d: Payload, now: int, ttl: int, v: string, tok: string, t: int)
    requires WellTyped(c)
    ensures WellTyped(Set(c, TokenKey(u), Json(d), now, ttl))
    ensures SessionOf(Set(c, TokenKey(u), Json(d), now, ttl), v, t) == SessionOf(c, v, t)
    ensures Blacklisted(Set(c, TokenKey(u), Json(d), now, ttl), tok, t) == Blacklisted(c, tok, t)
    ensures v != u ==> TokenOf(Set(c, TokenKey(u), Json(d), now, ttl), v, t) == TokenOf(c, v, t)
  {
    SetPayloadWellTyped(c, TokenKey(u), d, now, ttl);
    KeyNamespacesDisjoint(u, v, tok);
    KeysInjective(u, v);
  }

  /** Storing a session touches no stored token and no blacklist answer, and no other
      user's session. */
  lemma {:induction false} StoreSessionIsolated(c: Store, u: string, d: Payload, now: int, ttl: int, v: string, tok: string, t: int)
    requires WellTyped(c)
    ensures WellTyped(Set(c, SessionKey(u), Json(d), now, ttl))
    ensures TokenOf(Set(c, SessionKey(u), Json(d), now, ttl), v, t) == TokenOf(c, v, t)
    ensures Blacklisted(Set(c, SessionKey(u), Json(d), now, ttl), tok, t) == Blacklisted(c, tok, t)
    ensures v != u ==> SessionOf(Set(c, SessionKey(u), Json(d), now, ttl), v, t) == SessionOf(c, v, t)
  {
    SetPayloadWellTyped(c, SessionKey(u), d, now, ttl);
    KeyNamespacesDisjoint(v, u, tok);
    KeysInjective(u, v);
  }

  /** After blacklisting, the token is reported exactly while the entry lives, which is
      at least `expiresIn` seconds and at least until the token's own `exp`. */
  lemma BlacklistThenQuery(c: Store, token: string, exp: Option<int>, now: int, expiresIn: int, t: int)
    ensures Blacklisted(AfterBlacklist(c, token, exp, now, expiresIn), token, t)
        <==> t < now + BlacklistTtl(exp, now, expiresIn)
    ensures t < now + expiresIn ==> Blacklisted(AfterBlacklist(c, token, exp, now, expiresIn), token, t)
    ensures exp.Some? && t < exp.value ==> Blacklisted(AfterBlacklist(c, token, exp, now, expiresIn), token, t)
  {
  }

  /** Blacklisting a token again later never ends an entry early: whenever the first
      entry would still report the token, so does the second. */
  lemma BlacklistIdempotent(c: Store, token: string, exp: Option<int>, now: int, later: int, expiresIn: int, t: int)
    requires now <= later <= t
    ensures Blacklisted(AfterBlacklist(c, token, exp, now, expiresIn), token, t) ==>
      Blacklisted(AfterBlacklist(AfterBlacklist(c, token, exp, now, expiresIn), token, exp, later, expiresIn), token, t)
  {
  }

  /** Blacklisting one token changes no stored token, no session and no other token's
      blacklist answer. */
  lemma {:induction false} BlacklistIsolated(c: Store, token: string, exp: Option<int>, now: int, expiresIn: int, u: string, other: string, t: int)
    requires WellTyped(c)
    ensures WellTyped(AfterBlacklist(c, token, exp, now, expiresIn))
    ensures TokenOf(AfterBlacklist(c, token, exp, now, expiresIn), u, t) == TokenOf(c, u, t)
    ensures SessionOf(AfterBlacklist(c, token, exp, now, expiresIn), u, t) == SessionOf(c, u, t)
    ensures other != token ==> Blacklisted(AfterBlacklist(c, token, exp, now, expiresIn), other, t) == Blacklisted(c, other, t)
  {
    AfterBlacklistWellTyped(c, token, exp, now, expiresIn);
    KeyNamespacesDisjoint(u, u, token);
    KeysInjective(token, other);
  }

  /** Deleting a session makes it missing and changes no other answer. */
  lemma {:induction false} DeleteSessionEffect(c: Store, u: string, v: string, tok: string, t: int)
    requires WellTyped(c)
    ensures WellTyped(Delete(c, SessionKey(u)))
    ensures SessionOf(Delete(c, SessionKey(u)), u, t) == Error(SessionNotFound)
    ensures v != u ==> SessionOf(Delete(c, SessionKey(u)), v, t) == SessionOf(c, v, t)
    ensures TokenOf(Delete(c, SessionKey(u)), v, t) == TokenOf(c, v, t)
    ensures Blacklisted(Delete(c, SessionKey(u)), tok, t) == Blacklisted(c, tok, t)
  {
    KeyNamespacesDisjoint(v, u, tok);
    KeysInjective(u, v);
  }

  /** Clearing a user's data removes exactly that user's token and session keys. */
  lemma {:induction false} ClearUserDataEffect(c: Store, u: string, v: string, tok: string, t: int)
    requires WellTyped(c)
    ensures WellTyped(Delete(Delete(c, TokenKey(u)), SessionKey(u)))
    ensures TokenOf(Delete(Delete(c, TokenKey(u)), SessionKey(u)), u, t) == Error(TokenNotFound)
    ensures SessionOf(Delete(Delete(c, TokenKey(u)), SessionKey(u)), u, t) == Error(SessionNotFound)
    ensures Blacklisted(Delete(Delete(c, TokenKey(u)), SessionKey(u)), tok, t) == Blacklisted(c, tok, t)
    ensures v != u ==> TokenOf(Delete(Delete(c, TokenKey(u)), SessionKey(u)), v, t) == TokenOf(c, v, t)
    ensures v != u ==> SessionOf(Delete(Delete(c, TokenKey(u)), SessionKey(u)), v, t) == SessionOf(c, v, t)
  {
    KeyNamespacesDisjoint(u, v, tok);
    KeyNamespacesDisjoint(v, u, tok);
    KeysInjective(u, v);
  }

  /** `RedisService`: a handle on Django's shared cache. Writes made through one
      service are seen by every other service built on the same cache. */
  class RedisService {
    /** The process-wide cache object; every service built on it sees the same entries. */
    const cache: SharedCache

    ghost predicate Valid()
      reads this, cache
    {
      WellTyped(cache.entries)
    }

    constructor (shared: SharedCache)
      requires WellTyped(shared.entries)
      ensures Valid() && cache == shared
    {
      cache := shared;
    }

    method StoreToken(userId: string, tokenData: Payload, expiresIn: int, now: int) returns (r: Result<bool>)
      requires Valid()
      modifies cache
      ensures Valid()
      ensures cache.entries == Set(old(cache.entries), TokenKey(userId), Json(tokenData), now, expiresIn)
      ensures r == Success(true)
    {
      SetPayloadWellTyped(cache.entries, TokenKey(userId), tokenData, now, expiresIn);
      cache.entries := Set(cache.entries, TokenKey(userId), Json(tokenData), now, expiresIn);
      r := Success(true);
    }

    method GetToken(userId: string, now: int) returns (r: Result<Payload>)
      requires Valid()
      ensures r == TokenOf(cache.entries, userId, now)
      ensures r.IsSuccess() <==> Get(cache.entries, TokenKey(userId), now).Some?
      ensures !r.IsSuccess() ==> r == Error(TokenNotFound)
    {
      var tokenData := Get(cache.entries, TokenKey(userId), now);
      if tokenData.None? {
        return Error(TokenNotFound);
      }
      if !tokenData.value.Json? {
        assert false;
      }
      r := Success(tokenData.value.doc);
    }

    method BlacklistToken(token: string, decode: Decoder, now: int, expiresIn: int := DefaultBlacklistTtl)
      returns (r: Result<bool>)
      requires Valid()
      modifies cache
      ensures Valid()
      ensures decode(token).TokenError? ==>
        r == Error(InvalidTokenPrefix + decode(token).reason) && cache.entries == old(cache.entries)
      ensures decode(token).Decoded? ==>
        r == Success(true) && cache.entries == AfterBlacklist(old(cache.entries), token, decode(token).token.exp, now, expiresIn)
    {
      var accessToken := decode(token);
      if accessToken.TokenError? {
        return Error(InvalidTokenPrefix + accessToken.reason);
      }
      var expTimestamp := if accessToken.token.exp.Some? then accessToken.token.exp.value else 0;
      var remainingTime := if expTimestamp - now > expiresIn then expTimestamp - now else expiresIn;
      AfterBlacklistWellTyped(cache.entries, token, accessToken.token.exp, now, expiresIn);
      cache.entries := Set(cache.entries, BlacklistKey(token), Text(BlacklistedMark), now, remainingTime);
      r := Success(true);
    }

    method IsTokenBlacklisted(token: string, now: int) returns (r: Result<bool>)
      ensures r == Success(Blacklisted(cache.entries, token, now))
    {
      var isBlacklisted := Get(cache.entries, BlacklistKey(token), now).Some?;
      r := Success(isBlacklisted);
    }

    method StoreUserSession(userId: string, sessionData: Payload, now: int, expiresIn: int := DefaultSessionTtl)
      returns (r: Result<bool>)
      requires Valid()
      modifies cache
      ensures Valid()
      ensures cache.entries == Set(old(cache.entries), SessionKey(userId), Json(sessionData), now, expiresIn)
      ensures r == Success(true)
    {
      SetPayloadWellTyped(cache.entries, SessionKey(userId), sessionData, now, expiresIn);
      cache.entries := Set(cache.entries, SessionKey(userId), Json(sessionData), now, expiresIn);
      r := Success(true);
    }

    method GetUserSession(userId: string, now: int) returns (r: Result<Payload>)
      requires Valid()
      ensures r == SessionOf(cache.entries, userId, now)
      ensures r.IsSuccess() <==> Get(cache.entries, SessionKey(userId), now).Some?
      ensures !r.IsSuccess() ==> r == Error(SessionNotFound)
    {
      var sessionData := Get(cache.entries, SessionKey(userId), now);
      if sessionData.None? {
        return Error(SessionNotFound);
      }
      if !sessionData.value.Json? {
        assert false;
      }
      r := Success(sessionData.value.doc);
    }

    method DeleteUserSession(userId: string) returns (r: Result<bool>)
      requires Valid()
      modifies cache
      ensures Valid()
      ensures cache.entries == old(cache.entries) - {SessionKey(userId)}
      ensures r == Success(true)
    {
      cache.entries := Delete(cache.entries, SessionKey(userId));
      r := Success(true);
    }

    method ClearAllUserData(userId: string) returns (r: Result<bool>)
      requires Valid()
      modifies cache
      ensures Valid()
      ensures cache.entries == old(cache.entries) - {TokenKey(userId), SessionKey(userId)}
      ensures r == Success(true)
    {
      cache.entries := Delete(cache.entries, TokenKey(userId));
      cache.entries := Delete(cache.entries, SessionKey(userId));
      r := Success(true);
    }
  }

  /** Two services built on one cache share it: a token stored through one is read back
      through the other. */
  method SharedCacheScenario(shared: SharedCache, d: Payload)
    requires WellTyped(shared.entries)
    modifies shared
  {
    var a := new RedisService(shared);
    var b := new RedisService(shared);
    var stored := a.StoreToken("u", d, 60, 0);
    var read := b.GetToken("u", 1);
    assert read == Success(d);
  }
}
