/**
 Token validation through the identity cache (internal/jwtauth/authenticator.go).

 Signatures are opaque: `signed` gives the claims of a token whose signature is good.
 Signed tokens carry no surrounding white space, name a user and a token id, and no two
 of them share both.
 */
module Authenticator {

  import opened Wrappers
  import opened IdentityCache

  datatype Claims = Claims(subject: string, id: string, metadata: string,
          expiresAt: Option<int>, notBefore: Option<int>, issuedAt: Option<int>, tokenType: TokenType)

  type Signed = string -> Option<Claims>

  datatype AuthError = EmptyToken | BadToken | TokenTypeMismatch | TokenRevoked

  datatype Validation = Valid(identity: Identity, fromCache: bool) | Invalid(error: AuthError)

  const DEFAULT_CACHE_TTL: int := 300_000_000_000

  /** What a signed token says to the identity cache. */
  function IssueOf(signed: Signed): Issue {
    (k: string) => match signed(k) case Some(c) => Claim(Key(c.subject), c.id) case None => Claim(k, "")
  }

  ghost predicate GoodIssuer(signed: Signed) {
    && (forall t :: signed(t).Some? ==> t != "" && Key(t) == t && signed(t).value.id != "")
    && forall t, t' ::
         && signed(t).Some? && signed(t').Some?
         && Key(signed(t).value.subject) == Key(signed(t').value.subject)
         && signed(t).value.id == signed(t').value.id
         ==> t == t'
  }

  /** The identity is what the token's claims say; a missing time is the time of validation. */
  predicate Reads(c: Claims, i: Identity) {
    && i.userID == c.subject && i.tokenID == c.id && i.metadata == c.metadata && i.tokenType == c.tokenType
    && (c.expiresAt.Some? ==> i.expiresAt == c.expiresAt.value)
    && (c.issuedAt.Some? ==> i.issuedAt == c.issuedAt.value)
  }

  /** The claims are in force: not yet expired, and no longer to be waited for. */
  predicate InForce(c: Claims, at: int) {
    && (c.expiresAt.Some? ==> at < c.expiresAt.value)
    && (c.notBefore.Some? ==> c.notBefore.value <= at)
  }

  /** A full validation of `token` at `at` that gave `identity`. */
  datatype Validated = Validated(token: string, identity: Identity, at: int)

  predicate Genuine(signed: Signed, v: Validated) {
    && signed(v.token).Some?
    && Reads(signed(v.token).value, v.identity)
    && InForce(signed(v.token).value, v.at)
  }

  /** A cached identity is one that an earlier validation gave, kept no longer than its token lasts. */
  ghost predicate Backed(signed: Signed, history: set<Validated>, k: string, c: CachedIdentity) {
    && (exists at :: Validated(k, c.identity, at) in history)
    && signed(k).Some? && Reads(signed(k).value, c.identity)
    && signed(k).value.expiresAt == Some(c.identity.expiresAt)
    && c.identity.tokenType == AccessToken
    && c.expiry <= c.identity.expiresAt
  }

  ghost predicate AllBacked(signed: Signed, history: set<Validated>, ids: Identities) {
    forall k <- ids :: Backed(signed, history, k, ids[k].value)
  }

  /** Signed tokens have no twins. */
  lemma NoTwins(signed: Signed, history: set<Validated>, ids: Identities, k: string, now: int)
    requires GoodIssuer(signed) && AllBacked(signed, history, ids)
    ensures !HasTwin(ids, k, IssueOf(signed), now)
  {
  }

  lemma IsBacked(signed: Signed, history: set<Validated>, token: string, c: CachedIdentity, at: int)
    requires Validated(token, c.identity, at) in history && Genuine(signed, Validated(token, c.identity, at))
    requires c.identity.tokenType == AccessToken && signed(token).value.expiresAt.Some?
    requires c.expiry <= c.identity.expiresAt
    ensures Backed(signed, history, token, c)
  {
  }

  lemma AddedStaysSound(signed: Signed, history: set<Validated>, ids: Identities, idx: Indexes, before: int,
          token: string, c: CachedIdentity, ttl: int, ok: bool, stuck: bool, ids': Identities, idx': Indexes, now: int)
    requires GoodIssuer(signed) && AllBacked(signed, history, ids) && Backed(signed, history, token, c)
    requires SetOutcome(ids, idx, before, IssueOf(signed), token, c, ok, stuck, ids', idx', now)
    requires LastsFor(c, c.identity, ttl)
    ensures AllBacked(signed, history, ids')
    ensures Remembered(ids, token, c.identity, true, ttl, ids')
    ensures ok ==> token in ids' && ids'[token].value == c
    ensures Agree(ids, idx, before) && !stuck ==> Agree(ids', idx', now)
  {
    assert Key(token) == token && c.identity.tokenID != "";
    NoTwins(signed, history, ids, token, now);
    forall k <- ids'
      ensures Backed(signed, history, k, ids'[k].value)
    {
      assert k != token ==> k in ids && ids[k] == ids'[k];
    }
  }

  /** A cached identity lasts for the cache's own lifetime, or until its token expires if that is sooner. */
  predicate LastsFor(c: CachedIdentity, identity: Identity, ttl: int) {
    && c.identity == identity
    && c.expiry == if identity.expiresAt < c.cacheTime + ttl then identity.expiresAt else c.cacheTime + ttl
  }

  predicate Remembered(ids: Identities, token: string, identity: Identity, enabled: bool, ttl: int, ids': Identities) {
    || ids' == ids
    || (enabled && ids' == ids - {token})
    || (enabled && token in ids' && ids' == ids[token := ids'[token]] && LastsFor(ids'[token].value, identity, ttl))
  }

  /** A request, and whether the revocation store answers the call it makes. */
  datatype Request =
    | Validate(token: string, tokenType: TokenType, checkRevoked: bool, reachable: bool)
    | Revoke(token: string, parsed: Option<Claims>, reachable: bool)
    | RevokeAll(userID: string, exceptTokenID: string, known: set<string>, reachable: bool)

  /** The token ids that a request adds to the revocation store. */
  function Revokes(request: Request): set<string> {
    match request
    case Validate(_, _, _, _) => {}
    case Revoke(token, parsed, reachable) =>
      if reachable && token != "" && parsed.Some? && parsed.value.id != "" then {parsed.value.id} else {}
    case RevokeAll(userID, except, known, reachable) =>
      if reachable && userID != "" then known - {except} else {}
  }

  function RevokedAfter(revoked: set<string>, requests: seq<Request>): set<string> {
    if requests == [] then revoked
    else RevokedAfter(revoked, requests[..|requests| - 1]) + Revokes(requests[|requests| - 1])
  }

  /** The claims are those of a revoked token, and the validation asks for that and is told. */
  predicate Refused(request: Request, c: Claims, revoked: set<string>)
    requires request.Validate?
  {
    request.checkRevoked && request.reachable && c.id in revoked
  }

  /**
   A good answer to a validation: the identity is one that a full validation of that token
   gave, by `at` if it comes from the cache, and the token's expiry had not passed at `at`.
   A token that passes the other checks is refused exactly if it is found revoked.
   */
  predicate Answers(signed: Signed, history: set<Validated>, revoked: set<string>, request: Request, r: Validation,
          at: int)
  {
    request.Validate? ==>
      var claims := signed(request.token);
      match r
      case Valid(identity, true) =>
        && !request.checkRevoked && request.tokenType == AccessToken == identity.tokenType
        && CameFrom(signed, history, Key(request.token), identity, at)
        && at <= identity.expiresAt && signed(Key(request.token)).value.expiresAt == Some(identity.expiresAt)
      case Valid(identity, false) =>
        && Validated(request.token, identity, at) in history && Genuine(signed, Validated(request.token, identity, at))
        && identity.tokenType == request.tokenType
        && !Refused(request, claims.value, revoked)
      case Invalid(EmptyToken) => request.token == ""
      case Invalid(BadToken) => request.token != "" && (claims.None? || !InForce(claims.value, at))
      case Invalid(TokenTypeMismatch) =>
        claims.Some? && InForce(claims.value, at) && claims.value.tokenType != request.tokenType
      case Invalid(TokenRevoked) =>
        && claims.Some? && InForce(claims.value, at) && claims.value.tokenType == request.tokenType
        && Refused(request, claims.value, revoked)
  }

  /**
   Of a token in force and of the type asked for, revocation alone decides, and only if it
   is checked and the store answers.
   */
  lemma RevocationDecides(signed: Signed, history: set<Validated>, revoked: set<string>, request: Request,
          r: Validation, at: int)
    requires GoodIssuer(signed) && request.Validate? && Answers(signed, history, revoked, request, r, at)
    requires signed(request.token).Some? && InForce(signed(request.token).value, at)
    requires signed(request.token).value.tokenType == request.tokenType
    ensures r.Valid? <==> !(request.checkRevoked && request.reachable && signed(request.token).value.id in revoked)
  {
    if r.Valid? && r.fromCache {
      assert !request.checkRevoked;
    }
  }

  /** Whoever is accepted by a full validation is the one the token names, and the token is within its times. */
  lemma AcceptedIsNamedByToken(signed: Signed, history: set<Validated>, revoked: set<string>, request: Request,
          identity: Identity, at: int)
    requires request.Validate? && Answers(signed, history, revoked, request, Valid(identity, false), at)
    ensures signed(request.token).Some?
    ensures var c := signed(request.token).value;
            && identity.userID == c.subject && identity.tokenID == c.id && identity.metadata == c.metadata
            && identity.tokenType == c.tokenType == request.tokenType
            && (c.expiresAt.Some? ==> at < c.expiresAt.value == identity.expiresAt)
            && (c.notBefore.Some? ==> c.notBefore.value <= at)
            && (c.issuedAt.Some? ==> identity.issuedAt == c.issuedAt.value)
  {
  }

  /** A token within its times, of the type asked for and not found revoked is accepted; each refusal has its cause. */
  lemma RefusalHasCause(signed: Signed, history: set<Validated>, revoked: set<string>, request: Request,
          error: AuthError, at: int)
    requires GoodIssuer(signed) && request.Validate?
    requires Answers(signed, history, revoked, request, Invalid(error), at)
    ensures error == EmptyToken <==> request.token == ""
    ensures signed(request.token).Some? ==>
              var c := signed(request.token).value;
              var early, late := c.notBefore.Some? && at < c.notBefore.value, c.expiresAt.Some? && c.expiresAt.value <= at;
              && (early || late <==> error == BadToken)
              && (!early && !late && c.tokenType != request.tokenType <==> error == TokenTypeMismatch)
              && (error == TokenRevoked <==> !early && !late && c.tokenType == request.tokenType)
              && (error == TokenRevoked ==> request.checkRevoked && request.reachable && c.id in revoked)
  {
  }

  predicate CameFrom(signed: Signed, history: set<Validated>, token: string, identity: Identity, at: int) {
    exists v <- history :: v.token == token && v.identity == identity && v.at <= at && Genuine(signed, v)
  }

  lemma AnswersStay(signed: Signed, history: set<Validated>, history': set<Validated>, revoked: set<string>,
          request: Request, r: Validation, at: int)
    requires Answers(signed, history, revoked, request, r, at) && history <= history'
    ensures Answers(signed, history', revoked, request, r, at)
  {
  }

  /** The first requests of a run have good answers, each by what was revoked before it. */
  predicate AllAnswered(signed: Signed, history: set<Validated>, revoked: set<string>,
          requests: seq<Request>, answers: seq<Validation>, times: seq<int>)
  {
    && |answers| == |times| <= |requests|
    && forall i :: 0 <= i < |answers| ==>
         Answers(signed, history, RevokedAfter(revoked, requests[..i]), requests[i], answers[i], times[i])
  }

  lemma OneMoreAnswered(signed: Signed, before: set<Validated>, after: set<Validated>, revoked: set<string>,
          requests: seq<Request>, answers: seq<Validation>, times: seq<int>, r: Validation, at: int)
    requires AllAnswered(signed, before, revoked, requests, answers, times) && before <= after
    requires |answers| < |requests|
    requires var n := |answers|; Answers(signed, after, RevokedAfter(revoked, requests[..n]), requests[n], r, at)
    ensures AllAnswered(signed, after, revoked, requests, answers + [r], times + [at])
  {
    forall i | 0 <= i < |answers|
      ensures Answers(signed, after, RevokedAfter(revoked, requests[..i]), requests[i], answers[i], times[i])
    {
      AnswersStay(signed, before, after, RevokedAfter(revoked, requests[..i]), requests[i], answers[i], times[i]);
    }
  }

  class JwtAuthenticator {
    const clock: Clock
    const cache: IdentityCache
    const cacheEnabled: bool
    const cacheTTL: int
    const signed: Signed
    var revoked: set<string>
    ghost var history: set<Validated>
    ghost var stuck: bool

    constructor (signed: Signed, cacheEnabled: bool, cacheTTL: int, reliable: bool)
      requires GoodIssuer(signed)
      ensures Sound() && revoked == {} && history == {} && !stuck && this.signed == signed && cache.reliable == reliable
      ensures fresh(clock) && fresh(cache) && fresh(cache.store) && fresh(cache.index)
    {
      var c := new Clock();
      this.clock := c;
      this.cache := new IdentityCache(c, reliable);
      this.cacheEnabled := cacheEnabled;
      this.cacheTTL := cacheTTL;
      this.signed := signed;
      this.revoked := {};
      this.history := {};
      this.stuck := false;
    }

    ghost predicate Sound()
      reads this, cache.store, cache.index, clock
    {
      && GoodIssuer(signed)
      && cache.clock == clock && cache.Valid(IssueOf(signed))
      && (forall v <- history :: Genuine(signed, v) && v.at <= clock.now)
      && AllBacked(signed, history, cache.store.entries)
      && (!stuck ==> cache.Agrees())
      && (cache.reliable ==> !stuck)
    }

    /**
     An identity accepted since `before` is in a reliable cache as long as its time there is
     not over, revoked or not.
     */
    predicate MustHold(token: string, identity: Identity, before: int)
      reads this, cache.store, clock
    {
      && cacheEnabled && cache.reliable && Key(identity.userID) != "" && clock.now < identity.expiresAt
      && clock.now < before + (if cacheTTL > 0 then cacheTTL else 300_000_000_000)
      ==> && token in cache.store.entries && cache.store.entries[token].value.identity == identity
          && clock.now < cache.store.entries[token].value.expiry <= cache.store.entries[token].expiry
    }

    lemma TimeKeepsAgreement(before: int)
      requires before <= clock.now
      requires cache.Valid(IssueOf(signed)) && cache.clock == clock
      requires Agree(cache.store.entries, cache.index.entries, before)
      ensures cache.Agrees()
    {
      StaysGood(cache.store.entries, cache.store.entries, cache.index.entries, IssueOf(signed), before, "",
        cache.index.entries, clock.now);
    }

    method ToIdentity(c: Claims) returns (i: Identity)
      requires Sound()
      modifies clock
      ensures Sound() && old(clock.now) <= clock.now && Reads(c, i)
      ensures c.expiresAt.None? ==> i.expiresAt <= clock.now
    {
      ghost var before := clock.now;
      var now := clock.Now();
      var expiresAt := if c.expiresAt.Some? then c.expiresAt.value else now;
      now := clock.Now();
      var issuedAt := if c.issuedAt.Some? then c.issuedAt.value else now;
      i := Identity(c.subject, c.id, c.metadata, expiresAt, issuedAt, c.tokenType);
      if !stuck {
        TimeKeepsAgreement(before);
      }
    }

    method GetFromCache(token: string) returns (found: Option<Identity>)
      requires Sound()
      modifies cache.store, clock
      ensures Sound() && old(clock.now) <= clock.now
      ensures found.Some? ==>
                && signed(Key(token)).Some?
                && CameFrom(signed, history, Key(token), found.value, clock.now)
                && clock.now <= found.value.expiresAt && signed(Key(token)).value.expiresAt == Some(found.value.expiresAt)
                && found.value.tokenType == AccessToken
      ensures found.None? && cacheEnabled && cache.reliable && Key(token) != "" && Key(token) in old(cache.store.entries) ==>
                var e := old(cache.store.entries)[Key(token)]; clock.now > e.expiry || clock.now > e.value.expiry
    {
      ghost var ids, before := cache.store.entries, clock.now;
      found := None;
      if !cacheEnabled {
        return;
      }
      var ok, cached := cache.Peek(token);
      StaysGood(ids, cache.store.entries, cache.index.entries, IssueOf(signed), before, "", cache.index.entries,
        clock.now);
      if ok && cached.Some? {
        found := Some(cached.value.identity);
        assert Backed(signed, history, Key(token), cached.value);
        ghost var at :| Validated(Key(token), cached.value.identity, at) in history;
        assert Genuine(signed, Validated(Key(token), cached.value.identity, at));
      }
    }

    method AddToCache(token: string, identity: Identity, ghost at: int)
      requires Sound() && Validated(token, identity, at) in history && identity.tokenType == AccessToken
      requires signed(token).value.expiresAt.None? ==> identity.expiresAt <= clock.now
      modifies cache.store, cache.index, clock, this`stuck
      ensures Sound() && old(clock.now) <= clock.now && (old(stuck) ==> stuck)
      ensures var ttl := if cacheTTL <= 0 then DEFAULT_CACHE_TTL else cacheTTL;
              Remembered(old(cache.store.entries), token, identity, cacheEnabled, ttl, cache.store.entries)
      ensures MustHold(token, identity, old(clock.now))
      ensures cache.store.entries != old(cache.store.entries) && token in cache.store.entries ==>
                var c := cache.store.entries[token].value;
                && c.identity == identity && c.expiry <= identity.expiresAt
                && c.expiry <= c.cacheTime + (if cacheTTL > 0 then cacheTTL else 300_000_000_000)
    {
      if !cacheEnabled {
        return;
      }
      var ttl := if cacheTTL <= 0 then DEFAULT_CACHE_TTL else cacheTTL;
      ghost var before := clock.now;
      var now := clock.Now();
      if !stuck {
        TimeKeepsAgreement(before);
      }
      var cacheExpiry := now + ttl;
      if identity.expiresAt < cacheExpiry {
        cacheExpiry := identity.expiresAt;
      }
      if cacheExpiry <= now {
        return;
      }
      IsBacked(signed, history, token, CachedIdentity(identity, cacheExpiry, now), at);
      Store(token, CachedIdentity(identity, cacheExpiry, now), ttl);
    }

    /** The call of `set`, its error logged and dropped. */
    method Store(token: string, cached: CachedIdentity, ghost ttl: int)
      requires Sound() && Backed(signed, history, token, cached) && LastsFor(cached, cached.identity, ttl)
      modifies cache.store, cache.index, clock, this`stuck
      ensures Sound() && old(clock.now) <= clock.now && (old(stuck) ==> stuck)
      ensures Remembered(old(cache.store.entries), token, cached.identity, true, ttl, cache.store.entries)
      ensures cache.reliable && Key(cached.identity.userID) != "" && clock.now < cached.expiry ==>
                && token in cache.store.entries && cache.store.entries[token].value == cached
                && cached.expiry <= cache.store.entries[token].expiry
    {
      ghost var ids, idx, before := cache.store.entries, cache.index.entries, clock.now;
      assert Key(token) == token != "" && cached.identity.tokenID != "";
      var ok;
      ghost var backOutFailed;
      ok, backOutFailed := cache.Set(token, cached, IssueOf(signed));
      AddedStaysSound(signed, history, ids, idx, before, token, cached, ttl, ok, backOutFailed, cache.store.entries,
        cache.index.entries, clock.now);
      stuck := stuck || backOutFailed;
    }

    /** FromToken: the signature must be good and the token in force. */
    method FromToken(token: string) returns (claims: Option<Claims>, ghost at: int)
      requires Sound()
      modifies clock
      ensures Sound() && old(clock.now) <= at == clock.now
      ensures claims == if signed(token).Some? && InForce(signed(token).value, at) then signed(token) else None
    {
      ghost var before := clock.now;
      var now := clock.Now();
      if !stuck {
        TimeKeepsAgreement(before);
      }
      at := now;
      claims := signed(token);
      if claims.Some? && claims.value.expiresAt.Some? && now >= claims.value.expiresAt.value {
        claims := None;
      }
      if claims.Some? && claims.value.notBefore.Some? && now < claims.value.notBefore.value {
        claims := None;
      }
    }

    /** The revocation store, which may be out of reach. */
    method IsRevoked(tokenID: string, reachable: bool) returns (ok: bool, isRevoked: bool)
      ensures ok == reachable && (ok ==> isRevoked == (tokenID in revoked))
    {
      ok := reachable;
      isRevoked := reachable && tokenID in revoked;
    }

    /** `at` is the time the token, or its cached identity, was last checked against the clock. */
    method ValidateToken(token: string, tokenType: TokenType, checkRevoked: bool, reachable: bool)
      returns (r: Validation, ghost at: int)
      requires Sound()
      modifies this`history, this`stuck, cache.store, cache.index, clock
      ensures Sound() && old(clock.now) <= at <= clock.now && old(history) <= history && (old(stuck) ==> stuck)
      ensures Answers(signed, history, revoked, Validate(token, tokenType, checkRevoked, reachable), r, at)
      ensures signed(token).Some? && InForce(signed(token).value, at) && signed(token).value.tokenType == tokenType ==>
                (r.Valid? <==> !(checkRevoked && reachable && signed(token).value.id in revoked))
      ensures r.Valid? && !r.fromCache && tokenType == AccessToken ==> MustHold(token, r.identity, old(clock.now))
    {
      at := clock.now;
      if token == "" {
        return Invalid(EmptyToken), at;
      }
      if cacheEnabled && tokenType == AccessToken && !checkRevoked {
        var found := GetFromCache(token);
        at := clock.now;
        if found.Some? {
          return Valid(found.value, true), at;
        }
      }
      var claims;
      claims, at := FromToken(token);
      if claims.None? {
        return Invalid(BadToken), at;
      }
      if claims.value.tokenType != tokenType {
        return Invalid(TokenTypeMismatch), at;
      }
      if checkRevoked {
        var ok, isRevoked := IsRevoked(claims.value.id, reachable);
        if ok && isRevoked {
          return Invalid(TokenRevoked), at;
        }
      }
      var identity := Accept(token, claims.value, at);
      r := Valid(identity, false);
    }

    /** The end of ValidateToken: the identity is made, and cached if it is an access token's. */
    method Accept(token: string, claims: Claims, ghost at: int) returns (identity: Identity)
      requires Sound() && signed(token) == Some(claims) && at <= clock.now
      requires InForce(claims, at)
      modifies this`history, this`stuck, cache.store, cache.index, clock
      ensures Sound() && old(clock.now) <= clock.now && (old(stuck) ==> stuck)
      ensures history == old(history) + {Validated(token, identity, at)} && Reads(claims, identity)
      ensures claims.tokenType == AccessToken ==> MustHold(token, identity, old(clock.now))
    {
      identity := ToIdentity(claims);
      history := history + {Validated(token, identity, at)};
      if cacheEnabled && claims.tokenType == AccessToken {
        AddToCache(token, identity, at);
      }
    }

    /** `parsed` is what the token says when its signature is not looked at. */
    method RevokeToken(token: string, parsed: Option<Claims>, reachable: bool) returns (ok: bool)
      requires Sound()
      modifies this`revoked, cache.store, cache.index, clock
      ensures Sound() && old(clock.now) <= clock.now
      ensures ok <==> reachable && token != "" && parsed.Some? && parsed.value.id != ""
      ensures revoked == old(revoked) + Revokes(Revoke(token, parsed, reachable))
      ensures ok && cacheEnabled && cache.reliable && Key(token) != "" ==> Key(token) !in cache.store.entries
      ensures || cache.store.entries == old(cache.store.entries)
              || cache.store.entries == old(cache.store.entries) - {Key(token)}
    {
      if token == "" || parsed.None? || parsed.value.id == "" {
        return false;
      }
      if cacheEnabled {
        ghost var ids := cache.store.entries;
        var removed := cache.Delete(token, IssueOf(signed));
        NoTwins(signed, history, ids, Key(token), clock.now);
      }
      ok := reachable;
      if ok {
        revoked := revoked + {parsed.value.id};
      }
    }

    /** `known` are the ids of the user's tokens that the revocation store knows of. */
    method RevokeAllUserTokens(userID: string, exceptTokenID: string, known: set<string>, reachable: bool)
      returns (ok: bool, ghost cleared: bool)
      requires Sound()
      modifies this`revoked, cache.store, cache.index, clock
      ensures Sound() && old(clock.now) <= clock.now
      ensures ok <==> reachable && userID != ""
      ensures revoked == old(revoked) + Revokes(RevokeAll(userID, exceptTokenID, known, reachable))
      ensures Spared(old(cache.store.entries), cache.store.entries, IssueOf(signed), Key(userID), exceptTokenID)
      ensures (cleared || (cacheEnabled && cache.reliable && Key(userID) != "")) && !stuck ==>
                OnlyTokenLeft(cache.store.entries, clock.now, Key(userID), exceptTokenID)
    {
      cleared := false;
      if userID == "" {
        return false, false;
      }
      if cacheEnabled {
        var cacheCleared := cache.DeleteUserTokens(userID, exceptTokenID, IssueOf(signed));
        cleared := cacheCleared;
      }
      ok := reachable;
      if ok {
        revoked := revoked + (known - {exceptTokenID});
      }
    }

    method Answer(request: Request) returns (r: Validation, ghost at: int)
      requires Sound()
      modifies this`history, this`stuck, this`revoked, cache.store, cache.index, clock
      ensures Sound() && old(history) <= history && revoked == old(revoked) + Revokes(request)
      ensures Answers(signed, history, old(revoked), request, r, at)
    {
      r, at := Invalid(EmptyToken), clock.now;
      match request {
        case Validate(token, tokenType, checkRevoked, reachable) =>
          r, at := ValidateToken(token, tokenType, checkRevoked, reachable);
        case Revoke(token, parsed, reachable) =>
          var ok := RevokeToken(token, parsed, reachable);
        case RevokeAll(userID, except, known, reachable) =>
          var ok;
          ghost var cleared;
          ok, cleared := RevokeAllUserTokens(userID, except, known, reachable);
      }
    }

    /** Any run of validations and revocations: each is answered according to all that were made before it. */
    method Serve(requests: seq<Request>) returns (answers: seq<Validation>, ghost times: seq<int>)
      requires Sound()
      modifies this`history, this`stuck, this`revoked, cache.store, cache.index, clock
      ensures Sound() && |answers| == |times| == |requests| && revoked == RevokedAfter(old(revoked), requests)
      ensures AllAnswered(signed, history, old(revoked), requests, answers, times)
    {
      answers, times := [], [];
      for i := 0 to |requests|
        invariant Sound() && |answers| == |times| == i && revoked == RevokedAfter(old(revoked), requests[..i])
        invariant AllAnswered(signed, history, old(revoked), requests, answers, times)
      {
        ghost var h := history;
        ghost var at;
        var r;
        r, at := Answer(requests[i]);
        assert requests[..i + 1][..i] == requests[..i];
        OneMoreAnswered(signed, h, history, old(revoked), requests, answers, times, r, at);
        answers, times := answers + [r], times + [at];
      }
      assert requests[..|requests|] == requests;
    }
  }

  lemma {:induction false} StaysRevoked(revoked: set<string>, requests: seq<Request>, i: nat, j: nat)
    requires i <= j <= |requests|
    ensures RevokedAfter(revoked, requests[..i]) <= RevokedAfter(revoked, requests[..j])
    decreases j
  {
    if i < j {
      StaysRevoked(revoked, requests, i, j - 1);
      assert requests[..j][..j - 1] == requests[..j - 1];
    }
  }

  /**
   A token that was revoked earlier in a run is refused by every later validation that
   checks and reaches the store.
   */
  lemma RevokedIsRefused(signed: Signed, history: set<Validated>, revoked: set<string>, requests: seq<Request>, i: nat,
          j: nat, r: Validation, at: int)
    requires GoodIssuer(signed) && i < j < |requests| && requests[j].Validate?
    requires requests[j].checkRevoked && requests[j].reachable
    requires signed(requests[j].token).Some? && signed(requests[j].token).value.id in Revokes(requests[i])
    requires Answers(signed, history, RevokedAfter(revoked, requests[..j]), requests[j], r, at)
    ensures r.Invalid?
  {
    assert requests[..i + 1][..i] == requests[..i];
    StaysRevoked(revoked, requests, i + 1, j);
  }

  /** After a token was revoked, every validation of it that checks and reaches the store refuses it. */
  lemma RevokeRefuses(signed: Signed, history: set<Validated>, revoked: set<string>, requests: seq<Request>, i: nat,
          j: nat, token: string, c: Claims, r: Validation, at: int)
    requires GoodIssuer(signed) && i < j < |requests| && signed(token) == Some(c)
    requires requests[i] == Revoke(token, Some(c), true)
    requires requests[j].Validate? && requests[j].token == token && requests[j].checkRevoked && requests[j].reachable
    requires Answers(signed, history, RevokedAfter(revoked, requests[..j]), requests[j], r, at)
    ensures r.Invalid?
  {
    RevokedIsRefused(signed, history, revoked, requests, i, j, r, at);
  }

  /** After a user's tokens were revoked, so is each one the store knew of, but for the spared one. */
  lemma RevokeAllRefuses(signed: Signed, history: set<Validated>, revoked: set<string>, requests: seq<Request>, i: nat,
          j: nat, userID: string, except: string, known: set<string>, r: Validation, at: int)
    requires GoodIssuer(signed) && i < j < |requests| && userID != ""
    requires requests[i] == RevokeAll(userID, except, known, true)
    requires requests[j].Validate? && requests[j].checkRevoked && requests[j].reachable
    requires signed(requests[j].token).Some?
    requires signed(requests[j].token).value.id in known && signed(requests[j].token).value.id != except
    requires Answers(signed, history, RevokedAfter(revoked, requests[..j]), requests[j], r, at)
    ensures r.Invalid?
  {
    RevokedIsRefused(signed, history, revoked, requests, i, j, r, at);
  }

  /** The spared token, or one that no request has revoked, stays acceptable to every validation. */
  lemma UnrevokedIsAccepted(signed: Signed, history: set<Validated>, requests: seq<Request>, j: nat, r: Validation, at: int)
    requires GoodIssuer(signed) && j < |requests| && requests[j].Validate? && signed(requests[j].token).Some?
    requires var c := signed(requests[j].token).value;
             && InForce(c, at) && c.tokenType == requests[j].tokenType
             && (forall q <- requests[..j] :: q.Revoke? ==> q.parsed.None? || q.parsed.value.id != c.id)
             && (forall q <- requests[..j] :: q.RevokeAll? ==> q.exceptTokenID == c.id || c.id !in q.known)
    requires Answers(signed, history, RevokedAfter({}, requests[..j]), requests[j], r, at)
    ensures r.Valid?
  {
    NotAmongRevoked(requests[..j], signed(requests[j].token).value.id);
    RevocationDecides(signed, history, RevokedAfter({}, requests[..j]), requests[j], r, at);
  }

  lemma {:induction false} NotAmongRevoked(requests: seq<Request>, id: string)
    requires forall q <- requests :: q.Revoke? ==> q.parsed.None? || q.parsed.value.id != id
    requires forall q <- requests :: q.RevokeAll? ==> q.exceptTokenID == id || id !in q.known
    ensures id !in RevokedAfter({}, requests)
  {
    if requests != [] {
      assert requests[|requests| - 1] in requests;
      NotAmongRevoked(requests[..|requests| - 1], id);
    }
  }

  // ---------------------------------------------------------------- a revoked token that is accepted

  const LASTING: Claims := Claims("user", "id", "", None, None, None, AccessToken)

  function OneToken(t: string): Option<Claims> {
    if t == "t" then Some(LASTING) else None
  }

  /** A token is revoked, with every store in order, and the next validation that does not check accepts it. */
  method UncheckedIsAccepted() returns (revoked: bool, unchecked: Validation, checked: Validation)
    ensures revoked && unchecked.Valid? && checked.Invalid?
  {
    var a := new JwtAuthenticator(OneToken, true, 0, true);
    ghost var at;
    revoked := a.RevokeToken("t", Some(LASTING), true);
    unchecked, at := a.ValidateToken("t", AccessToken, false, true);
    checked, at := a.ValidateToken("t", AccessToken, true, true);
  }
}
