/**
 The cache of validated access-token identities and its index by user
 (internal/jwtauth/identity_cache.go) over the in-memory cache with a lifetime per
 entry (internal/defaultcache/cache.go).

 A call to a store that is not reliable may fail, and then changes nothing; the in-memory
 cache is reliable and fails only for empty keys and lifetimes that are over.  The clock
 moves forward by any amount between two readings.  Nothing is evicted before its time.
 */
module IdentityCache {

  import opened Wrappers

  // ---------------------------------------------------------------- the store

  /** The key an entry is stored under; the empty key is refused. */
  function Key(s: string): string {
    TrimSpace(s)
  }

  datatype Entry<V> = Entry(value: V, expiry: int)

  class Clock {
    var now: int

    constructor ()
    {
      now := 0;
    }

    method Now() returns (t: int)
      modifies this
      ensures t == now && old(now) <= now
    {
      var elapsed: int := *;
      if elapsed > 0 {
        now := now + elapsed;
      }
      t := now;
    }
  }

  /** One namespace of the in-memory cache. */
  class InMemoryCache<V> {
    const clock: Clock
    const reliable: bool
    var entries: map<string, Entry<V>>

    constructor (clock: Clock, reliable: bool)
      ensures this.clock == clock && this.reliable == reliable && entries == map[]
    {
      this.clock := clock;
      this.reliable := reliable;
      entries := map[];
    }

    method Get(key: string) returns (ok: bool, value: Option<V>)
      modifies this, clock
      ensures old(clock.now) <= clock.now
      ensures var k := Key(key);
              if ok && k in old(entries) && clock.now <= old(entries)[k].expiry
              then value == Some(old(entries)[k].value) && entries == old(entries)
              else value == None && entries == (if ok then old(entries) - {k} else old(entries))
      ensures ok ==> Key(key) != ""
      ensures reliable && Key(key) != "" ==> ok
    {
      var broken: bool := *;
      var k := Key(key);
      ok, value := true, None;
      if k == "" || (broken && !reliable) {
        return false, None;
      }
      if k in entries {
        var now := clock.Now();
        if now > entries[k].expiry {
          entries := entries - {k};
        } else {
          value := Some(entries[k].value);
        }
      } else {
        assert entries - {k} == entries;
      }
    }

    method Set(key: string, value: V, ttl: int) returns (ok: bool)
      modifies this, clock
      ensures old(clock.now) <= clock.now
      ensures entries == if ok then old(entries)[Key(key) := Entry(value, clock.now + ttl)] else old(entries)
      ensures ok ==> Key(key) != "" && ttl > 0
      ensures reliable && Key(key) != "" && ttl > 0 ==> ok
    {
      var broken: bool := *;
      var k := Key(key);
      if k == "" || ttl <= 0 || (broken && !reliable) {
        return false;
      }
      var now := clock.Now();
      entries := entries[k := Entry(value, now + ttl)];
      ok := true;
    }

    method Delete(key: string) returns (ok: bool)
      modifies this
      ensures entries == if ok then old(entries) - {Key(key)} else old(entries)
      ensures ok ==> Key(key) != ""
      ensures reliable && Key(key) != "" ==> ok
    {
      var broken: bool := *;
      var k := Key(key);
      if k == "" || (broken && !reliable) {
        return false;
      }
      entries := entries - {k};
      ok := true;
    }
  }

  // ---------------------------------------------------------------- identities and index

  datatype TokenType = AccessToken | RefreshToken

  datatype Identity = Identity(userID: string, tokenID: string, metadata: string,
          expiresAt: int, issuedAt: int, tokenType: TokenType)

  datatype CachedIdentity = CachedIdentity(identity: Identity, expiry: int, cacheTime: int)

  datatype Ref = Ref(cacheKey: string, tokenID: string, expiry: int)

  type Identities = map<string, Entry<CachedIdentity>>
  type Indexes = map<string, Entry<seq<Ref>>>

  predicate Kept(r: Ref, now: int) {
    r.cacheKey != "" && r.tokenID != "" && r.expiry > now
  }

  /** The entries of an index that are complete and not yet expired. */
  function LiveRefs(refs: seq<Ref>, now: int): seq<Ref> {
    if refs == [] then []
    else LiveRefs(refs[..|refs| - 1], now) + if Kept(refs[|refs| - 1], now) then [refs[|refs| - 1]] else []
  }

  lemma {:induction false} InLiveRefs(refs: seq<Ref>, now: int, r: Ref)
    ensures r in LiveRefs(refs, now) <==> r in refs && Kept(r, now)
  {
    if refs != [] {
      InLiveRefs(refs[..|refs| - 1], now, r);
      assert refs == refs[..|refs| - 1] + [refs[|refs| - 1]];
    }
  }

  predicate Matches(r: Ref, next: Ref) {
    r.cacheKey == next.cacheKey || r.tokenID == next.tokenID
  }

  function Replaced(refs: seq<Ref>, next: Ref): (r: seq<Ref>)
    ensures |r| == |refs|
    ensures forall i :: 0 <= i < |refs| ==> r[i] == if Matches(refs[i], next) then next else refs[i]
  {
    if refs == [] then []
    else Replaced(refs[..|refs| - 1], next) + [if Matches(refs[|refs| - 1], next) then next else refs[|refs| - 1]]
  }

  predicate AnyMatches(refs: seq<Ref>, next: Ref) {
    exists r <- refs :: Matches(r, next)
  }

  function Upserted(refs: seq<Ref>, next: Ref): seq<Ref> {
    Replaced(refs, next) + if AnyMatches(refs, next) then [] else [next]
  }

  lemma InUpserted(refs: seq<Ref>, next: Ref, r: Ref)
    ensures r in Upserted(refs, next) <==> r == next || (r in refs && !Matches(r, next))
  {
    var out := Replaced(refs, next);
    if AnyMatches(refs, next) {
      var i :| 0 <= i < |refs| && Matches(refs[i], next);
      assert out[i] == next;
    }
    if r in refs && !Matches(r, next) {
      var i :| 0 <= i < |refs| && refs[i] == r;
      assert out[i] == r;
    }
  }

  predicate Dropped(r: Ref, cacheKey: string, tokenID: string) {
    r.cacheKey == cacheKey || (tokenID != "" && r.tokenID == tokenID)
  }

  function Without(refs: seq<Ref>, cacheKey: string, tokenID: string): seq<Ref> {
    if refs == [] then []
    else
      Without(refs[..|refs| - 1], cacheKey, tokenID)
      + if Dropped(refs[|refs| - 1], cacheKey, tokenID) then [] else [refs[|refs| - 1]]
  }

  lemma {:induction false} InWithout(refs: seq<Ref>, cacheKey: string, tokenID: string, r: Ref)
    ensures r in Without(refs, cacheKey, tokenID) <==> r in refs && !Dropped(r, cacheKey, tokenID)
  {
    if refs != [] {
      InWithout(refs[..|refs| - 1], cacheKey, tokenID, r);
      assert refs == refs[..|refs| - 1] + [refs[|refs| - 1]];
    }
  }

  lemma UpsertContents(refs: seq<Ref>, next: Ref)
    ensures forall r :: r in Upserted(refs, next)
                   <==> r == next || (r in refs && r.cacheKey != next.cacheKey && r.tokenID != next.tokenID)
  {
    forall r: Ref
      ensures r in Upserted(refs, next) <==> r == next || (r in refs && !Matches(r, next))
    {
      InUpserted(refs, next, r);
    }
  }

  lemma WithoutContents(refs: seq<Ref>, cacheKey: string, tokenID: string)
    ensures forall r :: r in Without(refs, cacheKey, tokenID)
                   <==> r in refs && r.cacheKey != cacheKey && (tokenID == "" || r.tokenID != tokenID)
  {
    forall r: Ref
      ensures r in Without(refs, cacheKey, tokenID) <==> r in refs && !Dropped(r, cacheKey, tokenID)
    {
      InWithout(refs, cacheKey, tokenID, r);
    }
  }

  /** Of a list, the complete entries that last beyond `now`. */
  predicate IsLivePart(live: seq<Ref>, refs: seq<Ref>, now: int) {
    && (forall r <- live :: r in refs && r.cacheKey != "" && r.tokenID != "" && r.expiry > now)
    && (forall r <- refs :: r.cacheKey != "" && r.tokenID != "" && r.expiry > now ==> r in live)
  }

  lemma LiveContents(refs: seq<Ref>, now: int)
    ensures IsLivePart(LiveRefs(refs, now), refs, now)
  {
    forall r: Ref
      ensures r in LiveRefs(refs, now) <==> r in refs && Kept(r, now)
    {
      InLiveRefs(refs, now, r);
    }
  }

  lemma OneMoreMatches(refs: seq<Ref>, i: nat, next: Ref)
    requires i < |refs|
    ensures AnyMatches(refs[..i + 1], next) <==> AnyMatches(refs[..i], next) || Matches(refs[i], next)
  {
    assert refs[..i + 1] == refs[..i] + [refs[i]];
  }

  method UpsertUserIndexToken(refs: seq<Ref>, next: Ref) returns (out: seq<Ref>)
    ensures out == Upserted(refs, next)
    ensures forall r :: r in out <==> r == next || (r in refs && r.cacheKey != next.cacheKey && r.tokenID != next.tokenID)
  {
    var updated := false;
    out := [];
    for i := 0 to |refs|
      invariant out == Replaced(refs[..i], next) && updated == AnyMatches(refs[..i], next)
    {
      assert refs[..i + 1][..i] == refs[..i];
      OneMoreMatches(refs, i, next);
      if refs[i].cacheKey == next.cacheKey || refs[i].tokenID == next.tokenID {
        out := out + [next];
        updated := true;
      } else {
        out := out + [refs[i]];
      }
    }
    assert refs[..|refs|] == refs;
    if !updated {
      out := out + [next];
    }
    UpsertContents(refs, next);
  }

  method RemoveUserIndexToken(refs: seq<Ref>, cacheKey: string, tokenID: string) returns (out: seq<Ref>)
    ensures out == Without(refs, cacheKey, tokenID)
    ensures forall r :: r in out <==> r in refs && r.cacheKey != cacheKey && (tokenID == "" || r.tokenID != tokenID)
  {
    WithoutContents(refs, cacheKey, tokenID);
    out := [];
    for i := 0 to |refs|
      invariant out == Without(refs[..i], cacheKey, tokenID)
    {
      assert refs[..i + 1][..i] == refs[..i];
      if refs[i].cacheKey == cacheKey || (tokenID != "" && refs[i].tokenID == tokenID) {
        continue;
      }
      out := out + [refs[i]];
    }
    assert refs[..|refs|] == refs;
  }

  // ---------------------------------------------------------------- agreement

  /** What a signed token says: the index key of its user, and its token id. */
  datatype Claim = Claim(user: string, tokenID: string)

  type Issue = string -> Claim

  /** Index entries outlive what they list. */
  ghost predicate Covers(idx: Indexes) {
    forall u <- idx, r <- idx[u].value :: r.expiry <= idx[u].expiry
  }

  /** Identities and index entries say what their token says. */
  ghost predicate Truthful(ids: Identities, idx: Indexes, issue: Issue) {
    && (forall k <- ids :: issue(k) == Claim(Key(ids[k].value.identity.userID), ids[k].value.identity.tokenID))
    && forall u <- idx, r <- idx[u].value :: Key(r.cacheKey) != "" && issue(Key(r.cacheKey)) == Claim(u, r.tokenID)
  }

  /** The entry is that of the identity under the key. */
  predicate ListsIt(r: Ref, k: string, c: CachedIdentity) {
    && Key(r.cacheKey) == k && r.cacheKey != ""
    && r.tokenID == c.identity.tokenID != "" && r.expiry == c.expiry
  }

  predicate Listed(idx: Indexes, k: string, c: CachedIdentity) {
    var u := Key(c.identity.userID);
    && u in idx
    && idx[u].expiry >= c.expiry
    && exists r <- idx[u].value :: ListsIt(r, k, c)
  }

  predicate LiveAt(ids: Identities, k: string, now: int) {
    k in ids && ids[k].value.expiry > now
  }

  /** Every cached identity that has not expired is listed in its user's index. */
  ghost predicate Agree(ids: Identities, idx: Indexes, now: int) {
    forall k :: LiveAt(ids, k, now) ==> Listed(idx, k, ids[k].value)
  }

  /** Another live token carries the same user and token id. */
  ghost predicate HasTwin(ids: Identities, k: string, issue: Issue, now: int) {
    exists k' :: k' != k && LiveAt(ids, k', now) && issue(k') == issue(k)
  }

  /** The index after one user's list is rewritten: the list as read, changed, and filtered. */
  predicate Rewritten(idx: Indexes, u: string, refs: seq<Ref>, idx': Indexes) {
    if refs == [] then idx' == idx - {u}
    else u in idx' && idx' == idx[u := Entry(refs, idx'[u].expiry)] && forall r <- refs :: r.expiry <= idx'[u].expiry
  }

  function RefsOf(idx: Indexes, u: string): seq<Ref> {
    if u in idx then idx[u].value else []
  }

  lemma ListedInRefs(idx: Indexes, k: string, c: CachedIdentity) returns (r: Ref)
    requires Listed(idx, k, c)
    ensures r in RefsOf(idx, Key(c.identity.userID))
    ensures Key(r.cacheKey) == k && r.cacheKey != "" && r.tokenID == c.identity.tokenID != "" && r.expiry == c.expiry
  {
    var u := Key(c.identity.userID);
    r :| r in idx[u].value && ListsIt(r, k, c);
  }

  lemma RefsListIt(idx: Indexes, u: string, refs: seq<Ref>, idx': Indexes, k: string, c: CachedIdentity, r: Ref)
    requires Rewritten(idx, u, refs, idx') && u == Key(c.identity.userID) && r in refs
    requires Key(r.cacheKey) == k && r.cacheKey != "" && r.tokenID == c.identity.tokenID != "" && r.expiry == c.expiry
    ensures Listed(idx', k, c)
  {
  }

  /** The list of a user after `next` is put in: read at `t1`, written at `t2`. */
  function AfterUpsert(idx: Indexes, next: Ref, u: string, t1: int, t2: int): seq<Ref> {
    LiveRefs(Upserted(LiveRefs(RefsOf(idx, u), t1), next), t2)
  }

  lemma InAfterUpsert(idx: Indexes, next: Ref, u: string, t1: int, t2: int, r: Ref)
    ensures r in AfterUpsert(idx, next, u, t1, t2)
       <==> Kept(r, t2) && (r == next || (r in RefsOf(idx, u) && Kept(r, t1) && !Matches(r, next)))
  {
    InLiveRefs(RefsOf(idx, u), t1, r);
    InUpserted(LiveRefs(RefsOf(idx, u), t1), next, r);
    InLiveRefs(Upserted(LiveRefs(RefsOf(idx, u), t1), next), t2, r);
  }

  /**
   Putting an identity in keeps the index in agreement when its token id is not empty and
   no other live token shares user and token id, and, while it is live, only then.
   */
  lemma StoreAgreesIff(ids: Identities, idx: Indexes, issue: Issue, before: int, token: string, c: CachedIdentity,
          expiry: int, t1: int, t2: int, idx': Indexes, now: int)
    requires Agree(ids, idx, before) && Truthful(ids, idx, issue)
    requires before <= t1 <= t2 <= now
    requires token != "" && issue(Key(token)) == Claim(Key(c.identity.userID), c.identity.tokenID)
    requires var next := Ref(token, c.identity.tokenID, c.expiry);
             Rewritten(idx, Key(c.identity.userID), AfterUpsert(idx, next, Key(c.identity.userID), t1, t2), idx')
    ensures var ids' := ids[Key(token) := Entry(c, expiry)];
            c.identity.tokenID != "" && !HasTwin(ids, Key(token), issue, now) ==> Agree(ids', idx', now)
    ensures var ids' := ids[Key(token) := Entry(c, expiry)];
            now < c.expiry && Agree(ids', idx', now) ==> c.identity.tokenID != "" && !HasTwin(ids, Key(token), issue, now)
  {
    var k := Key(token);
    if c.identity.tokenID != "" && !HasTwin(ids, k, issue, now) {
      StoreAgrees(ids, idx, issue, before, token, c, expiry, t1, t2, idx', now);
    } else if HasTwin(ids, k, issue, now) {
      TwinBreaksAgreement(ids, idx, issue, token, c, expiry, t1, t2, idx', now);
    } else {
      assert now < c.expiry ==> LiveAt(ids[k := Entry(c, expiry)], k, now) && !Listed(idx', k, c);
    }
  }

  lemma TwinBreaksAgreement(ids: Identities, idx: Indexes, issue: Issue, token: string, c: CachedIdentity, expiry: int,
          t1: int, t2: int, idx': Indexes, now: int)
    requires Truthful(ids, idx, issue) && issue(Key(token)) == Claim(Key(c.identity.userID), c.identity.tokenID)
    requires HasTwin(ids, Key(token), issue, now)
    requires var next := Ref(token, c.identity.tokenID, c.expiry);
             Rewritten(idx, Key(c.identity.userID), AfterUpsert(idx, next, Key(c.identity.userID), t1, t2), idx')
    ensures !Agree(ids[Key(token) := Entry(c, expiry)], idx', now)
  {
    var k := Key(token);
    var k' :| k' != k && LiveAt(ids, k', now) && issue(k') == issue(k);
    TwinIsUnlisted(ids, idx, issue, token, c, t1, t2, idx', k');
    assert LiveAt(ids[k := Entry(c, expiry)], k', now);
  }

  lemma StoreAgrees(ids: Identities, idx: Indexes, issue: Issue, before: int, token: string, c: CachedIdentity,
          expiry: int, t1: int, t2: int, idx': Indexes, now: int)
    requires Agree(ids, idx, before) && Truthful(ids, idx, issue)
    requires before <= t1 <= t2 <= now && token != ""
    requires issue(Key(token)) == Claim(Key(c.identity.userID), c.identity.tokenID)
    requires c.identity.tokenID != "" && !HasTwin(ids, Key(token), issue, now)
    requires var next := Ref(token, c.identity.tokenID, c.expiry);
             Rewritten(idx, Key(c.identity.userID), AfterUpsert(idx, next, Key(c.identity.userID), t1, t2), idx')
    ensures Agree(ids[Key(token) := Entry(c, expiry)], idx', now)
  {
    var k, u := Key(token), Key(c.identity.userID);
    var next := Ref(token, c.identity.tokenID, c.expiry);
    var refs := AfterUpsert(idx, next, u, t1, t2);
    var ids' := ids[k := Entry(c, expiry)];
    forall k' | LiveAt(ids', k', now)
      ensures Listed(idx', k', ids'[k'].value)
    {
      if k' == k {
        InAfterUpsert(idx, next, u, t1, t2, next);
        RefsListIt(idx, u, refs, idx', k, c, next);
      } else {
        assert LiveAt(ids, k', now);
        OthersStayListed(ids, idx, issue, before, token, c, t1, t2, idx', now, k');
      }
    }
  }

  lemma OthersStayListed(ids: Identities, idx: Indexes, issue: Issue, before: int, token: string, c: CachedIdentity,
          t1: int, t2: int, idx': Indexes, now: int, k': string)
    requires Agree(ids, idx, before) && Truthful(ids, idx, issue)
    requires before <= t1 <= t2 <= now
    requires issue(Key(token)) == Claim(Key(c.identity.userID), c.identity.tokenID)
    requires var next := Ref(token, c.identity.tokenID, c.expiry);
             Rewritten(idx, Key(c.identity.userID), AfterUpsert(idx, next, Key(c.identity.userID), t1, t2), idx')
    requires k' != Key(token) && LiveAt(ids, k', now) && issue(k') != issue(Key(token))
    ensures Listed(idx', k', ids[k'].value)
  {
    var u := Key(c.identity.userID);
    var next := Ref(token, c.identity.tokenID, c.expiry);
    var c' := ids[k'].value;
    assert LiveAt(ids, k', before);
    if Key(c'.identity.userID) == u {
      var r := ListedInRefs(idx, k', c');
      InAfterUpsert(idx, next, u, t1, t2, r);
      RefsListIt(idx, u, AfterUpsert(idx, next, u, t1, t2), idx', k', c', r);
    }
  }

  lemma TwinIsUnlisted(ids: Identities, idx: Indexes, issue: Issue, token: string, c: CachedIdentity, t1: int, t2: int,
          idx': Indexes, k': string)
    requires Truthful(ids, idx, issue)
    requires issue(Key(token)) == Claim(Key(c.identity.userID), c.identity.tokenID)
    requires var next := Ref(token, c.identity.tokenID, c.expiry);
             Rewritten(idx, Key(c.identity.userID), AfterUpsert(idx, next, Key(c.identity.userID), t1, t2), idx')
    requires k' != Key(token) && k' in ids && issue(k') == issue(Key(token))
    ensures !Listed(idx', k', ids[k'].value)
  {
    var u := Key(c.identity.userID);
    var next := Ref(token, c.identity.tokenID, c.expiry);
    if Listed(idx', k', ids[k'].value) {
      var r := ListedInRefs(idx', k', ids[k'].value);
      InAfterUpsert(idx, next, u, t1, t2, r);
    }
  }

  /** Taking one token out keeps agreement when no other live token shares its id. */
  lemma RemoveAgrees(ids: Identities, idx: Indexes, issue: Issue, before: int, token: string, tokenID: string,
          u: string, t1: int, t2: int, idx': Indexes, now: int)
    requires Agree(ids, idx, before) && Truthful(ids, idx, issue)
    requires before <= t1 <= t2 <= now && issue(Key(token)) == Claim(u, tokenID)
    requires Rewritten(idx, u, LiveRefs(Without(LiveRefs(RefsOf(idx, u), t1), token, tokenID), t2), idx')
    requires !HasTwin(ids, Key(token), issue, now) && Key(token) !in ids
    ensures Agree(ids, idx', now)
  {
    forall k | LiveAt(ids, k, now)
      ensures Listed(idx', k, ids[k].value)
    {
      assert LiveAt(ids, k, before);
      var c := ids[k].value;
      if Key(c.identity.userID) == u {
        var r := ListedInRefs(idx, k, c);
        InLiveRefs(RefsOf(idx, u), t1, r);
        InWithout(LiveRefs(RefsOf(idx, u), t1), token, tokenID, r);
        InLiveRefs(Without(LiveRefs(RefsOf(idx, u), t1), token, tokenID), t2, r);
        RefsListIt(idx, u, LiveRefs(Without(LiveRefs(RefsOf(idx, u), t1), token, tokenID), t2), idx', k, c, r);
      }
    }
  }

  /** Keeping only the entries of one token id keeps agreement when the user's other identities are gone. */
  lemma KeepOnlyAgrees(ids: Identities, ids': Identities, idx: Indexes, before: int, except: string, u: string,
          kept: seq<Ref>, t2: int, idx': Indexes, now: int)
    requires Agree(ids, idx, before) && before <= t2 <= now && Shrunk(ids, ids')
    requires forall r :: r in kept <==> r in RefsOf(idx, u) && Kept(r, before) && r.tokenID == except
    requires Rewritten(idx, u, LiveRefs(kept, t2), idx')
    requires OnlyTokenLeft(ids', now, u, except)
    ensures Agree(ids', idx', now)
  {
    forall k | LiveAt(ids', k, now)
      ensures Listed(idx', k, ids'[k].value)
    {
      var c := ids'[k].value;
      assert LiveAt(ids, k, before);
      if Key(c.identity.userID) == u {
        var r := ListedInRefs(idx, k, c);
        InLiveRefs(kept, t2, r);
        RefsListIt(idx, u, LiveRefs(kept, t2), idx', k, c, r);
      }
    }
  }

  lemma NothingLive(refs: seq<Ref>, at: int, now: int, max: int)
    requires at <= now && max <= now && forall r <- LiveRefs(refs, at) :: r.expiry <= max
    ensures LiveRefs(refs, now) == []
  {
    var live := LiveRefs(refs, now);
    if live != [] {
      InLiveRefs(refs, now, live[0]);
      InLiveRefs(refs, at, live[0]);
    }
  }

  /** The index as a reader leaves it: an entry past its expiry is gone. */
  predicate Purged(idx: Indexes, u: string, idx': Indexes, now: int) {
    idx' == idx || (idx' == idx - {u} && u in idx && idx[u].expiry < now)
  }

  lemma PurgeAgrees(ids: Identities, ids': Identities, idx: Indexes, before: int, u: string, idx': Indexes, now: int)
    requires Agree(ids, idx, before) && before <= now && Purged(idx, u, idx', now)
    requires Shrunk(ids, ids')
    ensures Agree(ids', idx', now)
  {
    forall k | LiveAt(ids', k, now)
      ensures Listed(idx', k, ids'[k].value)
    {
      assert LiveAt(ids, k, before);
    }
  }

  /** The identities after one more was put in. */
  predicate Holds(ids: Identities, k: string, c: CachedIdentity, ids': Identities) {
    k in ids' && ids' == ids[k := Entry(c, ids'[k].expiry)]
  }

  lemma RewrittenIsTruthful(ids: Identities, idx: Indexes, issue: Issue, u: string, refs: seq<Ref>, idx': Indexes)
    requires Truthful(ids, idx, issue) && Rewritten(idx, u, refs, idx')
    requires forall r <- refs :: Key(r.cacheKey) != "" && issue(Key(r.cacheKey)) == Claim(u, r.tokenID)
    ensures Truthful(ids, idx', issue)
  {
  }

  lemma FewerIsTruthful(ids: Identities, idx: Indexes, issue: Issue, u: string, refs: seq<Ref>, idx': Indexes)
    requires Truthful(ids, idx, issue) && Rewritten(idx, u, refs, idx')
    requires forall r <- refs :: r in RefsOf(idx, u)
    ensures Truthful(ids, idx', issue)
  {
    forall r <- refs
      ensures Key(r.cacheKey) != "" && issue(Key(r.cacheKey)) == Claim(u, r.tokenID)
    {
      assert u in idx;
    }
    RewrittenIsTruthful(ids, idx, issue, u, refs, idx');
  }

  lemma NextIsLive(refs: seq<Ref>, next: Ref, t1: int, now: int)
    ensures Kept(next, now) ==> LiveRefs(Upserted(LiveRefs(refs, t1), next), now) != []
  {
    InUpserted(LiveRefs(refs, t1), next, next);
    InLiveRefs(Upserted(LiveRefs(refs, t1), next), now, next);
  }

  lemma AddedIsTruthful(ids: Identities, idx: Indexes, issue: Issue, k: string, c: CachedIdentity, ids': Identities)
    requires Truthful(ids, idx, issue) && issue(k) == Claim(Key(c.identity.userID), c.identity.tokenID)
    requires Holds(ids, k, c, ids')
    ensures Truthful(ids', idx, issue)
  {
  }

  lemma UpsertIsTruthful(ids: Identities, idx: Indexes, issue: Issue, token: string, c: CachedIdentity,
          ids': Identities, t1: int, t2: int, idx': Indexes)
    requires Truthful(ids, idx, issue) && issue(Key(token)) == Claim(Key(c.identity.userID), c.identity.tokenID)
    requires Holds(ids, Key(token), c, ids') && Key(token) != ""
    requires var next := Ref(token, c.identity.tokenID, c.expiry);
             Rewritten(idx, Key(c.identity.userID), AfterUpsert(idx, next, Key(c.identity.userID), t1, t2), idx')
    ensures Truthful(ids', idx', issue)
  {
    var next := Ref(token, c.identity.tokenID, c.expiry);
    var u := Key(c.identity.userID);
    var refs := AfterUpsert(idx, next, u, t1, t2);
    AddedIsTruthful(ids, idx, issue, Key(token), c, ids');
    forall r <- refs
      ensures Key(r.cacheKey) != "" && issue(Key(r.cacheKey)) == Claim(u, r.tokenID)
    {
      InAfterUpsert(idx, next, u, t1, t2, r);
    }
    RewrittenIsTruthful(ids', idx, issue, u, refs, idx');
  }

  predicate Shrunk(ids: Identities, ids': Identities) {
    forall k <- ids' :: k in ids && ids'[k] == ids[k]
  }

  /** Time, expired index entries going and identities going cost nothing. */
  lemma StaysGood(ids: Identities, ids': Identities, idx: Indexes, issue: Issue, before: int, u: string, idx': Indexes,
          now: int)
    requires Truthful(ids, idx, issue) && before <= now && Shrunk(ids, ids') && Purged(idx, u, idx', now)
    ensures Truthful(ids', idx', issue)
    ensures Agree(ids, idx, before) ==> Agree(ids', idx', now)
  {
    if Agree(ids, idx, before) {
      PurgeAgrees(ids, ids', idx, before, u, idx', now);
    }
  }

  /** What a successful `delete` comes to once the identity is gone. */
  lemma DeleteSucceeded(ids: Identities, idx: Indexes, issue: Issue, t1: int, token: string, tokenID: string, u: string,
          t2: int, idx': Indexes, now: int)
    requires Truthful(ids, idx, issue) && Key(token) !in ids && issue(Key(token)) == Claim(u, tokenID)
    requires t1 <= t2 <= now
    requires Rewritten(idx, u, LiveRefs(Without(LiveRefs(RefsOf(idx, u), t1), token, tokenID), t2), idx')
    ensures Truthful(ids, idx', issue)
    ensures Agree(ids, idx, t1) && !HasTwin(ids, Key(token), issue, now) ==> Agree(ids, idx', now)
  {
    var refs := LiveRefs(Without(LiveRefs(RefsOf(idx, u), t1), token, tokenID), t2);
    forall r <- refs
      ensures r in RefsOf(idx, u)
    {
      InLiveRefs(RefsOf(idx, u), t1, r);
      InWithout(LiveRefs(RefsOf(idx, u), t1), token, tokenID, r);
      InLiveRefs(Without(LiveRefs(RefsOf(idx, u), t1), token, tokenID), t2, r);
    }
    FewerIsTruthful(ids, idx, issue, u, refs, idx');
    if Agree(ids, idx, t1) && !HasTwin(ids, Key(token), issue, now) {
      RemoveAgrees(ids, idx, issue, t1, token, tokenID, u, t1, t2, idx', now);
    }
  }

  /** Nothing but the user's other tokens was taken out. */
  predicate Spared(ids: Identities, ids': Identities, issue: Issue, u: string, except: string) {
    && Shrunk(ids, ids')
    && forall k <- ids :: issue(k).user != u || issue(k).tokenID == except ==> k in ids'
  }

  /** No live identity of the user is left but those with the spared token id. */
  ghost predicate OnlyTokenLeft(ids: Identities, now: int, u: string, except: string) {
    forall k :: LiveAt(ids, k, now) && Key(ids[k].value.identity.userID) == u ==> ids[k].value.identity.tokenID == except
  }

  /** The list a user's other tokens were deleted by: what was kept, and that the rest is gone. */
  ghost predicate Cleared(ids: Identities, refs: seq<Ref>, except: string, kept: seq<Ref>) {
    && (forall r :: r in kept <==> r in refs && r.tokenID == except)
    && forall r <- refs :: r.tokenID != except ==> Key(r.cacheKey) !in ids
  }

  lemma RefKept(ids: Identities, refs: seq<Ref>, except: string, kept: seq<Ref>, r: Ref)
    requires Cleared(ids, refs, except, kept) && r.tokenID == except
    ensures Cleared(ids, refs + [r], except, kept + [r])
  {
  }

  lemma RefDeleted(was: Identities, ids: Identities, issue: Issue, u: string, refs: seq<Ref>, except: string,
          kept: seq<Ref>, r: Ref)
    requires Spared(was, ids, issue, u, except) && Cleared(ids, refs, except, kept)
    requires r.tokenID != except && issue(Key(r.cacheKey)) == Claim(u, r.tokenID)
    ensures Spared(was, ids - {Key(r.cacheKey)}, issue, u, except)
    ensures Cleared(ids - {Key(r.cacheKey)}, refs + [r], except, kept)
  {
  }

  lemma ClearedLeavesOne(ids: Identities, ids': Identities, idx: Indexes, t1: int, u: string, except: string,
          kept: seq<Ref>, now: int)
    requires Agree(ids, idx, t1) && t1 <= now && Shrunk(ids, ids')
    requires Cleared(ids', LiveRefs(RefsOf(idx, u), t1), except, kept)
    ensures OnlyTokenLeft(ids', now, u, except)
  {
    forall k | LiveAt(ids', k, now) && Key(ids'[k].value.identity.userID) == u
      ensures ids'[k].value.identity.tokenID == except
    {
      assert LiveAt(ids, k, t1);
      var r := ListedInRefs(idx, k, ids[k].value);
      InLiveRefs(RefsOf(idx, u), t1, r);
    }
  }

  lemma ClearSucceeded(ids: Identities, ids': Identities, idx: Indexes, issue: Issue, t1: int, u: string,
          except: string, kept: seq<Ref>, t2: int, idx': Indexes, now: int)
    requires Truthful(ids, idx, issue) && t1 <= t2 <= now && Shrunk(ids, ids')
    requires Cleared(ids', LiveRefs(RefsOf(idx, u), t1), except, kept)
    requires Rewritten(idx, u, LiveRefs(kept, t2), idx')
    ensures Truthful(ids', idx', issue)
    ensures Agree(ids, idx, t1) ==> Agree(ids', idx', now) && OnlyTokenLeft(ids', now, u, except)
  {
    forall r
      ensures r in kept <==> r in RefsOf(idx, u) && Kept(r, t1) && r.tokenID == except
    {
      InLiveRefs(RefsOf(idx, u), t1, r);
    }
    forall r <- LiveRefs(kept, t2)
      ensures r in RefsOf(idx, u)
    {
      InLiveRefs(kept, t2, r);
    }
    FewerIsTruthful(ids', idx, issue, u, LiveRefs(kept, t2), idx');
    if Agree(ids, idx, t1) {
      ClearedLeavesOne(ids, ids', idx, t1, u, except, kept, now);
      KeepOnlyAgrees(ids, ids', idx, t1, except, u, kept, t2, idx', now);
    }
  }

  /** What `set` promises; `stuck` says that an index call failed and so did the delete that was to back out. */
  ghost predicate SetOutcome(ids: Identities, idx: Indexes, before: int, issue: Issue, token: string, c: CachedIdentity,
          ok: bool, stuck: bool, ids': Identities, idx': Indexes, now: int)
  {
    var k := Key(token);
    && Truthful(ids', idx', issue)
    && (if ok || stuck then Holds(ids, k, c, ids') else ids' == ids || ids' == ids - {k})
    && !(ok && stuck)
    && (Agree(ids, idx, before) ==>
          && (!ok && !stuck ==> Agree(ids', idx', now))
          && (stuck && now < c.expiry ==> (Agree(ids', idx', now) <==> Listed(idx, k, c)))
          && (ok && c.identity.tokenID != "" && !HasTwin(ids, k, issue, now) ==> Agree(ids', idx', now))
          && (ok && now < c.expiry && Agree(ids', idx', now) ==> c.identity.tokenID != "" && !HasTwin(ids, k, issue, now)))
  }

  lemma SetSucceeded(ids: Identities, idx: Indexes, issue: Issue, before: int, token: string, c: CachedIdentity,
          ids': Identities, idx1: Indexes, t1: int, t2: int, idx2: Indexes, now: int)
    requires Truthful(ids, idx, issue) && issue(Key(token)) == Claim(Key(c.identity.userID), c.identity.tokenID)
    requires before <= t1 <= t2 <= now && Key(token) != ""
    requires Holds(ids, Key(token), c, ids') && Purged(idx, Key(c.identity.userID), idx1, t1)
    requires var next := Ref(token, c.identity.tokenID, c.expiry);
             Rewritten(idx1, Key(c.identity.userID), AfterUpsert(idx1, next, Key(c.identity.userID), t1, t2), idx2)
    ensures SetOutcome(ids, idx, before, issue, token, c, true, false, ids', idx2, now)
  {
    UpsertIsTruthful(ids, idx1, issue, token, c, ids', t1, t2, idx2);
    if Agree(ids, idx, before) {
      PurgeAgrees(ids, ids, idx, before, Key(c.identity.userID), idx1, t1);
      StoreAgreesIff(ids, idx1, issue, t1, token, c, ids'[Key(token)].expiry, t1, t2, idx2, now);
    }
  }

  lemma SetBackedOut(ids: Identities, idx: Indexes, issue: Issue, before: int, token: string, c: CachedIdentity,
          ids': Identities, idx': Indexes, now: int)
    requires Truthful(ids, idx, issue) && before <= now
    requires ids' == ids || ids' == ids - {Key(token)}
    requires Purged(idx, Key(c.identity.userID), idx', now)
    ensures SetOutcome(ids, idx, before, issue, token, c, false, false, ids', idx', now)
  {
    if Agree(ids, idx, before) {
      PurgeAgrees(ids, ids', idx, before, Key(c.identity.userID), idx', now);
    }
  }

  lemma SetStuck(ids: Identities, idx: Indexes, issue: Issue, before: int, token: string, c: CachedIdentity,
          ids': Identities, idx': Indexes, now: int)
    requires Truthful(ids, idx, issue) && issue(Key(token)) == Claim(Key(c.identity.userID), c.identity.tokenID)
    requires Holds(ids, Key(token), c, ids') && Purged(idx, Key(c.identity.userID), idx', now)
    requires before <= now
    ensures SetOutcome(ids, idx, before, issue, token, c, false, true, ids', idx', now)
  {
    if Agree(ids, idx, before) && now < c.expiry {
      assert LiveAt(ids', Key(token), now);
      forall k | LiveAt(ids', k, now) && k != Key(token)
        ensures Listed(idx', k, ids'[k].value)
      {
        assert LiveAt(ids, k, before);
      }
    }
  }

  // ---------------------------------------------------------------- the identity cache

  class IdentityCache {
    const clock: Clock
    const store: InMemoryCache<CachedIdentity>
    const index: InMemoryCache<seq<Ref>>
    const reliable: bool

    constructor (clock: Clock, reliable: bool)
      ensures this.clock == clock && this.reliable == reliable && fresh(store) && fresh(index)
      ensures WellFormed() && store.entries == map[] && index.entries == map[]
    {
      this.clock := clock;
      this.reliable := reliable;
      this.store := new InMemoryCache(clock, reliable);
      this.index := new InMemoryCache(clock, reliable);
    }

    ghost predicate WellFormed()
      reads index
    {
      store.clock == clock && index.clock == clock && store.reliable == index.reliable == reliable && Covers(index.entries)
    }

    ghost predicate Valid(issue: Issue)
      reads store, index
    {
      WellFormed() && Truthful(store.entries, index.entries, issue)
    }

    ghost predicate Agrees()
      reads store, index, clock
    {
      Agree(store.entries, index.entries, clock.now)
    }

    /** loadUserIndexLocked; `at` is the time by which the entries were filtered. */
    method LoadUserIndex(userID: string) returns (ok: bool, refs: seq<Ref>, ghost at: int)
      requires WellFormed()
      modifies index, clock
      ensures WellFormed() && old(clock.now) <= at <= clock.now
      ensures Purged(old(index.entries), Key(userID), index.entries, at)
      ensures ok ==> refs == LiveRefs(RefsOf(index.entries, Key(userID)), at)
      ensures ok ==> IsLivePart(refs, RefsOf(index.entries, Key(userID)), at)
      ensures !ok ==> index.entries == old(index.entries)
      ensures reliable && Key(userID) != "" ==> ok
    {
      var value;
      ok, value := index.Get(userID);
      refs, at := [], clock.now;
      LiveContents(RefsOf(index.entries, Key(userID)), at);
      if !ok || value.None? {
        return;
      }
      var now := clock.Now();
      at := now;
      var tokens := value.value;
      LiveContents(tokens, now);
      for i := 0 to |tokens|
        invariant refs == LiveRefs(tokens[..i], now)
      {
        assert tokens[..i + 1][..i] == tokens[..i];
        if tokens[i].cacheKey == "" || tokens[i].tokenID == "" || tokens[i].expiry <= now {
          continue;
        }
        refs := refs + [tokens[i]];
      }
      assert tokens[..|tokens|] == tokens;
    }

    /** The loop of writeUserIndexLocked: the entries that last, and how long the last of them does. */
    method FilterIndex(refs: seq<Ref>, now: int) returns (filtered: seq<Ref>, maxExpiry: Option<int>)
      ensures filtered == LiveRefs(refs, now)
      ensures filtered == [] <==> maxExpiry.None?
      ensures maxExpiry.Some? ==> exists r <- filtered :: r.expiry == maxExpiry.value
      ensures forall r <- filtered :: r.expiry <= maxExpiry.value
    {
      filtered, maxExpiry := [], None;
      ghost var longest := Ref("", "", 0);
      for i := 0 to |refs|
        invariant filtered == LiveRefs(refs[..i], now)
        invariant filtered == [] <==> maxExpiry.None?
        invariant maxExpiry.Some? ==> longest in filtered && longest.expiry == maxExpiry.value
        invariant forall r <- filtered :: r.expiry <= maxExpiry.value
      {
        assert refs[..i + 1][..i] == refs[..i];
        if refs[i].cacheKey == "" || refs[i].tokenID == "" || refs[i].expiry <= now {
          continue;
        }
        filtered := filtered + [refs[i]];
        if maxExpiry.None? || refs[i].expiry > maxExpiry.value {
          maxExpiry, longest := Some(refs[i].expiry), refs[i];
        }
      }
      assert refs[..|refs|] == refs;
    }

    /**
     writeUserIndexLocked; `at` is the time by which the entries were filtered.  The list
     lasts as long as the last of its entries, and no longer than the call took beyond that.
     */
    method WriteUserIndex(userID: string, refs: seq<Ref>) returns (ok: bool, ghost at: int)
      requires WellFormed()
      modifies index, clock
      ensures WellFormed() && old(clock.now) <= at <= clock.now
      ensures if ok then Rewritten(old(index.entries), Key(userID), LiveRefs(refs, at), index.entries)
              else index.entries == old(index.entries)
      ensures ok ==> IsLivePart(RefsOf(index.entries, Key(userID)), refs, at)
      ensures ok && Key(userID) in index.entries ==>
                exists r <- index.entries[Key(userID)].value ::
                  r.expiry <= index.entries[Key(userID)].expiry <= r.expiry + (clock.now - old(clock.now))
      ensures reliable && Key(userID) != "" && LiveRefs(refs, clock.now) != [] ==> ok
    {
      var now := clock.Now();
      at := now;
      LiveContents(refs, now);
      var filtered, maxExpiry := FilterIndex(refs, now);
      if filtered == [] {
        ok := index.Delete(userID);
        return;
      }
      var now' := clock.Now();
      ok := index.Set(userID, filtered, maxExpiry.value - now');
      if maxExpiry.value <= now' {
        NothingLive(refs, at, clock.now, maxExpiry.value);
      }
    }

    method Set(token: string, cached: CachedIdentity, ghost issue: Issue) returns (ok: bool, ghost stuck: bool)
      requires Valid(issue) && issue(Key(token)) == Claim(Key(cached.identity.userID), cached.identity.tokenID)
      modifies store, index, clock
      ensures Valid(issue) && old(clock.now) <= clock.now
      ensures SetOutcome(old(store.entries), old(index.entries), old(clock.now), issue, token, cached,
                         ok, stuck, store.entries, index.entries, clock.now)
      ensures reliable ==> !stuck
      ensures ok ==>
                && Key(token) in store.entries && store.entries[Key(token)].value == cached
                && cached.expiry <= store.entries[Key(token)].expiry <= cached.expiry + (clock.now - old(clock.now))
      ensures var i := cached.identity;
              reliable && Key(token) != "" && Key(i.userID) != "" && i.tokenID != "" && clock.now < cached.expiry ==> ok
    {
      ghost var ids, idx, before := store.entries, index.entries, clock.now;
      stuck := false;
      var now := clock.Now();
      var entryTTL := cached.expiry - now;
      if entryTTL <= 0 {
        SetBackedOut(ids, idx, issue, before, token, cached, ids, idx, clock.now);
        return false, false;
      }
      ok := store.Set(token, cached, entryTTL);
      if !ok {
        SetBackedOut(ids, idx, issue, before, token, cached, ids, idx, clock.now);
        return;
      }
      ghost var ids1 := store.entries;
      ghost var idx1, t1, t2;
      ok, idx1, t1, t2 := IndexIdentity(token, cached);
      if !ok {
        SetStuck(ids, idx, issue, before, token, cached, ids1, idx1, clock.now);
        SetBackedOut(ids, idx, issue, before, token, cached, ids - {Key(token)}, idx1, clock.now);
        var undone := store.Delete(token);
        assert undone ==> store.entries == ids - {Key(token)};
        stuck := !undone;
        return;
      }
      SetSucceeded(ids, idx, issue, before, token, cached, ids1, idx1, t1, t2, index.entries, clock.now);
    }

    /** The user's list is read, changed and written back; either failure is answered by the same back-out. */
    method IndexIdentity(token: string, cached: CachedIdentity)
      returns (ok: bool, ghost idx1: Indexes, ghost t1: int, ghost t2: int)
      requires WellFormed()
      modifies index, clock
      ensures WellFormed() && old(clock.now) <= t1 <= t2 <= clock.now
      ensures Purged(old(index.entries), Key(cached.identity.userID), idx1, t1)
      ensures var u := Key(cached.identity.userID);
              var next := Ref(token, cached.identity.tokenID, cached.expiry);
              && (if ok then Rewritten(idx1, u, AfterUpsert(idx1, next, u, t1, t2), index.entries) else index.entries == idx1)
              && (reliable && u != "" && Kept(next, clock.now) ==> ok)
    {
      var next := Ref(token, cached.identity.tokenID, cached.expiry);
      var refs;
      ok, refs, t1 := LoadUserIndex(cached.identity.userID);
      idx1, t2 := index.entries, clock.now;
      if ok {
        refs := UpsertUserIndexToken(refs, next);
        ok, t2 := WriteUserIndex(cached.identity.userID, refs);
        NextIsLive(RefsOf(idx1, Key(cached.identity.userID)), next, t1, clock.now);
      }
    }

    /** An identity is served only while its own expiry has not passed. */
    method Peek(token: string) returns (ok: bool, cached: Option<CachedIdentity>)
      modifies store, clock
      requires WellFormed()
      ensures old(clock.now) <= clock.now
      ensures store.entries == old(store.entries) || store.entries == old(store.entries) - {Key(token)}
      ensures cached.Some? ==>
                && ok && Key(token) in old(store.entries)
                && cached.value == old(store.entries)[Key(token)].value && clock.now <= cached.value.expiry
                && store.entries == old(store.entries)
      ensures reliable && Key(token) != "" ==> ok
      ensures ok && Key(token) in old(store.entries) && cached.None? ==>
                var e := old(store.entries)[Key(token)]; clock.now > e.expiry || clock.now > e.value.expiry
    {
      ok, cached := store.Get(token);
      if !ok || cached.None? {
        return;
      }
      var now := clock.Now();
      if now > cached.value.expiry {
        var _ := store.Delete(token);
        cached := None;
      }
    }

    method Delete(token: string, ghost issue: Issue) returns (ok: bool)
      requires Valid(issue)
      modifies store, index, clock
      ensures Valid(issue) && old(clock.now) <= clock.now
      ensures store.entries == old(store.entries) || store.entries == old(store.entries) - {Key(token)}
      ensures ok || (reliable && Key(token) != "") ==> Key(token) !in store.entries
      ensures ok && Key(token) in old(store.entries) ==>
                var e := old(store.entries)[Key(token)];
                clock.now <= e.expiry && clock.now <= e.value.expiry ==>
                  forall r <- RefsOf(index.entries, Key(e.value.identity.userID)) ::
                    r.cacheKey != token && (r.tokenID != "" ==> r.tokenID != e.value.identity.tokenID)
      ensures old(Agrees()) && !HasTwin(old(store.entries), Key(token), issue, clock.now) ==> Agrees()
    {
      ghost var ids, idx, before := store.entries, index.entries, clock.now;
      var cached;
      ok, cached := Peek(token);
      if !ok {
        StaysGood(ids, store.entries, idx, issue, before, "", idx, clock.now);
        return;
      }
      ok := store.Delete(token);
      StaysGood(ids, store.entries, idx, issue, before, "", idx, clock.now);
      if !ok || cached.None? {
        return;
      }
      var userID, tokenID := cached.value.identity.userID, cached.value.identity.tokenID;
      var refs;
      ghost var t1, t2;
      ok, refs, t1 := LoadUserIndex(userID);
      ghost var idx1 := index.entries;
      StaysGood(ids, store.entries, idx, issue, before, Key(userID), idx1, t1);
      if !ok {
        StaysGood(ids, store.entries, idx, issue, before, Key(userID), idx1, clock.now);
        return;
      }
      refs := RemoveUserIndexToken(refs, token, tokenID);
      ok, t2 := WriteUserIndex(userID, refs);
      if ok {
        DeleteSucceeded(store.entries, idx1, issue, t1, token, tokenID, Key(userID), t2, index.entries, clock.now);
      } else {
        StaysGood(store.entries, store.entries, idx1, issue, t1, "", idx1, clock.now);
      }
    }

    /** Every other token of the user goes, and nothing of anybody else. */
    method DeleteUserTokens(userID: string, exceptTokenID: string, ghost issue: Issue) returns (ok: bool)
      requires Valid(issue)
      modifies store, index, clock
      ensures Valid(issue) && old(clock.now) <= clock.now
      ensures Spared(old(store.entries), store.entries, issue, Key(userID), exceptTokenID)
      ensures ok ==> forall r <- RefsOf(index.entries, Key(userID)) :: r.tokenID == exceptTokenID
      ensures old(Agrees()) ==> Agrees()
      ensures old(Agrees()) && (ok || (reliable && Key(userID) != "")) ==>
                OnlyTokenLeft(store.entries, clock.now, Key(userID), exceptTokenID)
    {
      ghost var ids, idx, before := store.entries, index.entries, clock.now;
      ghost var u := Key(userID);
      var refs;
      ghost var t1, t2;
      ok, refs, t1 := LoadUserIndex(userID);
      ghost var idx1, loaded := index.entries, clock.now;
      StaysGood(ids, ids, idx, issue, before, u, idx1, t1);
      if !ok {
        StaysGood(ids, ids, idx, issue, before, u, idx1, clock.now);
        return;
      }
      var kept;
      ok, kept := DeleteOthers(refs, exceptTokenID, idx1, t1, u, issue);
      if !ok {
        StaysGood(ids, store.entries, idx, issue, before, u, idx1, clock.now);
        return;
      }
      ok, t2 := WriteUserIndex(userID, kept);
      if ok {
        ClearSucceeded(ids, store.entries, idx1, issue, t1, u, exceptTokenID, kept, t2, index.entries, clock.now);
      } else {
        StaysGood(ids, store.entries, idx, issue, before, u, idx1, clock.now);
        if old(Agrees()) {
          ClearedLeavesOne(ids, store.entries, idx1, t1, u, exceptTokenID, kept, clock.now);
        }
      }
    }

    /** The loop over the user's list: what is to be kept, and everything else deleted. */
    method DeleteOthers(refs: seq<Ref>, exceptTokenID: string, ghost idx: Indexes, ghost at: int, ghost u: string,
            ghost issue: Issue)
      returns (ok: bool, kept: seq<Ref>)
      requires WellFormed() && Truthful(store.entries, idx, issue) && refs == LiveRefs(RefsOf(idx, u), at)
      modifies store
      ensures Spared(old(store.entries), store.entries, issue, u, exceptTokenID)
      ensures ok ==> Cleared(store.entries, refs, exceptTokenID, kept)
      ensures reliable ==> ok
    {
      ghost var ids := store.entries;
      ok, kept := true, [];
      for i := 0 to |refs|
        invariant ok && Spared(ids, store.entries, issue, u, exceptTokenID)
        invariant Cleared(store.entries, refs[..i], exceptTokenID, kept)
      {
        assert refs[..i + 1] == refs[..i] + [refs[i]];
        if refs[i].tokenID == exceptTokenID {
          RefKept(store.entries, refs[..i], exceptTokenID, kept, refs[i]);
          kept := kept + [refs[i]];
          continue;
        }
        InLiveRefs(RefsOf(idx, u), at, refs[i]);
        assert Key(refs[i].cacheKey) != "" && issue(Key(refs[i].cacheKey)) == Claim(u, refs[i].tokenID);
        RefDeleted(ids, store.entries, issue, u, refs[..i], exceptTokenID, kept, refs[i]);
        ok := store.Delete(refs[i].cacheKey);
        if !ok {
          return;
        }
      }
      assert refs[..|refs|] == refs;
    }
  }
}
