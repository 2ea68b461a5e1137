/**
 The process-wide OAuth token cache: the operations on its two maps, and the
 single-flight refresh protocol that concurrent `apply` calls follow over them.

 Times are seconds on one monotonic clock. Account identities and header
 injection do not take part in the protocol and are not modelled.
 */
module TokenCache {
  import opened Wrappers

  const REFRESH_LEEWAY: nat := 60

  datatype CachedToken = CachedToken(access: string, refresh: string, expiresAt: Option<nat>)

  function SaturatingSub(a: nat, b: nat): nat { if a < b then 0 else a - b }

  predicate IsExpiring(token: CachedToken, now: nat) {
    match token.expiresAt
    case None => false
    case Some(t) => SaturatingSub(t, now) <= REFRESH_LEEWAY
  }

  /** The test both the fast path and the re-check make. */
  predicate IsUsable(token: CachedToken, now: nat) {
    !IsExpiring(token, now) && token.access != ""
  }

  predicate HasUsable(tokens: map<string, CachedToken>, key: string, now: nat) {
    key in tokens && IsUsable(tokens[key], now)
  }

  function KeyOf(provider: string, account: string): string { provider + ":" + account }

  function Seeded(tokens: map<string, CachedToken>, key: string, refresh: string): map<string, CachedToken> {
    if key !in tokens then tokens[key := CachedToken("", refresh, None)]
    else if tokens[key].refresh == "" then tokens[key := tokens[key].(refresh := refresh)]
    else tokens
  }

  function Cleared(tokens: map<string, CachedToken>, key: string, rejected: string): map<string, CachedToken> {
    if key in tokens && tokens[key].access == rejected
    then tokens[key := tokens[key].(access := "", expiresAt := None)]
    else tokens
  }

  predicate BelongsTo(key: string, provider: string) { provider + ":" <= key }

  function WithoutProvider<T>(m: map<string, T>, provider: string): map<string, T> {
    map k | k in m && !BelongsTo(k, provider) :: m[k]
  }

  /** The refresh token a slow path presents. */
  function RefreshTokenFor(tokens: map<string, CachedToken>, key: string, configured: string): string {
    if key in tokens then tokens[key].refresh else configured
  }

  /** What the token endpoint returned. */
  datatype Reply = Reply(access: string, refresh: Option<string>, expiresIn: Option<nat>)

  function Stamped(reply: Reply, presented: string, now: nat): CachedToken {
    CachedToken(reply.access, reply.refresh.GetOr(presented),
                if reply.expiresIn.Some? then Some(now + reply.expiresIn.value) else None)
  }

  // ---------------------------------------------------------------------
  // What these decide
  // ---------------------------------------------------------------------

  /** A token is handed out exactly when it has a text and is good for more than a minute. */
  lemma UsableExactlyWhen(tokens: map<string, CachedToken>, key: string, now: nat)
    ensures HasUsable(tokens, key, now) <==>
            && key in tokens && tokens[key].access != ""
            && (tokens[key].expiresAt.None? || tokens[key].expiresAt.value > now + 60)
  {
  }

  /** A granted token is handed out until a minute before its lifetime is over. */
  lemma GrantsLast(tokens: map<string, CachedToken>, key: string, reply: Reply, presented: string, now: nat, later: nat)
    requires reply.access != ""
    ensures var stored := tokens[key := Stamped(reply, presented, now)];
            && (HasUsable(stored, key, later) <==> reply.expiresIn.None? || later + 60 < now + reply.expiresIn.value)
            && stored[key].access == reply.access
            && stored[key].refresh == if reply.refresh.Some? then reply.refresh.value else presented
  {
  }

  /** Seeding fills in a missing refresh token and changes nothing else. */
  lemma SeedingFills(tokens: map<string, CachedToken>, key: string, refresh: string, other: string)
    ensures var seeded := Seeded(tokens, key, refresh);
            && seeded.Keys == tokens.Keys + {key}
            && (other in tokens && other != key ==> seeded[other] == tokens[other])
            && (key !in tokens ==> seeded[key] == CachedToken("", refresh, None))
            && (key in tokens && tokens[key].refresh != "" ==> seeded[key] == tokens[key])
            && (key in tokens && tokens[key].refresh == "" ==>
                  seeded[key].refresh == refresh && seeded[key].access == tokens[key].access &&
                  seeded[key].expiresAt == tokens[key].expiresAt)
  {
  }

  /** A rejected token is usable no more, its refresh token stays, and a newer one is left alone. */
  lemma ClearingSparesNewer(tokens: map<string, CachedToken>, key: string, rejected: string, other: string, now: nat)
    ensures var cleared := Cleared(tokens, key, rejected);
            && cleared.Keys == tokens.Keys
            && (other in tokens && (other != key || tokens[other].access != rejected) ==>
                  cleared[other] == tokens[other])
            && (key in tokens && tokens[key].access == rejected ==>
                  !HasUsable(cleared, key, now) && cleared[key].refresh == tokens[key].refresh)
  {
  }

  lemma FirstColonEnds(a: string, s: string)
    requires ':' !in a && a + ":" <= s
    ensures s[|a|] == ':' && a == s[..|a|] && forall i :: 0 <= i < |a| ==> s[i] != ':'
  {
    assert (a + ":")[|a|] == ':' && s[..|a|] == (a + ":")[..|a|] == a;
    assert forall i :: 0 <= i < |a| ==> s[i] == a[i] && a[i] in a;
  }

  /** Among provider ids without a colon, invalidating one drops its own keys and no others. */
  lemma InvalidationIsExact(tokens: map<string, CachedToken>, provider: string, account: string, invalidated: string)
    requires ':' !in provider && ':' !in invalidated && KeyOf(provider, account) in tokens
    ensures KeyOf(provider, account) in WithoutProvider(tokens, invalidated) <==> provider != invalidated
    ensures provider != invalidated ==>
              WithoutProvider(tokens, invalidated)[KeyOf(provider, account)] == tokens[KeyOf(provider, account)]
  {
    var key := KeyOf(provider, account);
    assert key[..|provider + ":"|] == provider + ":";
    FirstColonEnds(provider, key);
    if invalidated + ":" <= key { FirstColonEnds(invalidated, key); }
  }

  // ---------------------------------------------------------------------
  // The cache object
  // ---------------------------------------------------------------------

  /** A mutex shared by the calls that refresh one key. */
  class Mutex {
    constructor () {}
  }

  class OAuthTokenCache {
    var tokens: map<string, CachedToken>
    var inflight: map<string, Mutex>

    constructor ()
      ensures tokens == map[] && inflight == map[]
    {
      tokens, inflight := map[], map[];
    }

    /** One mutex per key, created on first use and handed out ever after. */
    method MutexFor(key: string) returns (m: Mutex)
      modifies this`inflight
      ensures key in old(inflight) ==> m == old(inflight)[key] && inflight == old(inflight)
      ensures key !in old(inflight) ==> fresh(m) && inflight == old(inflight)[key := m]
    {
      if key !in inflight {
        m := new Mutex();
        inflight := inflight[key := m];
      } else {
        m := inflight[key];
      }
    }

    method Seed(provider: string, account: string, refresh: string)
      modifies this`tokens
      ensures tokens == Seeded(old(tokens), KeyOf(provider, account), refresh)
    {
      var key := KeyOf(provider, account);
      if key !in tokens {
        tokens := tokens[key := CachedToken("", refresh, None)];
      }
      if tokens[key].refresh == "" {
        tokens := tokens[key := tokens[key].(refresh := refresh)];
      }
    }

    method SeedTokens(provider: string, account: string, access: string, refresh: string, expiresIn: Option<nat>,
                      now: nat)
      modifies this`tokens
      ensures tokens == old(tokens)[KeyOf(provider, account) :=
                                    Stamped(Reply(access, Some(refresh), expiresIn), "", now)]
    {
      var expiresAt := if expiresIn.Some? then Some(now + expiresIn.value) else None;
      tokens := tokens[KeyOf(provider, account) := CachedToken(access, refresh, expiresAt)];
    }

    method InvalidateProvider(provider: string)
      modifies this
      ensures tokens == WithoutProvider(old(tokens), provider)
      ensures inflight == WithoutProvider(old(inflight), provider)
    {
      tokens := map k | k in tokens && !(provider + ":" <= k) :: tokens[k];
      inflight := map k | k in inflight && !(provider + ":" <= k) :: inflight[k];
    }

    method InvalidateAccessTokenIfMatches(provider: string, account: string, rejected: string)
      modifies this`tokens
      ensures tokens == Cleared(old(tokens), KeyOf(provider, account), rejected)
    {
      var key := KeyOf(provider, account);
      if key in tokens {
        var cached := tokens[key];
        if cached.access == rejected {
          tokens := tokens[key := cached.(access := "", expiresAt := None)];
        }
      }
    }

    /** The zero-I/O path: a token is injected exactly when a usable one is cached. */
    method ApplyCached(provider: string, account: string, now: nat) returns (injected: Option<string>)
      ensures injected.Some? <==> HasUsable(tokens, KeyOf(provider, account), now)
      ensures var key := KeyOf(provider, account);
              injected.Some? <==>
                && key in tokens && tokens[key].access != ""
                && (tokens[key].expiresAt.None? || tokens[key].expiresAt.value > now + 60)
      ensures injected.Some? ==> injected.value == tokens[KeyOf(provider, account)].access
    {
      var key := KeyOf(provider, account);
      if key !in tokens { return None; }
      var cached := tokens[key];
      if IsExpiring(cached, now) || cached.access == "" { return None; }
      return Some(cached.access);
    }

    /**
     One `apply` call. Other calls run while it waits for the mutex and while
     its request is out: `waiting` and `requesting` are what they do to the map
     meanwhile. `fast`, `again` and `stamp` are the call's clock readings, and
     `answer` is what the token endpoint says to a refresh token (`None` for
     any failure).
     */
    method Apply(provider: string, account: string, configured: string, answer: string -> Option<Reply>,
                 waiting: map<string, CachedToken> -> map<string, CachedToken>,
                 requesting: map<string, CachedToken> -> map<string, CachedToken>,
                 fast: nat, again: nat, stamp: nat) returns (injected: Option<string>)
      requires fast <= again <= stamp
      modifies this
      ensures var key := KeyOf(provider, account);
              var atLock := waiting(old(tokens));
              var presented := RefreshTokenFor(atLock, key, configured);
              if HasUsable(old(tokens), key, fast) then
                injected == Some(old(tokens)[key].access) && tokens == old(tokens)
              else if HasUsable(atLock, key, again) then
                injected == Some(atLock[key].access) && tokens == atLock
              else if presented == "" then injected == None && tokens == atLock
              else if answer(presented).None? then injected == None && tokens == requesting(atLock)
              else
                injected == Some(answer(presented).value.access) &&
                tokens == requesting(atLock)[key := Stamped(answer(presented).value, presented, stamp)]
      ensures var key := KeyOf(provider, account);
              key in old(tokens) && old(tokens)[key].access != "" &&
              (old(tokens)[key].expiresAt.None? || old(tokens)[key].expiresAt.value > fast + 60) ==>
                injected == Some(old(tokens)[key].access) && tokens == old(tokens)
      ensures var key := KeyOf(provider, account);
              if HasUsable(old(tokens), key, fast) then inflight == old(inflight)
              else
                && key in inflight && inflight == old(inflight)[key := inflight[key]]
                && (key in old(inflight) ==> inflight == old(inflight))
    {
      var key := KeyOf(provider, account);
      if key in tokens {
        var cached := tokens[key];
        if !IsExpiring(cached, fast) && cached.access != "" { return Some(cached.access); }
      }
      var mutex := MutexFor(key);
      tokens := waiting(tokens);
      if key in tokens {
        var cached := tokens[key];
        if !IsExpiring(cached, again) && cached.access != "" { return Some(cached.access); }
      }
      var presented := if key in tokens then tokens[key].refresh else configured;
      if presented == "" { return None; }
      var result := answer(presented);
      tokens := requesting(tokens);
      match result
      case None => return None;
      case Some(reply) =>
        var newRefresh := reply.refresh.GetOr(presented);
        var expiresAt := if reply.expiresIn.Some? then Some(stamp + reply.expiresIn.value) else None;
        tokens := tokens[key := CachedToken(reply.access, newRefresh, expiresAt)];
        return Some(reply.access);
    }
  }
}
