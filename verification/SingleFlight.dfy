/**
 The refresh protocol of the token cache as a step relation. Any number of
 `apply` calls run at once; between two steps of one call every other call may
 take steps. An authorization server that rotates refresh tokens honours only
 the one token it holds live for a key.
 */
module SingleFlight {
  import opened Wrappers
  import opened TokenCache

  /** Where an `apply` call stands. */
  datatype Pc =
    | Started(key: string, configured: string)
    | Missed(key: string, configured: string)               // fast path missed
    | Waiting(key: string, configured: string, m: nat)      // queued on the key's mutex
    | Holding(key: string, configured: string, m: nat)      // mutex acquired, cache not re-checked
    | Checked(key: string, configured: string, m: nat)      // re-check missed
    | Refreshing(key: string, m: nat, presented: string)    // request out
    | Granted(key: string, m: nat, presented: string, reply: Reply)
    | Ready(key: string, m: nat, token: CachedToken)        // expiry computed, not stored
    | Leaving(key: string, m: nat)                          // about to drop the guard

  predicate InCritical(pc: Pc) {
    pc.Holding? || pc.Checked? || pc.Refreshing? || pc.Granted? || pc.Ready? || pc.Leaving?
  }

  predicate HasMutex(pc: Pc) { pc.Waiting? || InCritical(pc) }

  /** Before the request: the configured refresh token is still at hand. */
  predicate IsEarly(pc: Pc) { pc.Started? || pc.Missed? || pc.Waiting? || pc.Holding? || pc.Checked? }

  /** Past the re-check and not yet stored. */
  predicate Committed(pc: Pc) { pc.Checked? || pc.Refreshing? || pc.Granted? || pc.Ready? }

  /** The server has answered and the cache does not know yet. */
  predicate Pending(pc: Pc) { pc.Granted? || pc.Ready? }

  function PendingAccess(pc: Pc): string
    requires Pending(pc)
  {
    if pc.Granted? then pc.reply.access else pc.token.access
  }

  function PendingRefresh(pc: Pc): string
    requires Pending(pc)
  {
    if pc.Granted? then pc.reply.refresh.GetOr(pc.presented) else pc.token.refresh
  }

  /** The authorization server: rotated refresh tokens, access tokens given out, successful refreshes. */
  datatype Server = Server(live: map<string, string>, issued: set<string>, grants: map<string, nat>)

  datatype State = State(
    tokens: map<string, CachedToken>,
    inflight: map<string, nat>,        // the mutex of each key
    minted: nat,                       // mutexes created so far
    owner: map<nat, nat>,              // who holds each locked mutex
    now: nat,
    threads: map<nat, Pc>,
    genesis: string -> string,         // the refresh token each key started with
    server: Server,
    losses: map<string, nat>,          // usable tokens that stopped being usable
    cleared: map<string, seq<string>>) // access tokens cleared after a rejection

  datatype Action =
    | Tick(d: nat)
    | Call(t: nat, key: string, configured: string)
    | FastHit(t: nat)
    | FastMiss(t: nat)
    | FindMutex(t: nat)
    | MakeMutex(t: nat)
    | Acquire(t: nat)
    | RecheckHit(t: nat)
    | RecheckMiss(t: nat)
    | SendRefresh(t: nat)
    | NothingToSend(t: nat)
    | Answer(t: nat, reply: Reply)
    | Fail(t: nat)
    | Stamp(t: nat)
    | Store(t: nat)
    | Return(t: nat)
    | ApplyCached(key: string)
    | Seed(key: string, refresh: string)
    | Reject(key: string, access: string)          // invalidate_access_token_if_matches
    | Replace(key: string, token: CachedToken)     // seed_tokens
    | InvalidateProvider(provider: string)

  function Live(s: State, key: string): string { if key in s.server.live then s.server.live[key] else s.genesis(key) }

  function Count(m: map<string, nat>, key: string): nat { if key in m then m[key] else 0 }

  function ClearedOf(s: State, key: string): seq<string> { if key in s.cleared then s.cleared[key] else [] }

  predicate Enabled(s: State, a: Action) {
    match a
    case Tick(_) => true
    case Call(t, _, _) => t !in s.threads
    case FastHit(t) => t in s.threads && s.threads[t].Started? && HasUsable(s.tokens, s.threads[t].key, s.now)
    case FastMiss(t) => t in s.threads && s.threads[t].Started? && !HasUsable(s.tokens, s.threads[t].key, s.now)
    case FindMutex(t) => t in s.threads && s.threads[t].Missed? && s.threads[t].key in s.inflight
    case MakeMutex(t) => t in s.threads && s.threads[t].Missed? && s.threads[t].key !in s.inflight
    case Acquire(t) => t in s.threads && s.threads[t].Waiting? && s.threads[t].m !in s.owner
    case RecheckHit(t) => t in s.threads && s.threads[t].Holding? && HasUsable(s.tokens, s.threads[t].key, s.now)
    case RecheckMiss(t) => t in s.threads && s.threads[t].Holding? && !HasUsable(s.tokens, s.threads[t].key, s.now)
    case SendRefresh(t) =>
      t in s.threads && s.threads[t].Checked? &&
        RefreshTokenFor(s.tokens, s.threads[t].key, s.threads[t].configured) != ""
    case NothingToSend(t) =>
      t in s.threads && s.threads[t].Checked? &&
        RefreshTokenFor(s.tokens, s.threads[t].key, s.threads[t].configured) == ""
    case Answer(t, reply) =>
      && t in s.threads && s.threads[t].Refreshing? && s.threads[t].presented == Live(s, s.threads[t].key)
      && reply.access != "" && reply.access !in s.server.issued && reply.refresh != Some("")
    case Fail(t) => t in s.threads && s.threads[t].Refreshing?
    case Stamp(t) => t in s.threads && s.threads[t].Granted?
    case Store(t) => t in s.threads && s.threads[t].Ready?
    case Return(t) => t in s.threads && s.threads[t].Leaving?
    case _ => true
  }

  /** The call that takes the step, if a call does. */
  function Mover(a: Action): Option<nat> {
    match a
    case Tick(_) => None
    case ApplyCached(_) => None
    case Seed(_, _) => None
    case Reject(_, _) => None
    case Replace(_, _) => None
    case InvalidateProvider(_) => None
    case _ => Some(a.t)
  }

  /** The step lets its call return. */
  predicate Ends(a: Action) { a.FastHit? || a.Return? }

  /** Where the call that takes the step goes. */
  function NextPc(s: State, a: Action): Pc
    requires Enabled(s, a) && Mover(a).Some? && !Ends(a)
  {
    if a.Call? then Started(a.key, a.configured)
    else
      var pc := s.threads[a.t];
      match a
      case FastMiss(_) => Missed(pc.key, pc.configured)
      case FindMutex(_) => Waiting(pc.key, pc.configured, s.inflight[pc.key])
      case MakeMutex(_) => Waiting(pc.key, pc.configured, s.minted)
      case Acquire(_) => Holding(pc.key, pc.configured, pc.m)
      case RecheckMiss(_) => Checked(pc.key, pc.configured, pc.m)
      case SendRefresh(_) => Refreshing(pc.key, pc.m, RefreshTokenFor(s.tokens, pc.key, pc.configured))
      case Answer(_, reply) => Granted(pc.key, pc.m, pc.presented, reply)
      case Stamp(_) => Ready(pc.key, pc.m, Stamped(pc.reply, pc.presented, s.now))
      case RecheckHit(_) => Leaving(pc.key, pc.m)
      case NothingToSend(_) => Leaving(pc.key, pc.m)
      case Fail(_) => Leaving(pc.key, pc.m)
      case Store(_) => Leaving(pc.key, pc.m)
  }

  function NextThreads(s: State, a: Action): map<nat, Pc>
    requires Enabled(s, a)
  {
    match Mover(a)
    case None => s.threads
    case Some(t) => if Ends(a) then s.threads - {t} else s.threads[t := NextPc(s, a)]
  }

  function NextTokens(s: State, a: Action): map<string, CachedToken>
    requires Enabled(s, a)
  {
    match a
    case Store(t) => s.tokens[s.threads[t].key := s.threads[t].token]
    case Seed(key, refresh) => Seeded(s.tokens, key, refresh)
    case Reject(key, access) => Cleared(s.tokens, key, access)
    case Replace(key, token) => s.tokens[key := token]
    case InvalidateProvider(provider) => WithoutProvider(s.tokens, provider)
    case _ => s.tokens
  }

  function NextInflight(s: State, a: Action): map<string, nat>
    requires Enabled(s, a)
  {
    match a
    case MakeMutex(t) => s.inflight[s.threads[t].key := s.minted]
    case InvalidateProvider(provider) => WithoutProvider(s.inflight, provider)
    case _ => s.inflight
  }

  function NextOwner(s: State, a: Action): map<nat, nat>
    requires Enabled(s, a)
  {
    match a
    case Acquire(t) => s.owner[s.threads[t].m := t]
    case Return(t) => s.owner - {s.threads[t].m}
    case _ => s.owner
  }

  function NextNow(s: State, a: Action): nat { if a.Tick? then s.now + a.d else s.now }

  /** Every usable token that does not survive the step is a loss, and so is one stored too late to be used. */
  function NextLosses(s: State, a: Action): map<string, nat>
    requires Enabled(s, a)
  {
    map k | k in s.losses.Keys + s.tokens.Keys + NextTokens(s, a).Keys ::
      Count(s.losses, k) +
      if (HasUsable(s.tokens, k, s.now) || (a.Store? && s.threads[a.t].key == k)) &&
        !HasUsable(NextTokens(s, a), k, NextNow(s, a))
      then 1 else 0
  }

  function NextServer(s: State, a: Action): Server
    requires Enabled(s, a)
  {
    if a.Answer? then
      var pc := s.threads[a.t];
      Server(s.server.live[pc.key := a.reply.refresh.GetOr(pc.presented)],
             s.server.issued + {a.reply.access},
             s.server.grants[pc.key := Count(s.server.grants, pc.key) + 1])
    else s.server
  }

  function NextCleared(s: State, a: Action): map<string, seq<string>> {
    if a.Reject? && a.access != "" && a.key in s.tokens && s.tokens[a.key].access == a.access
    then s.cleared[a.key := ClearedOf(s, a.key) + [a.access]]
    else s.cleared
  }

  /** One step: who writes each shared variable, and what. */
  function Next(s: State, a: Action): State
    requires Enabled(s, a)
  {
    State(NextTokens(s, a), NextInflight(s, a), if a.MakeMutex? then s.minted + 1 else s.minted, NextOwner(s, a),
          NextNow(s, a), NextThreads(s, a), s.genesis, NextServer(s, a), NextLosses(s, a), NextCleared(s, a))
  }

  ghost predicate Init(s: State) {
    && s.tokens == map[] && s.inflight == map[] && s.owner == map[] && s.threads == map[]
    && s.server == Server(map[], {}, map[]) && s.losses == map[] && s.cleared == map[]
  }

  /**
   What the results below ask of the environment: nobody drops the mutexes or
   replaces a credential behind the protocol's back, and the database and the
   configuration hold the key's first refresh token or none.
   */
  predicate Benign(s: State, a: Action) {
    match a
    case InvalidateProvider(_) => false
    case Replace(_, _) => false
    case Call(_, key, configured) => configured == "" || configured == s.genesis(key)
    case Seed(key, refresh) => refresh == "" || refresh == s.genesis(key)
    case _ => true
  }

  /** `ss` is a run taking the steps `acts`. */
  ghost predicate IsRun(ss: seq<State>, acts: seq<Action>) {
    && |ss| == |acts| + 1
    && Init(ss[0])
    && forall i :: 0 <= i < |acts| ==> Enabled(ss[i], acts[i]) && ss[i + 1] == Next(ss[i], acts[i])
  }

  ghost predicate IsBenignRun(ss: seq<State>, acts: seq<Action>) {
    IsRun(ss, acts) && forall i :: 0 <= i < |acts| ==> Benign(ss[i], acts[i])
  }

  // ---------------------------------------------------------------------
  // Which steps matter to whom
  // ---------------------------------------------------------------------

  /** The step leaves every other call where it is. */
  lemma OthersStay(s: State, a: Action, t: nat)
    requires Enabled(s, a) && Mover(a) != Some(t)
    ensures t in NextThreads(s, a) <==> t in s.threads
    ensures t in s.threads ==> NextThreads(s, a)[t] == s.threads[t]
  {
  }

  predicate Moves(s: State, a: Action) { Enabled(s, a) && Mover(a).Some? && !Ends(a) }

  /** Where a call's mutex and its turn on it come from. */
  lemma MutexComesFrom(s: State, a: Action)
    requires Moves(s, a)
    ensures HasMutex(NextPc(s, a)) ==>
              !a.Call? && NextPc(s, a).key == s.threads[a.t].key &&
              if a.FindMutex? then NextPc(s, a).key in s.inflight && NextPc(s, a).m == s.inflight[NextPc(s, a).key]
              else if a.MakeMutex? then NextPc(s, a).m == s.minted
              else HasMutex(s.threads[a.t]) && NextPc(s, a).m == s.threads[a.t].m
    ensures InCritical(NextPc(s, a)) ==> a.Acquire? || InCritical(s.threads[a.t])
  {
  }

  /** A call commits itself only by missing the cache at the re-check. */
  lemma CommitsAtRecheck(s: State, a: Action)
    requires Moves(s, a) && Committed(NextPc(s, a))
    ensures !a.Call? && NextPc(s, a).key == s.threads[a.t].key
    ensures a.RecheckMiss? || Committed(s.threads[a.t])
  {
  }

  /** Only a store makes a key usable. */
  lemma UsableComesFromStore(s: State, a: Action, key: string)
    requires Enabled(s, a) && Benign(s, a) && !(a.Store? && key == s.threads[a.t].key)
    ensures HasUsable(NextTokens(s, a), key, NextNow(s, a)) ==> HasUsable(s.tokens, key, s.now)
  {
  }

  /** Where requests and pending answers come from. */
  lemma RequestsComeFrom(s: State, a: Action)
    requires Moves(s, a)
    ensures NextPc(s, a).Refreshing? ==>
              a.SendRefresh? && NextPc(s, a).key == s.threads[a.t].key &&
              NextPc(s, a).presented == RefreshTokenFor(s.tokens, s.threads[a.t].key, s.threads[a.t].configured)
    ensures Pending(NextPc(s, a)) ==>
              (a.Answer? || a.Stamp?) && NextPc(s, a).key == s.threads[a.t].key
    ensures a.Answer? ==>
              PendingRefresh(NextPc(s, a)) == a.reply.refresh.GetOr(s.threads[a.t].presented) &&
              PendingAccess(NextPc(s, a)) == a.reply.access
    ensures a.Stamp? ==>
              PendingRefresh(NextPc(s, a)) == PendingRefresh(s.threads[a.t]) &&
              PendingAccess(NextPc(s, a)) == PendingAccess(s.threads[a.t])
    ensures IsEarly(NextPc(s, a)) ==>
              a.Call? ||
              (IsEarly(s.threads[a.t]) && NextPc(s, a).key == s.threads[a.t].key &&
               NextPc(s, a).configured == s.threads[a.t].configured)
  {
  }

  /** Only an answer moves the live refresh token, and only its own key's. */
  lemma LiveMoves(s: State, a: Action, key: string)
    requires Enabled(s, a)
    ensures Live(Next(s, a), key) ==
            if a.Answer? && s.threads[a.t].key == key then a.reply.refresh.GetOr(s.threads[a.t].presented)
            else Live(s, key)
  {
  }

  /** What a step other than its store can do to a key's cache entry. */
  lemma EntryMoves(s: State, a: Action, key: string)
    requires Enabled(s, a) && Benign(s, a)
    requires !(a.Store? && s.threads[a.t].key == key)
    ensures key in s.tokens ==>
              key in NextTokens(s, a) &&
              (NextTokens(s, a)[key].access == s.tokens[key].access ||
               (a.Reject? && a.key == key && NextTokens(s, a)[key].access == "")) &&
              (s.tokens[key].refresh != "" ==> NextTokens(s, a)[key].refresh == s.tokens[key].refresh) &&
              (s.tokens[key].refresh == "" ==> NextTokens(s, a)[key].refresh in {"", s.genesis(key)})
    ensures key !in s.tokens && key in NextTokens(s, a) ==>
              NextTokens(s, a)[key].access == "" && NextTokens(s, a)[key].refresh in {"", s.genesis(key)}
  {
  }

  // ---------------------------------------------------------------------
  // What every step keeps
  // ---------------------------------------------------------------------

  /** A call in the critical section owns its mutex. */
  ghost predicate Owns(s: State, t: nat)
    requires t in s.threads
  {
    InCritical(s.threads[t]) ==> s.threads[t].m in s.owner && s.owner[s.threads[t].m] == t
  }

  /** A call on `key` that has a mutex has the key's. */
  ghost predicate OnMutex(s: State, t: nat, key: string)
    requires t in s.threads
  {
    var pc := s.threads[t];
    HasMutex(pc) && pc.key == key ==> key in s.inflight && s.inflight[key] == pc.m
  }

  lemma OwnsKept(s: State, a: Action, t: nat)
    requires Enabled(s, a)
    requires t in s.threads ==> Owns(s, t)
    requires a.Return? ==> Owns(s, a.t)
    requires t in NextThreads(s, a)
    ensures Owns(Next(s, a), t)
  {
    if Mover(a) == Some(t) { MutexComesFrom(s, a); } else { OthersStay(s, a, t); }
  }

  /** Only an invalidation of the key itself parts its calls from its mutex. */
  predicate Drops(a: Action, key: string) { a.InvalidateProvider? && BelongsTo(key, a.provider) }

  lemma OnMutexKept(s: State, a: Action, t: nat, key: string)
    requires Enabled(s, a) && !Drops(a, key)
    requires t in s.threads ==> OnMutex(s, t, key)
    requires t in NextThreads(s, a)
    ensures OnMutex(Next(s, a), t, key)
  {
    if Mover(a) == Some(t) { MutexComesFrom(s, a); } else { OthersStay(s, a, t); }
  }

  ghost predicate Locked(s: State, t: nat)
    requires t in s.threads
  {
    Owns(s, t) && OnMutex(s, t, s.threads[t].key)
  }

  ghost predicate Locking(s: State) { forall t :: t in s.threads ==> Locked(s, t) }

  lemma LockedKept(s: State, a: Action, t: nat)
    requires Enabled(s, a) && !a.InvalidateProvider?
    requires t in s.threads ==> Locked(s, t)
    requires a.Return? ==> Locked(s, a.t)
    requires t in NextThreads(s, a)
    ensures Locked(Next(s, a), t)
  {
    var key := NextThreads(s, a)[t].key;
    if Mover(a) != Some(t) { OthersStay(s, a, t); }
    OwnsKept(s, a, t);
    OnMutexKept(s, a, t, key);
  }

  /** Two calls are not both in the critical section of one key. */
  ghost predicate Apart(s: State, t1: nat, t2: nat) {
    t1 in s.threads && t2 in s.threads && t1 != t2 && InCritical(s.threads[t1]) && InCritical(s.threads[t2]) ==>
      s.threads[t1].key != s.threads[t2].key
  }

  ghost predicate ApartFromMover(s: State, a: Action, t: nat) {
    Mover(a).Some? ==> Apart(s, t, Mover(a).value)
  }

  lemma LockingExcludes(s: State, t1: nat, t2: nat)
    requires Locking(s)
    ensures Apart(s, t1, t2)
  {
    if t1 in s.threads && t2 in s.threads { assert Locked(s, t1) && Locked(s, t2); }
  }

  /** While a call refreshes a key, the cache holds no usable token for it. */
  ghost predicate Justified(s: State, t: nat)
    requires t in s.threads
  {
    Committed(s.threads[t]) ==> !HasUsable(s.tokens, s.threads[t].key, s.now)
  }

  lemma JustifiedKept(s: State, a: Action, t: nat)
    requires Enabled(s, a) && Benign(s, a)
    requires t in s.threads ==> Justified(s, t)
    requires ApartFromMover(s, a, t)
    requires t in NextThreads(s, a)
    ensures Justified(Next(s, a), t)
  {
    if Committed(NextThreads(s, a)[t]) {
      if Mover(a) == Some(t) { CommitsAtRecheck(s, a); } else { OthersStay(s, a, t); }
      UsableComesFromStore(s, a, s.threads[t].key);
    }
  }

  ghost predicate HasPending(s: State, key: string) {
    exists t :: t in s.threads && Pending(s.threads[t]) && s.threads[t].key == key
  }

  /** A request presents the live refresh token; an answer on its way carries it. */
  ghost predicate PresentsLive(s: State, t: nat)
    requires t in s.threads
  {
    var pc := s.threads[t];
    && (pc.Refreshing? ==> pc.presented == Live(s, pc.key) && pc.presented != "")
    && (Pending(pc) ==> PendingRefresh(pc) == Live(s, pc.key) && PendingRefresh(pc) != "")
    && (IsEarly(pc) ==> pc.configured == "" || pc.configured == s.genesis(pc.key))
  }

  /** Unless an answer is on its way, the cache holds the live refresh token or the server has not rotated yet. */
  ghost predicate CacheIsLive(s: State, key: string) {
    !HasPending(s, key) ==>
      if key in s.tokens && s.tokens[key].refresh != "" then s.tokens[key].refresh == Live(s, key)
      else Live(s, key) == s.genesis(key)
  }

  lemma PresentsLiveKept(s: State, a: Action, t: nat)
    requires Enabled(s, a) && Benign(s, a)
    requires t in s.threads ==> PresentsLive(s, t)
    requires ApartFromMover(s, a, t)
    requires a.SendRefresh? ==> CacheIsLive(s, s.threads[a.t].key) && !HasPending(s, s.threads[a.t].key)
    requires t in NextThreads(s, a)
    ensures PresentsLive(Next(s, a), t)
  {
    if Mover(a) == Some(t) { RequestsComeFrom(s, a); } else { OthersStay(s, a, t); }
    LiveMoves(s, a, NextThreads(s, a)[t].key);
  }

  lemma CacheIsLiveKept(s: State, a: Action, key: string)
    requires Enabled(s, a) && Benign(s, a)
    requires CacheIsLive(s, key)
    requires a.Store? ==> PresentsLive(s, a.t)
    requires PendingMoves(s, a, key)
    ensures CacheIsLive(Next(s, a), key)
  {
    LiveMoves(s, a, key);
    if !(a.Store? && s.threads[a.t].key == key) { EntryMoves(s, a, key); }
  }

  /** Only an answer starts a pending grant, and only a store ends it. */
  ghost predicate PendingMoves(s: State, a: Action, key: string)
    requires Enabled(s, a)
  {
    && (a.Answer? && s.threads[a.t].key == key ==> !HasPending(s, key) && HasPending(Next(s, a), key))
    && (a.Store? && s.threads[a.t].key == key ==> HasPending(s, key) && !HasPending(Next(s, a), key))
    && (!((a.Answer? || a.Store?) && s.threads[a.t].key == key) ==> HasPending(s, key) == HasPending(Next(s, a), key))
  }

  lemma StoreEndsPending(s: State, a: Action)
    requires a.Store? && Enabled(s, a) && forall t :: ApartFromMover(s, a, t)
    ensures !HasPending(Next(s, a), s.threads[a.t].key)
  {
    var threads, key := NextThreads(s, a), s.threads[a.t].key;
    if HasPending(Next(s, a), key) {
      var u :| u in threads && Pending(threads[u]) && threads[u].key == key;
      assert ApartFromMover(s, a, u);
      if u != a.t { OthersStay(s, a, u); }
    }
  }

  lemma PendingEnds(s: State, a: Action, key: string)
    requires Enabled(s, a) && HasPending(s, key) && forall t :: ApartFromMover(s, a, t)
    ensures PendingMoves(s, a, key)
  {
    var threads := NextThreads(s, a);
    var t :| t in s.threads && Pending(s.threads[t]) && s.threads[t].key == key;
    assert ApartFromMover(s, a, t);
    if a.Store? && s.threads[a.t].key == key {
      StoreEndsPending(s, a);
    } else {
      if Mover(a) == Some(t) { assert a.Stamp? || a.Store?; } else { OthersStay(s, a, t); }
      assert t in threads && Pending(threads[t]) && threads[t].key == key;
    }
  }

  lemma PendingStarts(s: State, a: Action, key: string)
    requires Enabled(s, a) && !HasPending(s, key)
    ensures PendingMoves(s, a, key)
  {
    var threads := NextThreads(s, a);
    if HasPending(Next(s, a), key) {
      var t :| t in threads && Pending(threads[t]) && threads[t].key == key;
      if Mover(a) == Some(t) { RequestsComeFrom(s, a); } else { OthersStay(s, a, t); }
      if a.Stamp? { assert Pending(s.threads[a.t]); }
    }
    if a.Answer? { assert Pending(threads[a.t]); }
    if a.Store? { assert Pending(s.threads[a.t]); }
  }

  /** Successful refreshes are paid for by losses of usable tokens, but for one. */
  ghost predicate Accounted(s: State, key: string) {
    Count(s.server.grants, key) <=
    Count(s.losses, key) + (if HasUsable(s.tokens, key, s.now) then 1 else 0) + (if HasPending(s, key) then 1 else 0)
  }

  lemma AccountedKept(s: State, a: Action, key: string)
    requires Enabled(s, a) && Benign(s, a)
    requires Accounted(s, key) && PendingMoves(s, a, key)
    requires a.Answer? || a.Store? ==> Justified(s, a.t)
    ensures Accounted(Next(s, a), key)
  {
    if !(a.Store? && s.threads[a.t].key == key) { UsableComesFromStore(s, a, key); }
  }

  ghost predicate Distinct(c: seq<string>) { forall i, j :: 0 <= i < j < |c| ==> c[i] != c[j] }

  /** A cleared access token is gone for good. */
  ghost predicate ClearedOnce(s: State, key: string) {
    && Distinct(ClearedOf(s, key))
    && (forall a :: a in ClearedOf(s, key) ==> a in s.server.issued && a != "")
    && (key in s.tokens ==> s.tokens[key].access !in ClearedOf(s, key))
    && (key in s.tokens && s.tokens[key].access != "" ==> s.tokens[key].access in s.server.issued)
  }

  /** An access token on its way is in nobody's cache and was never cleared. */
  ghost predicate NewToken(s: State, t: nat)
    requires t in s.threads
  {
    var pc := s.threads[t];
    Pending(pc) ==>
      && PendingAccess(pc) in s.server.issued && PendingAccess(pc) != "" && PendingAccess(pc) !in ClearedOf(s, pc.key)
      && (pc.key in s.tokens ==> s.tokens[pc.key].access != PendingAccess(pc))
  }

  lemma ClearedOnceKept(s: State, a: Action, key: string)
    requires Enabled(s, a) && Benign(s, a)
    requires ClearedOnce(s, key)
    requires a.Store? ==> NewToken(s, a.t)
    ensures ClearedOnce(Next(s, a), key)
  {
    if !(a.Store? && s.threads[a.t].key == key) { EntryMoves(s, a, key); }
  }

  lemma NewTokenKept(s: State, a: Action, t: nat)
    requires Enabled(s, a) && Benign(s, a)
    requires t in s.threads ==> NewToken(s, t) && ClearedOnce(s, s.threads[t].key)
    requires ApartFromMover(s, a, t)
    requires t in NextThreads(s, a)
    ensures NewToken(Next(s, a), t)
  {
    if Pending(NextThreads(s, a)[t]) {
      if Mover(a) == Some(t) {
        RequestsComeFrom(s, a);
      } else {
        OthersStay(s, a, t);
      }
      var key := s.threads[t].key;
      EntryMoves(s, a, key);
      ClearedMoves(s, a, key);
    }
  }

  /** Only what the cache held is cleared. */
  lemma ClearedMoves(s: State, a: Action, key: string)
    requires Enabled(s, a)
    ensures forall x :: x in ClearedOf(Next(s, a), key) ==>
            x in ClearedOf(s, key) || (key in s.tokens && x == s.tokens[key].access)
  {
  }

  // ---------------------------------------------------------------------
  // Whole runs
  // ---------------------------------------------------------------------

  ghost predicate ThreadInv(s: State, t: nat)
    requires t in s.threads
  {
    Locked(s, t) && Justified(s, t) && PresentsLive(s, t) && NewToken(s, t)
  }

  ghost predicate KeyInv(s: State, key: string) {
    CacheIsLive(s, key) && Accounted(s, key) && ClearedOnce(s, key)
  }

  ghost predicate Inv(s: State) {
    Locking(s) && (forall t :: t in s.threads ==> ThreadInv(s, t)) && (forall key :: KeyInv(s, key))
  }

  lemma ThreadInvKept(s: State, a: Action, t: nat)
    requires Inv(s) && Enabled(s, a) && Benign(s, a)
    requires t in NextThreads(s, a)
    requires ApartFromMover(s, a, t)
    requires a.SendRefresh? ==> !HasPending(s, s.threads[a.t].key)
    ensures ThreadInv(Next(s, a), t)
  {
    if t in s.threads { assert ThreadInv(s, t); assert KeyInv(s, s.threads[t].key); }
    if a.Return? { assert ThreadInv(s, a.t); }
    if a.SendRefresh? { assert KeyInv(s, s.threads[a.t].key); }
    LockedKept(s, a, t);
    JustifiedKept(s, a, t);
    PresentsLiveKept(s, a, t);
    NewTokenKept(s, a, t);
  }

  lemma KeyInvKept(s: State, a: Action, key: string)
    requires Inv(s) && Enabled(s, a) && Benign(s, a)
    requires forall t :: ApartFromMover(s, a, t)
    ensures KeyInv(Next(s, a), key)
  {
    assert KeyInv(s, key);
    if a.Store? || a.Answer? { assert ThreadInv(s, a.t); }
    if HasPending(s, key) { PendingEnds(s, a, key); } else { PendingStarts(s, a, key); }
    CacheIsLiveKept(s, a, key);
    AccountedKept(s, a, key);
    ClearedOnceKept(s, a, key);
  }

  lemma NoneElsePending(s: State, t: nat)
    requires Locking(s) && t in s.threads && s.threads[t].Checked?
    ensures !HasPending(s, s.threads[t].key)
  {
    if HasPending(s, s.threads[t].key) {
      var u :| u in s.threads && Pending(s.threads[u]) && s.threads[u].key == s.threads[t].key;
      LockingExcludes(s, t, u);
    }
  }

  lemma InvKept(s: State, a: Action)
    requires Inv(s) && Enabled(s, a) && Benign(s, a)
    ensures Inv(Next(s, a))
  {
    var s' := Next(s, a);
    forall t
      ensures ApartFromMover(s, a, t)
    {
      if Mover(a).Some? { LockingExcludes(s, t, Mover(a).value); }
    }
    if a.SendRefresh? { NoneElsePending(s, a.t); }
    forall t | t in s'.threads
      ensures ThreadInv(s', t)
    {
      ThreadInvKept(s, a, t);
    }
    forall key
      ensures KeyInv(s', key)
    {
      KeyInvKept(s, a, key);
    }
  }

  lemma {:induction false} InvHolds(ss: seq<State>, acts: seq<Action>, i: nat)
    requires IsBenignRun(ss, acts) && i < |ss|
    ensures Inv(ss[i])
  {
    if i == 0 {
      assert forall key :: !HasPending(ss[0], key);
    } else {
      InvHolds(ss, acts, i - 1);
      InvKept(ss[i - 1], acts[i - 1]);
    }
  }

  /** A refresh of the key is under way: its request may be out or answered. */
  predicate InFlight(pc: Pc, key: string) { (pc.Refreshing? || Pending(pc)) && pc.key == key }

  /** The key's own provider is not invalidated in the first `n` steps. */
  ghost predicate KeepsMutex(acts: seq<Action>, key: string, n: nat) {
    forall i :: 0 <= i < n && i < |acts| ==> !Drops(acts[i], key)
  }

  lemma {:induction false} LockingHolds(ss: seq<State>, acts: seq<Action>, i: nat, key: string)
    requires IsRun(ss, acts) && i < |ss| && KeepsMutex(acts, key, i)
    ensures forall t :: t in ss[i].threads ==> Owns(ss[i], t) && OnMutex(ss[i], t, key)
  {
    if i > 0 {
      var s, a := ss[i - 1], acts[i - 1];
      LockingHolds(ss, acts, i - 1, key);
      forall t | t in NextThreads(s, a)
        ensures Owns(Next(s, a), t) && OnMutex(Next(s, a), t, key)
      {
        OwnsKept(s, a, t);
        OnMutexKept(s, a, t, key);
      }
    }
  }

  /**
   At most one refresh of a key is in flight at any moment of any run that has not
   invalidated the key's provider, whatever else is done to this key or others.
   */
  lemma SingleFlight(ss: seq<State>, acts: seq<Action>, i: nat, key: string, t1: nat, t2: nat)
    requires IsRun(ss, acts) && i < |ss| && KeepsMutex(acts, key, i)
    requires t1 in ss[i].threads && InFlight(ss[i].threads[t1], key)
    requires t2 in ss[i].threads && InFlight(ss[i].threads[t2], key)
    ensures t1 == t2
  {
    LockingHolds(ss, acts, i, key);
    assert Owns(ss[i], t1) && OnMutex(ss[i], t1, key) && Owns(ss[i], t2) && OnMutex(ss[i], t2, key);
  }

  /** Every request presents the refresh token the rotating server holds at that moment. */
  lemma RequestsPresentTheLiveToken(ss: seq<State>, acts: seq<Action>, i: nat, t: nat)
    requires IsBenignRun(ss, acts) && i < |ss|
    requires t in ss[i].threads && ss[i].threads[t].Refreshing?
    ensures ss[i].threads[t].presented == Live(ss[i], ss[i].threads[t].key)
  {
    InvHolds(ss, acts, i);
    assert ThreadInv(ss[i], t);
  }

  /** The mutex is locked by a call that is in the critical section over it. */
  predicate IsHeld(s: State, m: nat)
    requires m in s.owner
  {
    s.owner[m] in s.threads && InCritical(s.threads[s.owner[m]]) && s.threads[s.owner[m]].m == m
  }

  lemma HeldKept(s: State, a: Action, m: nat)
    requires Enabled(s, a) && (m in s.owner ==> IsHeld(s, m)) && m in NextOwner(s, a)
    ensures IsHeld(Next(s, a), m)
  {
    if m in s.owner && Mover(a) != Some(s.owner[m]) { OthersStay(s, a, s.owner[m]); }
  }

  /** In every run no mutex stays locked after the call that locked it has left. */
  lemma {:induction false} LockedMutexesAreHeld(ss: seq<State>, acts: seq<Action>, i: nat)
    requires IsRun(ss, acts) && i < |ss|
    ensures forall m :: m in ss[i].owner ==> IsHeld(ss[i], m)
  {
    if i > 0 {
      LockedMutexesAreHeld(ss, acts, i - 1);
      var s := ss[i];
      forall m | m in s.owner
        ensures IsHeld(s, m)
      {
        HeldKept(ss[i - 1], acts[i - 1], m);
      }
    }
  }

  /** In every run a call is handed a cached token exactly when it is good for more than a minute. */
  lemma HitsAreFresh(ss: seq<State>, acts: seq<Action>, i: nat)
    requires IsRun(ss, acts) && i < |acts|
    requires acts[i].FastHit? || acts[i].FastMiss? || acts[i].RecheckHit? || acts[i].RecheckMiss?
    ensures acts[i].t in ss[i].threads && (ss[i].threads[acts[i].t].Started? || ss[i].threads[acts[i].t].Holding?)
    ensures var s, key := ss[i], ss[i].threads[acts[i].t].key;
            acts[i].FastHit? || acts[i].RecheckHit? <==>
              && key in s.tokens && s.tokens[key].access != ""
              && (s.tokens[key].expiresAt.None? || s.tokens[key].expiresAt.value > s.now + 60)
  {
    UsableExactlyWhen(ss[i].tokens, ss[i].threads[acts[i].t].key, ss[i].now);
  }

  /** Successful refreshes number at most one more than the usable tokens lost. */
  lemma RefreshesAreBounded(ss: seq<State>, acts: seq<Action>, i: nat, key: string)
    requires IsBenignRun(ss, acts) && i < |ss|
    ensures Count(ss[i].server.grants, key) <= Count(ss[i].losses, key) + 1
  {
    InvHolds(ss, acts, i);
    var s := ss[i];
    assert KeyInv(s, key);
    if HasPending(s, key) {
      var t :| t in s.threads && Pending(s.threads[t]) && s.threads[t].key == key;
      assert ThreadInv(s, t);
    }
  }

  /** However often an access token is rejected, it is cleared at most once. */
  lemma EachTokenIsClearedOnce(ss: seq<State>, acts: seq<Action>, i: nat, key: string)
    requires IsBenignRun(ss, acts) && i < |ss|
    ensures Distinct(ClearedOf(ss[i], key))
  {
    InvHolds(ss, acts, i);
    assert KeyInv(ss[i], key);
  }

  // ---------------------------------------------------------------------
  // Why dropping the mutexes is excluded
  // ---------------------------------------------------------------------

  lemma Extend(ss: seq<State>, acts: seq<Action>, a: Action) returns (ss': seq<State>, acts': seq<Action>)
    requires IsRun(ss, acts) && Enabled(ss[|ss| - 1], a)
    ensures IsRun(ss', acts') && ss <= ss' && |ss'| == |ss| + 1 && acts' == acts + [a]
    ensures ss'[|ss| - 1] == ss[|ss| - 1] && ss'[|ss|] == Next(ss[|ss| - 1], a)
  {
    ss', acts' := ss + [Next(ss[|ss| - 1], a)], acts + [a];
  }

  /** A call on `key` from its start to the mutex it makes, when nothing is cached. */
  lemma RunToMutex(ss: seq<State>, acts: seq<Action>, t: nat, key: string, configured: string)
    returns (ss': seq<State>, acts': seq<Action>)
    requires IsRun(ss, acts)
    requires var s := ss[|ss| - 1]; t !in s.threads && key !in s.tokens && key !in s.inflight
    ensures IsRun(ss', acts') && ss <= ss'
    ensures var s, s' := ss[|ss| - 1], ss'[|ss'| - 1];
            && s'.threads == s.threads[t := Waiting(key, configured, s.minted)]
            && s'.tokens == s.tokens && s'.inflight == s.inflight[key := s.minted]
            && s'.owner == s.owner && s'.minted == s.minted + 1
  {
    ss', acts' := Extend(ss, acts, Call(t, key, configured));
    ss', acts' := Extend(ss', acts', FastMiss(t));
    ss', acts' := Extend(ss', acts', MakeMutex(t));
  }

  /** From the mutex to the request. */
  lemma RunToRequest(ss: seq<State>, acts: seq<Action>, t: nat, key: string, configured: string, m: nat)
    returns (ss': seq<State>, acts': seq<Action>)
    requires IsRun(ss, acts)
    requires var s := ss[|ss| - 1];
             t in s.threads && s.threads[t] == Waiting(key, configured, m) && m !in s.owner && key !in s.tokens &&
               configured != ""
    ensures IsRun(ss', acts') && ss <= ss'
    ensures var s, s' := ss[|ss| - 1], ss'[|ss'| - 1];
            && s'.threads == s.threads[t := Refreshing(key, m, configured)]
            && s'.tokens == s.tokens && s'.inflight == s.inflight
            && s'.owner == s.owner[m := t] && s'.minted == s.minted
  {
    ss', acts' := Extend(ss, acts, Acquire(t));
    ss', acts' := Extend(ss', acts', RecheckMiss(t));
    ss', acts' := Extend(ss', acts', SendRefresh(t));
  }

  ghost predicate TwoInFlight(s: State, key: string) {
    exists t1: nat, t2: nat ::
      t1 != t2 && t1 in s.threads && t2 in s.threads && InFlight(s.threads[t1], key) && InFlight(s.threads[t2], key)
  }

  lemma FirstRequest(s: State, key: string, configured: string) returns (ss: seq<State>, acts: seq<Action>)
    requires Init(s) && configured != ""
    ensures IsRun(ss, acts) && ss[0] == s
    ensures var s' := ss[|ss| - 1];
            && s'.threads == map[1 := Refreshing(key, s.minted, configured)] && s'.tokens == map[]
            && s'.inflight == map[key := s.minted] && s'.owner == map[s.minted := 1] && s'.minted == s.minted + 1
  {
    ss, acts := RunToMutex([s], [], 1, key, configured);
    ss, acts := RunToRequest(ss, acts, 1, key, configured, s.minted);
  }

  /** One `invalidate_provider` between two calls lets both refresh at once. */
  lemma DroppingMutexesBreaksExclusion(s: State, provider: string, account: string, configured: string)
    requires Init(s) && configured != ""
    ensures exists ss: seq<State>, acts ::
              IsRun(ss, acts) && ss[0] == s && TwoInFlight(ss[|ss| - 1], KeyOf(provider, account))
  {
    var key := KeyOf(provider, account);
    assert BelongsTo(key, provider) by { assert key[..|provider + ":"|] == provider + ":"; }
    var ss, acts := FirstRequest(s, key, configured);
    ss, acts := Extend(ss, acts, InvalidateProvider(provider));
    ss, acts := RunToMutex(ss, acts, 2, key, configured);
    ss, acts := RunToRequest(ss, acts, 2, key, configured, s.minted + 1);
    var last := ss[|ss| - 1];
    assert InFlight(last.threads[1], key) && InFlight(last.threads[2], key);
    assert TwoInFlight(last, key);
  }

  // ---------------------------------------------------------------------
  // The cache object's `apply` takes these steps
  // ---------------------------------------------------------------------

  function Last(ss: seq<State>): State
    requires |ss| > 0
  {
    ss[|ss| - 1]
  }

  /** As `s`, but call `t` stands at `pc` and some time may have passed. */
  ghost predicate StandsAt(s': State, s: State, t: nat, pc: Pc) {
    && t in s'.threads && s'.threads[t] == pc && s'.tokens == s.tokens && s'.server == s.server &&
       s'.genesis == s.genesis
    && (InCritical(pc) ==> pc.m in s'.owner)
  }

  lemma StillStands(s: State, s0: State, t: nat, pc: Pc, a: Action)
    requires StandsAt(s, s0, t, pc) && Enabled(s, a) && Mover(a) == Some(t) && !Ends(a) && !a.Store? && !a.Answer?
    ensures StandsAt(Next(s, a), s0, t, NextPc(s, a)) && Next(s, a).now == s.now
  {
    assert NextTokens(s, a) == s.tokens;
  }

  /** Call `t` takes one step. */
  lemma Moved(ss: seq<State>, acts: seq<Action>, s: State, t: nat, pc: Pc, a: Action)
    returns (ss': seq<State>, acts': seq<Action>)
    requires IsRun(ss, acts) && StandsAt(Last(ss), s, t, pc)
    requires Enabled(Last(ss), a) && Mover(a) == Some(t) && !Ends(a) && !a.Store? && !a.Answer?
    ensures IsRun(ss', acts') && StandsAt(Last(ss'), s, t, NextPc(Last(ss), a)) && Last(ss').now == Last(ss).now
  {
    ss', acts' := Extend(ss, acts, a);
    StillStands(Last(ss), s, t, pc, a);
  }

  lemma Waited(ss: seq<State>, acts: seq<Action>, s: State, t: nat, pc: Pc, now: nat)
    returns (ss': seq<State>, acts': seq<Action>)
    requires IsRun(ss, acts) && StandsAt(Last(ss), s, t, pc) && Last(ss).now <= now
    ensures IsRun(ss', acts') && StandsAt(Last(ss'), s, t, pc) && Last(ss').now == now
  {
    ss', acts' := Extend(ss, acts, Tick(now - Last(ss).now));
  }

  function MutexOf(s: State, key: string): nat { if key in s.inflight then s.inflight[key] else s.minted }

  lemma ToTheMiss(ss: seq<State>, acts: seq<Action>, t: nat, key: string, configured: string)
    returns (ss': seq<State>, acts': seq<Action>)
    requires IsRun(ss, acts)
    requires t !in Last(ss).threads && !HasUsable(Last(ss).tokens, key, Last(ss).now)
    ensures IsRun(ss', acts') && StandsAt(Last(ss'), Last(ss), t, Missed(key, configured))
    ensures Last(ss').owner == Last(ss).owner && Last(ss').now == Last(ss).now
    ensures Last(ss').inflight == Last(ss).inflight && Last(ss').minted == Last(ss).minted
  {
    ss', acts' := Extend(ss, acts, Call(t, key, configured));
    ss', acts' := Extend(ss', acts', FastMiss(t));
  }

  lemma ToTheMutex(ss: seq<State>, acts: seq<Action>, t: nat, key: string, configured: string)
    returns (ss': seq<State>, acts': seq<Action>)
    requires IsRun(ss, acts)
    requires t !in Last(ss).threads && !HasUsable(Last(ss).tokens, key, Last(ss).now)
    ensures IsRun(ss', acts') && StandsAt(Last(ss'), Last(ss), t, Waiting(key, configured, MutexOf(Last(ss), key)))
    ensures Last(ss').owner == Last(ss).owner && Last(ss').now == Last(ss).now
  {
    ss', acts' := ToTheMiss(ss, acts, t, key, configured);
    ss', acts' := Extend(ss', acts', if key in Last(ss).inflight then FindMutex(t) else MakeMutex(t));
  }

  lemma StaysUnusable(tokens: map<string, CachedToken>, key: string, now: nat, later: nat)
    requires !HasUsable(tokens, key, now) && now <= later
    ensures !HasUsable(tokens, key, later)
  {
  }

  /** A call that waits for a free mutex gets to its re-check, and past it. */
  lemma PastTheRecheck(ss: seq<State>, acts: seq<Action>, s: State, t: nat, key: string, configured: string, m: nat,
                       again: nat)
    returns (ss': seq<State>, acts': seq<Action>)
    requires IsRun(ss, acts) && StandsAt(Last(ss), s, t, Waiting(key, configured, m))
    requires m !in Last(ss).owner && !HasUsable(s.tokens, key, again) && Last(ss).now <= again
    ensures IsRun(ss', acts') && StandsAt(Last(ss'), s, t, Checked(key, configured, m)) && Last(ss').now == again
  {
    ss', acts' := Moved(ss, acts, s, t, Waiting(key, configured, m), Acquire(t));
    ss', acts' := Waited(ss', acts', s, t, Holding(key, configured, m), again);
    ss', acts' := Moved(ss', acts', s, t, Holding(key, configured, m), RecheckMiss(t));
  }

  /** The server answers. */
  lemma Answered(ss: seq<State>, acts: seq<Action>, s: State, t: nat, key: string, m: nat, presented: string,
                 reply: Reply)
    returns (ss': seq<State>, acts': seq<Action>)
    requires IsRun(ss, acts) && StandsAt(Last(ss), s, t, Refreshing(key, m, presented))
    requires presented == Live(s, key) && reply.access != "" && reply.access !in s.server.issued &&
             reply.refresh != Some("")
    ensures IsRun(ss', acts') && Last(ss').now == Last(ss).now
    ensures StandsAt(Last(ss'), s.(server := Last(ss').server), t, Granted(key, m, presented, reply))
  {
    ss', acts' := Extend(ss, acts, Answer(t, reply));
  }

  /** The answer is stamped and stored. */
  lemma Stored(ss: seq<State>, acts: seq<Action>, s: State, t: nat, key: string, m: nat, presented: string,
               reply: Reply, stamp: nat)
    returns (ss': seq<State>, acts': seq<Action>)
    requires IsRun(ss, acts) && StandsAt(Last(ss), s, t, Granted(key, m, presented, reply)) && Last(ss).now <= stamp
    ensures IsRun(ss', acts')
    ensures StandsAt(Last(ss'), s.(tokens := s.tokens[key := Stamped(reply, presented, stamp)]), t, Leaving(key, m))
  {
    ss', acts' := Waited(ss, acts, s, t, Granted(key, m, presented, reply), stamp);
    ss', acts' := Moved(ss', acts', s, t, Granted(key, m, presented, reply), Stamp(t));
    ss', acts' := Extend(ss', acts', Store(t));
  }

  /** The call returns. */
  lemma Returned(ss: seq<State>, acts: seq<Action>, s: State, t: nat, key: string, m: nat)
    returns (ss': seq<State>, acts': seq<Action>)
    requires IsRun(ss, acts) && StandsAt(Last(ss), s, t, Leaving(key, m))
    ensures IsRun(ss', acts') && Last(ss').tokens == s.tokens && t !in Last(ss').threads
  {
    ss', acts' := Extend(ss, acts, Return(t));
  }

  /** What `apply` leaves in the cache when nobody interferes. */
  function Applied(tokens: map<string, CachedToken>, key: string, configured: string, answer: string -> Option<Reply>,
                   stamp: nat): map<string, CachedToken> {
    var presented := RefreshTokenFor(tokens, key, configured);
    if presented == "" || answer(presented).None? then tokens
    else tokens[key := Stamped(answer(presented).value, presented, stamp)]
  }

  /** That is what the object's contract says of a call nobody interferes with. */
  method ApplyAlone(cache: OAuthTokenCache, provider: string, account: string, configured: string,
                    answer: string -> Option<Reply>, fast: nat, again: nat, stamp: nat)
    returns (injected: Option<string>)
    requires fast <= again <= stamp && !HasUsable(cache.tokens, KeyOf(provider, account), fast)
    modifies cache
    ensures cache.tokens == Applied(old(cache.tokens), KeyOf(provider, account), configured, answer, stamp)
  {
    StaysUnusable(cache.tokens, KeyOf(provider, account), fast, again);
    injected := cache.Apply(provider, account, configured, answer, tokens => tokens, tokens => tokens, fast, again,
                            stamp);
  }

  /** The server answers only the key's live refresh token, and with a new access token. */
  ghost predicate Rotates(s: State, key: string, answer: string -> Option<Reply>) {
    forall presented :: answer(presented).Some? ==>
      && presented == Live(s, key) && answer(presented).value.access != ""
      && answer(presented).value.access !in s.server.issued && answer(presented).value.refresh != Some("")
  }

  /** From the re-check to the return. */
  lemma ToTheReturn(ss: seq<State>, acts: seq<Action>, s: State, t: nat, key: string, configured: string, m: nat,
                    answer: string -> Option<Reply>, stamp: nat)
    returns (ss': seq<State>, acts': seq<Action>)
    requires IsRun(ss, acts) && StandsAt(Last(ss), s, t, Checked(key, configured, m))
    requires Last(ss).now <= stamp && Rotates(s, key, answer)
    ensures IsRun(ss', acts') && Last(ss').tokens == Applied(s.tokens, key, configured, answer, stamp)
    ensures t !in Last(ss').threads
  {
    var presented := RefreshTokenFor(s.tokens, key, configured);
    var s' := s;
    if presented == "" {
      ss', acts' := Moved(ss, acts, s, t, Checked(key, configured, m), NothingToSend(t));
    } else {
      ss', acts' := Moved(ss, acts, s, t, Checked(key, configured, m), SendRefresh(t));
      match answer(presented)
      case None =>
        ss', acts' := Moved(ss', acts', s, t, Refreshing(key, m, presented), Fail(t));
      case Some(reply) =>
        ss', acts' := Answered(ss', acts', s, t, key, m, presented, reply);
        s' := s.(server := Last(ss').server);
        ss', acts' := Stored(ss', acts', s', t, key, m, presented, reply, stamp);
        s' := s'.(tokens := s'.tokens[key := Stamped(reply, presented, stamp)]);
    }
    ss', acts' := Returned(ss', acts', s', t, key, m);
  }

  /**
   From every reachable state, a call that finds nothing usable, whose mutex is
   free and with which nobody interferes takes steps of this relation to the very
   tokens `OAuthTokenCache.Apply` leaves.
   */
  lemma ApplyTakesTheSteps(ss: seq<State>, acts: seq<Action>, t: nat, key: string, configured: string,
                           answer: string -> Option<Reply>, again: nat, stamp: nat)
    returns (ss': seq<State>, acts': seq<Action>)
    requires IsRun(ss, acts) && Last(ss).now <= again <= stamp
    requires t !in Last(ss).threads && !HasUsable(Last(ss).tokens, key, Last(ss).now)
    requires MutexOf(Last(ss), key) !in Last(ss).owner && Rotates(Last(ss), key, answer)
    ensures IsRun(ss', acts') && Last(ss').tokens == Applied(Last(ss).tokens, key, configured, answer, stamp)
    ensures t !in Last(ss').threads
  {
    var s := Last(ss);
    StaysUnusable(s.tokens, key, s.now, again);
    ss', acts' := ToTheMutex(ss, acts, t, key, configured);
    ss', acts' := PastTheRecheck(ss', acts', s, t, key, configured, MutexOf(s, key), again);
    ss', acts' := ToTheReturn(ss', acts', s, t, key, configured, MutexOf(s, key), answer, stamp);
  }
}
