/**
 The second OAuth applier: per-label state behind one lock, refreshed under a
 per-label mutex by `apply` and without it by an explicit `refresh`.
 */
module LabelApplier {
  import opened Wrappers
  import TokenCache

  datatype Token = Token(access: string, refresh: Option<string>, expiresAt: Option<nat>)

  /** The cached token of a label and the mutex its refreshes queue on. */
  datatype LabelState = LabelState(cached: Option<Token>, inflight: nat)

  predicate IsExpiring(token: Token, leeway: nat, now: nat) {
    token.expiresAt.Some? && TokenCache.SaturatingSub(token.expiresAt.value, now) <= leeway
  }

  function CachedOf(labels: map<string, LabelState>, name: string): Option<Token> {
    if name in labels then labels[name].cached else None
  }

  predicate HasFresh(labels: map<string, LabelState>, name: string, leeway: nat, now: nat) {
    CachedOf(labels, name).Some? && !IsExpiring(CachedOf(labels, name).value, leeway, now)
  }

  function WithToken(labels: map<string, LabelState>, name: string, token: Token, spare: nat): map<string, LabelState> {
    labels[name := LabelState(Some(token), if name in labels then labels[name].inflight else spare)]
  }

  /** The locked map; mutexes are told apart by the order they were made in. */
  class OAuthAuthApplier {
    const leeway: nat
    var byLabel: map<string, LabelState>
    var minted: nat

    constructor (leeway: nat)
      ensures this.leeway == leeway && byLabel == map[] && minted == 0
    {
      this.leeway := leeway;
      byLabel, minted := map[], 0;
    }

    /** The label's mutex; only the first caller for a label makes one. */
    method StateFor(name: string) returns (m: nat)
      modifies this`byLabel, this`minted
      ensures name in byLabel && m == byLabel[name].inflight
      ensures name in old(byLabel) ==> byLabel == old(byLabel) && minted == old(minted)
      ensures name !in old(byLabel) ==>
                byLabel == old(byLabel)[name := LabelState(None, old(minted))] && minted == old(minted) + 1
    {
      if name in byLabel { return byLabel[name].inflight; }
      byLabel := byLabel[name := LabelState(None, minted)];
      minted := minted + 1;
      return byLabel[name].inflight;
    }

    /** Replaces the token, refresh token included, and keeps the mutex. */
    method StoreToken(name: string, access: string, refresh: Option<string>, expiresIn: Option<nat>, now: nat)
      modifies this`byLabel, this`minted
      ensures byLabel == WithToken(old(byLabel), name, TokenFrom(access, refresh, expiresIn, now), old(minted))
      ensures forall other :: other in old(byLabel) ==>
              other in byLabel && byLabel[other].inflight == old(byLabel)[other].inflight
    {
      var _ := StateFor(name);
      var expiresAt := if expiresIn.Some? then Some(now + expiresIn.value) else None;
      byLabel := byLabel[name := byLabel[name].(cached := Some(Token(access, refresh, expiresAt)))];
    }

    method Cached(name: string) returns (token: Option<Token>)
      ensures token == CachedOf(byLabel, name)
    {
      if name !in byLabel { return None; }
      return byLabel[name].cached;
    }
  }

  function TokenFrom(access: string, refresh: Option<string>, expiresIn: Option<nat>, now: nat): Token {
    Token(access, refresh, if expiresIn.Some? then Some(now + expiresIn.value) else None)
  }

  /** A token is handed out exactly when it is good for longer than the leeway. */
  lemma FreshExactlyWhen(labels: map<string, LabelState>, name: string, leeway: nat, now: nat)
    ensures HasFresh(labels, name, leeway, now) <==>
            && name in labels && labels[name].cached.Some?
            && (labels[name].cached.value.expiresAt.None? || labels[name].cached.value.expiresAt.value > now + leeway)
  {
  }

  /** A stored token is handed out until the leeway before its lifetime is over, and other labels keep theirs. */
  lemma StoredTokensLast(labels: map<string, LabelState>, name: string, access: string, refresh: Option<string>,
                         expiresIn: Option<nat>, now: nat, spare: nat, leeway: nat, later: nat, other: string)
    ensures var stored := WithToken(labels, name, TokenFrom(access, refresh, expiresIn, now), spare);
            && (HasFresh(stored, name, leeway, later) <==> expiresIn.None? || later + leeway < now + expiresIn.value)
            && stored[name].cached.value.access == access && stored[name].cached.value.refresh == refresh
            && stored.Keys == labels.Keys + {name}
            && (other in labels && other != name ==> stored[other] == labels[other])
            && (name in labels ==> stored[name].inflight == labels[name].inflight)
  {
  }

  // ---------------------------------------------------------------------
  // Concurrent calls
  // ---------------------------------------------------------------------

  datatype Reply = Reply(access: string, refresh: Option<string>, expiresIn: Option<nat>)

  /** Where a call stands; an explicit refresh has no mutex (`guard == None`). */
  datatype Pc =
    | Started(name: string)
    | Missed(name: string)
    | Waiting(name: string, m: nat)
    | Holding(name: string, m: nat)
    | Checked(name: string, m: nat)
    | Refreshing(name: string, guard: Option<nat>, presented: string)
    | Granted(name: string, guard: Option<nat>, reply: Reply)
    | Leaving(name: string, guard: Option<nat>)

  predicate InFlight(pc: Pc) { pc.Refreshing? || pc.Granted? }

  predicate InCritical(pc: Pc) { pc.Holding? || pc.Checked? || InFlight(pc) || pc.Leaving? }

  function MutexOf(pc: Pc): Option<nat> {
    if pc.Waiting? || pc.Holding? || pc.Checked? then Some(pc.m)
    else if InFlight(pc) || pc.Leaving? then pc.guard
    else None
  }

  datatype State = State(labels: map<string, LabelState>, minted: nat, owner: map<nat, nat>, now: nat, leeway: nat,
                         threads: map<nat, Pc>, live: map<string, string>)

  datatype Action =
    | Tick(d: nat)
    | Apply(t: nat, name: string)
    | Refresh(t: nat, name: string)           // the explicit, unlocked entry point
    | Exchange(name: string, reply: Reply)    // a login stores the token it was given
    | FastHit(t: nat)
    | FastMiss(t: nat)
    | FindState(t: nat)
    | MakeState(t: nat)
    | Acquire(t: nat)
    | RecheckHit(t: nat)
    | RecheckMiss(t: nat)
    | SendRefresh(t: nat)
    | NothingToSend(t: nat)
    | Answer(t: nat, reply: Reply)
    | Fail(t: nat)
    | Store(t: nat)
    | Return(t: nat)

  function RefreshTokenOf(s: State, name: string): Option<string> {
    match CachedOf(s.labels, name)
    case None => None
    case Some(token) => token.refresh
  }

  predicate Enabled(s: State, a: Action) {
    match a
    case Tick(_) => true
    case Exchange(_, _) => true
    case Apply(t, _) => t !in s.threads
    case Refresh(t, name) => t !in s.threads && RefreshTokenOf(s, name).Some?
    case _ =>
      && a.t in s.threads
      && var pc := s.threads[a.t];
         match a {
           case FastHit(_) => pc.Started? && HasFresh(s.labels, pc.name, s.leeway, s.now)
           case FastMiss(_) => pc.Started? && !HasFresh(s.labels, pc.name, s.leeway, s.now)
           case FindState(_) => pc.Missed? && pc.name in s.labels
           case MakeState(_) => pc.Missed? && pc.name !in s.labels
           case Acquire(_) => pc.Waiting? && pc.m !in s.owner
           case RecheckHit(_) => pc.Holding? && HasFresh(s.labels, pc.name, s.leeway, s.now)
           case RecheckMiss(_) => pc.Holding? && !HasFresh(s.labels, pc.name, s.leeway, s.now)
           case SendRefresh(_) => pc.Checked? && RefreshTokenOf(s, pc.name).Some?
           case NothingToSend(_) => pc.Checked? && RefreshTokenOf(s, pc.name).None?
           case Answer(_, _) => pc.Refreshing? && pc.name in s.live && pc.presented == s.live[pc.name]
           case Fail(_) => pc.Refreshing?
           case Store(_) => pc.Granted?
           case Return(_) => pc.Leaving?
         }
  }

  function Mover(a: Action): Option<nat> { if a.Tick? || a.Exchange? then None else Some(a.t) }

  predicate Ends(a: Action) { a.FastHit? || a.Return? }

  predicate Moves(s: State, a: Action) { Enabled(s, a) && Mover(a).Some? && !Ends(a) }

  function NextPc(s: State, a: Action): Pc
    requires Moves(s, a)
  {
    if a.Apply? then Started(a.name)
    else if a.Refresh? then Refreshing(a.name, None, RefreshTokenOf(s, a.name).value)
    else
      var pc := s.threads[a.t];
      match a
      case FastMiss(_) => Missed(pc.name)
      case FindState(_) => Waiting(pc.name, s.labels[pc.name].inflight)
      case MakeState(_) => Waiting(pc.name, s.minted)
      case Acquire(_) => Holding(pc.name, pc.m)
      case RecheckHit(_) => Leaving(pc.name, Some(pc.m))
      case RecheckMiss(_) => Checked(pc.name, pc.m)
      case SendRefresh(_) => Refreshing(pc.name, Some(pc.m), RefreshTokenOf(s, pc.name).value)
      case NothingToSend(_) => Leaving(pc.name, Some(pc.m))
      case Answer(_, reply) => Granted(pc.name, pc.guard, reply)
      case Fail(_) => Leaving(pc.name, pc.guard)
      case Store(_) => Leaving(pc.name, pc.guard)
  }

  function NextThreads(s: State, a: Action): map<nat, Pc>
    requires Enabled(s, a)
  {
    match Mover(a)
    case None => s.threads
    case Some(t) => if Ends(a) then s.threads - {t} else s.threads[t := NextPc(s, a)]
  }

  function NextLabels(s: State, a: Action): map<string, LabelState>
    requires Enabled(s, a)
  {
    match a
    case MakeState(t) => s.labels[s.threads[t].name := LabelState(None, s.minted)]
    case Store(t) =>
      var reply := s.threads[t].reply;
      WithToken(s.labels, s.threads[t].name, TokenFrom(reply.access, reply.refresh, reply.expiresIn, s.now), s.minted)
    case Exchange(name, reply) =>
      WithToken(s.labels, name, TokenFrom(reply.access, reply.refresh, reply.expiresIn, s.now), s.minted)
    case _ => s.labels
  }

  function NextOwner(s: State, a: Action): map<nat, nat>
    requires Enabled(s, a)
  {
    if a.Acquire? then s.owner[s.threads[a.t].m := a.t]
    else if a.Return? && s.threads[a.t].guard.Some? then s.owner - {s.threads[a.t].guard.value}
    else s.owner
  }

  function NextLive(s: State, a: Action): map<string, string>
    requires Enabled(s, a)
  {
    if a.Answer? && a.reply.refresh.Some? then s.live[s.threads[a.t].name := a.reply.refresh.value]
    else if a.Exchange? && a.reply.refresh.Some? then s.live[a.name := a.reply.refresh.value]
    else s.live
  }

  function Next(s: State, a: Action): State
    requires Enabled(s, a)
  {
    State(NextLabels(s, a), if a.MakeState? || a.Store? || a.Exchange? then s.minted + 1 else s.minted, NextOwner(s, a),
          if a.Tick? then s.now + a.d else s.now, s.leeway, NextThreads(s, a), NextLive(s, a))
  }

  /** Nothing runs, and every cached refresh token is the one the server holds. */
  ghost predicate Init(s: State) {
    s.owner == map[] && s.threads == map[] && forall name :: CachesLive(s, name)
  }

  ghost predicate CachesLive(s: State, name: string) {
    RefreshTokenOf(s, name).Some? ==> name in s.live && RefreshTokenOf(s, name).value == s.live[name]
  }

  ghost predicate IsRun(ss: seq<State>, acts: seq<Action>) {
    && |ss| == |acts| + 1
    && Init(ss[0])
    && forall i :: 0 <= i < |acts| ==> Enabled(ss[i], acts[i]) && ss[i + 1] == Next(ss[i], acts[i])
  }

  /** Not an explicit refresh, and not a login. */
  predicate OfApply(a: Action) { !a.Refresh? && !a.Exchange? }

  ghost predicate IsApplyOnlyRun(ss: seq<State>, acts: seq<Action>) {
    IsRun(ss, acts) && forall i :: 0 <= i < |acts| ==> OfApply(acts[i])
  }

  // ---------------------------------------------------------------------
  // What every step keeps
  // ---------------------------------------------------------------------

  lemma OthersStay(s: State, a: Action, t: nat)
    requires Enabled(s, a) && Mover(a) != Some(t)
    ensures t in NextThreads(s, a) <==> t in s.threads
    ensures t in s.threads ==> NextThreads(s, a)[t] == s.threads[t]
  {
  }

  /** In the critical section with a mutex: not an explicit refresh. */
  predicate IsGuarded(pc: Pc) { InCritical(pc) && MutexOf(pc).Some? }

  /** A call's mutex is its label's, and a call in the critical section owns the mutex it has. */
  ghost predicate Locked(s: State, t: nat)
    requires t in s.threads
  {
    var pc := s.threads[t];
    && (MutexOf(pc).Some? ==> pc.name in s.labels && s.labels[pc.name].inflight == MutexOf(pc).value)
    && (IsGuarded(pc) ==> MutexOf(pc).value in s.owner && s.owner[MutexOf(pc).value] == t)
  }

  lemma LabelsKeepTheirMutex(s: State, a: Action, name: string)
    requires Enabled(s, a) && name in s.labels
    ensures name in NextLabels(s, a) && NextLabels(s, a)[name].inflight == s.labels[name].inflight
  {
  }

  lemma LockedKept(s: State, a: Action, t: nat)
    requires Enabled(s, a)
    requires t in s.threads ==> Locked(s, t)
    requires a.Return? ==> Locked(s, a.t)
    requires t in NextThreads(s, a)
    ensures Locked(Next(s, a), t)
  {
    if Mover(a) != Some(t) { OthersStay(s, a, t); }
    if t in s.threads && s.threads[t].name in s.labels { LabelsKeepTheirMutex(s, a, s.threads[t].name); }
  }

  ghost predicate Apart(s: State, t1: nat, t2: nat) {
    t1 in s.threads && t2 in s.threads && t1 != t2 && IsGuarded(s.threads[t1]) && IsGuarded(s.threads[t2]) ==>
      s.threads[t1].name != s.threads[t2].name
  }

  ghost predicate Locking(s: State) { forall t :: t in s.threads ==> Locked(s, t) }

  lemma LockingExcludes(s: State, t1: nat, t2: nat)
    requires Locking(s)
    ensures Apart(s, t1, t2)
  {
    if t1 in s.threads && t2 in s.threads { assert Locked(s, t1) && Locked(s, t2); }
  }

  lemma LockingKept(s: State, a: Action)
    requires Locking(s) && Enabled(s, a)
    ensures Locking(Next(s, a))
  {
    forall t | t in NextThreads(s, a)
      ensures Locked(Next(s, a), t)
    {
      LockedKept(s, a, t);
    }
  }

  lemma {:induction false} LockingHolds(ss: seq<State>, acts: seq<Action>, i: nat)
    requires IsRun(ss, acts) && i < |ss|
    ensures Locking(ss[i])
  {
    if i > 0 {
      LockingHolds(ss, acts, i - 1);
      LockingKept(ss[i - 1], acts[i - 1]);
    }
  }

  /** Concurrent `apply` calls refresh a label one at a time, whatever refreshes and logins run beside them. */
  lemma AppliesAreSingleFlight(ss: seq<State>, acts: seq<Action>, i: nat, t1: nat, t2: nat)
    requires IsRun(ss, acts) && i < |ss|
    requires t1 in ss[i].threads && InFlight(ss[i].threads[t1]) && ss[i].threads[t1].guard.Some?
    requires t2 in ss[i].threads && InFlight(ss[i].threads[t2]) && ss[i].threads[t2].guard.Some?
    ensures ss[i].threads[t1].name == ss[i].threads[t2].name ==> t1 == t2
  {
    LockingHolds(ss, acts, i);
    LockingExcludes(ss[i], t1, t2);
  }

  // ---------------------------------------------------------------------
  // What every step of an apply-only run keeps
  // ---------------------------------------------------------------------

  /** Nobody is in the critical section without a mutex. */
  ghost predicate AllGuarded(s: State) {
    forall t :: t in s.threads && InCritical(s.threads[t]) ==> IsGuarded(s.threads[t])
  }

  ghost predicate PresentsLive(s: State, t: nat)
    requires t in s.threads
  {
    var pc := s.threads[t];
    && (pc.Refreshing? ==> pc.name in s.live && pc.presented == s.live[pc.name])
    && (pc.Granted? && pc.reply.refresh.Some? ==> pc.name in s.live && pc.reply.refresh.value == s.live[pc.name])
  }

  ghost predicate NoneGranted(s: State, name: string) {
    forall t :: t in s.threads && s.threads[t].Granted? ==> s.threads[t].name != name
  }

  lemma PresentsLiveKept(s: State, a: Action, t: nat)
    requires Enabled(s, a) && OfApply(a)
    requires t in s.threads ==> PresentsLive(s, t)
    requires Mover(a).Some? ==> Apart(s, t, Mover(a).value) && AllGuarded(s)
    requires a.SendRefresh? ==> CachesLive(s, s.threads[a.t].name)
    requires t in NextThreads(s, a)
    ensures PresentsLive(Next(s, a), t)
  {
    if Mover(a) != Some(t) { OthersStay(s, a, t); }
  }

  lemma CachesLiveKept(s: State, a: Action, name: string)
    requires Enabled(s, a) && OfApply(a)
    requires NoneGranted(s, name) ==> CachesLive(s, name)
    requires a.Store? ==> PresentsLive(s, a.t)
    requires NoneGranted(Next(s, a), name)
    ensures CachesLive(Next(s, a), name)
  {
    var threads := NextThreads(s, a);
    if a.Store? && s.threads[a.t].name == name {
    } else {
      if a.Answer? { assert threads[a.t].Granted?; }
      forall t | t in s.threads && s.threads[t].Granted?
        ensures s.threads[t].name != name
      {
        if Mover(a) != Some(t) { OthersStay(s, a, t); assert t in threads && threads[t].Granted?; }
      }
    }
  }

  ghost predicate Inv(s: State) {
    && Locking(s) && AllGuarded(s)
    && (forall t :: t in s.threads ==> PresentsLive(s, t))
    && (forall name :: NoneGranted(s, name) ==> CachesLive(s, name))
  }

  lemma InvKept(s: State, a: Action)
    requires Inv(s) && Enabled(s, a) && OfApply(a)
    ensures Inv(Next(s, a))
  {
    var s' := Next(s, a);
    if a.SendRefresh? {
      var name := s.threads[a.t].name;
      forall t | t in s.threads && s.threads[t].Granted?
        ensures s.threads[t].name != name
      {
        LockingExcludes(s, t, a.t);
      }
      assert NoneGranted(s, name);
    }
    forall t | t in s'.threads
      ensures Locked(s', t) && PresentsLive(s', t)
    {
      if t in s.threads { assert Locked(s, t); }
      if a.Return? { assert Locked(s, a.t); }
      LockedKept(s, a, t);
      if Mover(a).Some? { LockingExcludes(s, t, Mover(a).value); }
      PresentsLiveKept(s, a, t);
    }
    forall name | NoneGranted(s', name)
      ensures CachesLive(s', name)
    {
      CachesLiveKept(s, a, name);
    }
  }

  lemma {:induction false} InvHolds(ss: seq<State>, acts: seq<Action>, i: nat)
    requires IsApplyOnlyRun(ss, acts) && i < |ss|
    ensures Inv(ss[i])
  {
    if i > 0 {
      InvHolds(ss, acts, i - 1);
      InvKept(ss[i - 1], acts[i - 1]);
    }
  }

  /** In runs of `apply` alone every request presents the refresh token the server holds at that moment. */
  lemma AppliesPresentTheLiveToken(ss: seq<State>, acts: seq<Action>, i: nat, t: nat)
    requires IsApplyOnlyRun(ss, acts) && i < |ss|
    requires t in ss[i].threads && ss[i].threads[t].Refreshing?
    ensures ss[i].threads[t].name in ss[i].live && ss[i].threads[t].presented == ss[i].live[ss[i].threads[t].name]
  {
    InvHolds(ss, acts, i);
    assert PresentsLive(ss[i], t);
  }

  /** A refresh and a login store just the reply they got, with its lifetime counted from then. */
  lemma RepliesAreStored(ss: seq<State>, acts: seq<Action>, i: nat)
    requires IsRun(ss, acts) && i < |acts| && (acts[i].Store? || acts[i].Exchange?)
    ensures acts[i].Store? ==> acts[i].t in ss[i].threads && ss[i].threads[acts[i].t].Granted?
    ensures var (name, reply) := if acts[i].Exchange? then (acts[i].name, acts[i].reply)
                                 else (ss[i].threads[acts[i].t].name, ss[i].threads[acts[i].t].reply);
            && name in ss[i + 1].labels && ss[i + 1].labels[name].cached.Some?
            && var token := ss[i + 1].labels[name].cached.value;
               && token.access == reply.access && token.refresh == reply.refresh
               && token.expiresAt.Some? == reply.expiresIn.Some?
               && (token.expiresAt.Some? ==> token.expiresAt.value == ss[i].now + reply.expiresIn.value)
  {
  }

  /** The mutex is locked by a call that is in the critical section over it. */
  predicate IsHeld(s: State, m: nat)
    requires m in s.owner
  {
    && s.owner[m] in s.threads && IsGuarded(s.threads[s.owner[m]])
    && MutexOf(s.threads[s.owner[m]]) == Some(m)
  }

  lemma HeldKept(s: State, a: Action, m: nat)
    requires Enabled(s, a) && (m in s.owner ==> IsHeld(s, m)) && m in NextOwner(s, a)
    ensures IsHeld(Next(s, a), m)
  {
    if m in s.owner && Mover(a) != Some(s.owner[m]) { OthersStay(s, a, s.owner[m]); }
  }

  /** In every run no mutex stays locked after the call that locked it has left. */
  lemma {:induction false} LockedMutexesAreHeld(ss: seq<State>, acts: seq<Action>, i: nat)
    requires IsRun(ss, acts) && i < |ss|
    ensures forall m :: m in ss[i].owner ==> IsHeld(ss[i], m)
  {
    if i > 0 {
      LockedMutexesAreHeld(ss, acts, i - 1);
      var s := ss[i];
      forall m | m in s.owner
        ensures IsHeld(s, m)
      {
        HeldKept(ss[i - 1], acts[i - 1], m);
      }
    }
  }

  /** In every run a call is handed a cached token exactly when it is good for longer than the leeway. */
  lemma HitsAreFresh(ss: seq<State>, acts: seq<Action>, i: nat)
    requires IsRun(ss, acts) && i < |acts|
    requires acts[i].FastHit? || acts[i].FastMiss? || acts[i].RecheckHit? || acts[i].RecheckMiss?
    ensures acts[i].t in ss[i].threads
    ensures var s, name := ss[i], ss[i].threads[acts[i].t].name;
            acts[i].FastHit? || acts[i].RecheckHit? <==>
              && name in s.labels && s.labels[name].cached.Some?
              && (s.labels[name].cached.value.expiresAt.None? ||
                  s.labels[name].cached.value.expiresAt.value > s.now + s.leeway)
  {
    FreshExactlyWhen(ss[i].labels, ss[i].threads[acts[i].t].name, ss[i].leeway, ss[i].now);
  }

  /** Two explicit refreshes of one label can be in flight together. */
  lemma ExplicitRefreshesOverlap(s: State, name: string)
    requires Init(s) && RefreshTokenOf(s, name).Some?
    ensures exists ss: seq<State>, acts ::
              && IsRun(ss, acts) && ss[0] == s && |ss| == 3
              && 1 in ss[2].threads && 2 in ss[2].threads
              && InFlight(ss[2].threads[1]) && InFlight(ss[2].threads[2])
              && ss[2].threads[1].name == name == ss[2].threads[2].name
  {
    var a1, a2 := Refresh(1, name), Refresh(2, name);
    var s1 := Next(s, a1);
    assert Enabled(s1, a2);
    var s2 := Next(s1, a2);
    assert IsRun([s, s1, s2], [a1, a2]);
    assert s2.threads[1] == s1.threads[1];
  }

  // ---------------------------------------------------------------------
  // A reply without a refresh token
  // ---------------------------------------------------------------------

  /** The label holds a token that can no longer be refreshed. */
  ghost predicate Stranded(s: State, name: string) {
    && CachedOf(s.labels, name).Some? && RefreshTokenOf(s, name).None?
    && forall t :: t in s.threads && InFlight(s.threads[t]) ==> s.threads[t].name != name
  }

  /** Storing a reply that does not rotate the refresh token drops it. */
  lemma UnrotatedReplyStrands(ss: seq<State>, acts: seq<Action>, i: nat)
    requires IsApplyOnlyRun(ss, acts) && i < |acts| && acts[i].Store?
    requires ss[i].threads[acts[i].t].reply.refresh.None?
    ensures Stranded(ss[i + 1], ss[i].threads[acts[i].t].name)
  {
    InvHolds(ss, acts, i);
    var s, a := ss[i], acts[i];
    forall t | t in NextThreads(s, a) && InFlight(NextThreads(s, a)[t])
      ensures NextThreads(s, a)[t].name != s.threads[a.t].name
    {
      if t != a.t { OthersStay(s, a, t); LockingExcludes(s, t, a.t); }
    }
  }

  /** A stranded label is never refreshed again, whatever calls come, until somebody logs in anew. */
  lemma {:induction false} StrandedUntilLogin(ss: seq<State>, acts: seq<Action>, i: nat, j: nat, name: string)
    requires IsRun(ss, acts) && i <= j < |ss|
    requires Stranded(ss[i], name) && forall k :: i <= k < j ==> !LogsIn(acts[k], name)
    ensures Stranded(ss[j], name)
    decreases j
  {
    if i < j {
      StrandedUntilLogin(ss, acts, i, j - 1, name);
      StrandedKept(ss[j - 1], acts[j - 1], name);
    }
  }

  predicate LogsIn(a: Action, name: string) { a.Exchange? && a.name == name }

  lemma StrandedKept(s: State, a: Action, name: string)
    requires Stranded(s, name) && Enabled(s, a) && !LogsIn(a, name)
    ensures Stranded(Next(s, a), name)
  {
    forall t | t in NextThreads(s, a) && InFlight(NextThreads(s, a)[t])
      ensures NextThreads(s, a)[t].name != name
    {
      if Mover(a) != Some(t) { OthersStay(s, a, t); }
    }
  }
}
