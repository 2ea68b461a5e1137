/**
 The Redis quota counter: one atomic script per bucket, run by any number of
 gateways whose calls interleave bucket by bucket. Server time is in
 milliseconds; a key is gone from the millisecond its expiry is reached.
 */
module RedisQuota {
  import opened Arithmetic
  import opened Wrappers
  import opened Quota

  // ---------------------------------------------------------------------
  // Keys
  // ---------------------------------------------------------------------

  function Label(kind: Kind): string {
    match kind
    case RequestsPerMinute => "rpm"
    case RequestsPerDay => "rpd"
    case TokensPerMinute => "tpm"
    case TokensPerDay => "tpd"
  }

  function KeyFor(keyId: string, kind: Kind): string { "tiygate:quota:" + keyId + ":" + Label(kind) }

  /** Two buckets never share a Redis key. */
  lemma KeysAreDistinct(keyId: string, kind: Kind, keyId': string, kind': Kind)
    requires KeyFor(keyId, kind) == KeyFor(keyId', kind')
    ensures keyId == keyId' && kind == kind'
  {
    var key, n := KeyFor(keyId, kind), |"tiygate:quota:"|;
    assert |Label(kind)| == 3 && |Label(kind')| == 3;
    assert |keyId| == |keyId'|;
    assert keyId == key[n..n + |keyId|] == keyId';
    assert Label(kind) == key[|key| - 3..] == Label(kind');
    assert "rpm"[0] == 'r' && "rpd"[0] == 'r' && "tpm"[0] == 't' && "tpd"[0] == 't';
    assert "rpm"[2] == 'm' && "rpd"[2] == 'd' && "tpm"[2] == 'm' && "tpd"[2] == 'd';
  }

  datatype Bucket = Bucket(keyId: string, kind: Kind)

  // ---------------------------------------------------------------------
  // The script
  // ---------------------------------------------------------------------

  datatype Value = Value(n: nat, expiry: Option<nat>)

  predicate IsLive(v: Option<Value>, now: nat) { v.Some? && (v.value.expiry.Some? ==> now < v.value.expiry.value) }

  /** What `GET` sees. */
  function Stored(v: Option<Value>, now: nat): nat { if IsLive(v, now) then v.value.n else 0 }

  /** One run of the script on its key: the new value, or `None` when it answers -1. */
  function Script(v: Option<Value>, increment: nat, ttl: nat, limit: nat, now: nat): Option<Value> {
    var n := Stored(v, now);
    if n + increment > limit then None
    else
      var incremented := Value(n + increment, if IsLive(v, now) then v.value.expiry else None);
      Some(if incremented.n == increment then incremented.(expiry := Some(now + ttl)) else incremented)
  }

  // ---------------------------------------------------------------------
  // Gateways
  // ---------------------------------------------------------------------

  datatype Planned = Planned(kind: Kind, increment: nat, limit: nat)

  /** Only configured buckets are checked, in this order. */
  function Plan(spec: Spec, tokens: nat): seq<Planned> {
    (if spec.requestsPerMinute.Some? then [Planned(RequestsPerMinute, 1, spec.requestsPerMinute.value)] else []) +
    (if spec.requestsPerDay.Some? then [Planned(RequestsPerDay, 1, spec.requestsPerDay.value)] else []) +
    (if spec.tokensPerMinute.Some? then [Planned(TokensPerMinute, tokens, spec.tokensPerMinute.value)] else []) +
    (if spec.tokensPerDay.Some? then [Planned(TokensPerDay, tokens, spec.tokensPerDay.value)] else [])
  }

  datatype Outcome = Running | Allowed | Denied(kind: Kind) | FailedOpen

  /** A call under way; `charged` lists the scripts that went through. */
  datatype Call = Call(keyId: string, plan: seq<Planned>, charged: seq<Planned>, outcome: Outcome)

  datatype State = State(store: map<Bucket, Value>, now: nat, calls: map<nat, Call>, granted: map<Bucket, seq<Grant>>)

  datatype Action =
    | Tick(d: nat)
    | Begin(g: nat, keyId: string, tokens: nat)
    | RunScript(g: nat)
    | ScriptFails(g: nat)  // connection or script error: the call fails open

  function ValueOf(s: State, b: Bucket): Option<Value> { if b in s.store then Some(s.store[b]) else None }

  function GrantedOf(s: State, b: Bucket): seq<Grant> { if b in s.granted then s.granted[b] else [] }

  predicate Enabled(s: State, a: Action) {
    match a
    case Tick(_) => true
    case Begin(g, _, _) => g !in s.calls
    case RunScript(g) => g in s.calls && s.calls[g].outcome.Running?
    case ScriptFails(g) => g in s.calls && s.calls[g].outcome.Running?
  }

  /** The bucket and increment a running call tries next, if any is left. */
  function Upcoming(c: Call): Option<Planned> {
    if |c.charged| < |c.plan| then Some(c.plan[|c.charged|]) else None
  }

  function Target(s: State, g: nat): Bucket
    requires g in s.calls && Upcoming(s.calls[g]).Some?
  {
    Bucket(s.calls[g].keyId, Upcoming(s.calls[g]).value.kind)
  }

  function Result(s: State, g: nat): Option<Value>
    requires g in s.calls && Upcoming(s.calls[g]).Some?
  {
    var p := Upcoming(s.calls[g]).value;
    Script(ValueOf(s, Target(s, g)), p.increment, Window(p.kind), p.limit, s.now)
  }

  function NextCall(s: State, g: nat): Call
    requires g in s.calls
  {
    var c := s.calls[g];
    match Upcoming(c)
    case None => c.(outcome := Allowed)
    case Some(p) => if Result(s, g).None? then c.(outcome := Denied(p.kind)) else c.(charged := c.charged + [p])
  }

  /** The script goes through. */
  predicate Charges(s: State, a: Action) {
    a.RunScript? && a.g in s.calls && Upcoming(s.calls[a.g]).Some? && Result(s, a.g).Some?
  }

  function Next(s: State, a: Action, specs: string -> Spec): State
    requires Enabled(s, a)
  {
    State(if Charges(s, a) then s.store[Target(s, a.g) := Result(s, a.g).value] else s.store,
          if a.Tick? then s.now + a.d else s.now,
          match a {
            case Tick(_) => s.calls
            case Begin(g, keyId, tokens) => s.calls[g := Call.Call(keyId, Plan(specs(keyId), tokens), [], Running)]
            case RunScript(g) => s.calls[g := NextCall(s, g)]
            case ScriptFails(g) => s.calls[g := s.calls[g].(outcome := FailedOpen)]
          },
          if Charges(s, a) then
            s.granted[Target(s, a.g) :=
                      GrantedOf(s, Target(s, a.g)) + [Grant(s.now, Upcoming(s.calls[a.g]).value.increment)]]
          else s.granted)
  }

  ghost predicate IsRun(ss: seq<State>, acts: seq<Action>, specs: string -> Spec) {
    && |ss| == |acts| + 1
    && ss[0].store == map[] && ss[0].calls == map[] && ss[0].granted == map[]
    && forall i :: 0 <= i < |acts| ==> Enabled(ss[i], acts[i]) && ss[i + 1] == Next(ss[i], acts[i], specs)
  }

  // ---------------------------------------------------------------------
  // What every step keeps
  // ---------------------------------------------------------------------

  /** A call works through its plan from the front, and a denial stops it short. */
  ghost predicate Honest(c: Call, specs: string -> Spec) {
    && (exists tokens :: c.plan == Plan(specs(c.keyId), tokens))
    && c.charged <= c.plan
    && (c.outcome.Denied? ==> |c.charged| < |c.plan| && c.plan[|c.charged|].kind == c.outcome.kind)
    && (c.outcome.Allowed? ==> c.charged == c.plan)
  }

  lemma HonestKept(s: State, g: nat, specs: string -> Spec)
    requires g in s.calls && Honest(s.calls[g], specs) && s.calls[g].outcome.Running?
    ensures Honest(NextCall(s, g), specs)
  {
    var c := s.calls[g];
    if |c.charged| == |c.plan| { assert c.charged == c.plan; }
  }

  /** The bucket's window as a counter: it starts when the expiry was set. */
  function CounterOf(v: Option<Value>, window: nat): Counter {
    match v
    case None => Counter(0, 0)
    case Some(value) => Counter(SaturatingSub(value.expiry.GetOr(0), window), value.n)
  }

  /** A stored value is within its limit and expiring, and the bucket's grants keep the rate bound. */
  ghost predicate SoundValue(v: Option<Value>, grants: seq<Grant>, limit: nat, window: nat, now: nat)
    requires window > 0
  {
    && (v.Some? ==> v.value.n <= limit && v.value.expiry.Some? && window <= v.value.expiry.value <= now + window)
    && Bounded(CounterOf(v, window), grants, limit, window, now)
  }

  /** Only limited buckets are stored, and those soundly. */
  ghost predicate Sound(s: State, b: Bucket, specs: string -> Spec) {
    match LimitOf(specs(b.keyId), b.kind)
    case None => b !in s.store
    case Some(limit) => SoundValue(ValueOf(s, b), GrantedOf(s, b), limit, Window(b.kind), s.now)
  }

  /** A window that holds nothing may restart early. */
  lemma EmptyWindowRestarts(c: Counter, grants: seq<Grant>, limit: nat, window: nat, now: nat)
    requires window > 0 && Bounded(c, grants, limit, window, now) && c.used == 0
    ensures Bounded(Counter(now, 0), grants, limit, window, now)
  {
    forall i | 0 <= i < |grants|
      ensures Current(Counter(now, 0), grants, i, limit, window)
    {
      var t := grants[i].time;
      assert Current(c, grants, i, limit, window);
      if c.start <= t {
        TimesMonotone(limit, 0, Quotient(now - t, window) + 1);
      } else {
        QuotientMonotone(c.start - t, now - t, window);
        TimesMonotone(limit, Quotient(c.start - t, window) + 1, Quotient(now - t, window) + 1);
      }
    }
  }

  /** A script that goes through keeps its bucket sound. */
  lemma ScriptKeepsSound(v: Option<Value>, grants: seq<Grant>, increment: nat, limit: nat, window: nat, now: nat)
    requires window > 0 && SoundValue(v, grants, limit, window, now) && Script(v, increment, window, limit, now).Some?
    ensures SoundValue(Script(v, increment, window, limit, now), grants + [Grant(now, increment)], limit, window, now)
  {
    var c := CounterOf(v, window);
    var rolled := Rolled(c, now, window);
    BoundedAfterRoll(c, grants, limit, window, now, now);
    if Stored(v, now) == 0 {
      EmptyWindowRestarts(rolled, grants, limit, window, now);
      BoundedAfterGrant(Counter(now, 0), grants, limit, window, now, increment);
    } else {
      BoundedAfterGrant(rolled, grants, limit, window, now, increment);
    }
  }

  ghost predicate Inv(s: State, specs: string -> Spec) {
    && (forall b :: Sound(s, b, specs))
    && (forall g :: g in s.calls ==> Honest(s.calls[g], specs))
  }

  /** What a call tries next is a limited bucket. */
  lemma UpcomingIsLimited(c: Call, specs: string -> Spec)
    requires Honest(c, specs) && Upcoming(c).Some?
    ensures LimitOf(specs(c.keyId), Upcoming(c).value.kind) == Some(Upcoming(c).value.limit)
  {
    var tokens :| c.plan == Plan(specs(c.keyId), tokens);
  }

  /** The bucket the script runs on. */
  lemma TargetStaysSound(s: State, a: Action, specs: string -> Spec)
    requires Inv(s, specs) && Enabled(s, a) && Charges(s, a)
    ensures Sound(Next(s, a, specs), Target(s, a.g), specs)
  {
    var c, p, b := s.calls[a.g], Upcoming(s.calls[a.g]).value, Target(s, a.g);
    assert Sound(s, b, specs) && Honest(c, specs);
    UpcomingIsLimited(c, specs);
    ScriptKeepsSound(ValueOf(s, b), GrantedOf(s, b), p.increment, p.limit, Window(b.kind), s.now);
  }

  /** A bucket that no script runs on. */
  lemma UntouchedStaysSound(s: State, s': State, b: Bucket, specs: string -> Spec)
    requires Sound(s, b, specs) && s.now <= s'.now
    requires ValueOf(s', b) == ValueOf(s, b) && GrantedOf(s', b) == GrantedOf(s, b)
    ensures Sound(s', b, specs)
  {
    if limit :| LimitOf(specs(b.keyId), b.kind) == Some(limit) {
      BoundedLater(CounterOf(ValueOf(s, b), Window(b.kind)), GrantedOf(s, b), limit, Window(b.kind), s.now, s'.now);
    }
  }

  lemma SoundKept(s: State, a: Action, b: Bucket, specs: string -> Spec)
    requires Inv(s, specs) && Enabled(s, a)
    ensures Sound(Next(s, a, specs), b, specs)
  {
    if Charges(s, a) && b == Target(s, a.g) {
      TargetStaysSound(s, a, specs);
    } else {
      assert Sound(s, b, specs);
      UntouchedStaysSound(s, Next(s, a, specs), b, specs);
    }
  }

  lemma InvKept(s: State, a: Action, specs: string -> Spec)
    requires Inv(s, specs) && Enabled(s, a)
    ensures Inv(Next(s, a, specs), specs)
  {
    var s' := Next(s, a, specs);
    forall b ensures Sound(s', b, specs) { SoundKept(s, a, b, specs); }
    forall g | g in s'.calls
      ensures Honest(s'.calls[g], specs)
    {
      if g in s.calls { assert Honest(s.calls[g], specs); }
      if a.RunScript? && a.g == g { HonestKept(s, g, specs); }
    }
  }

  lemma {:induction false} InvHolds(ss: seq<State>, acts: seq<Action>, specs: string -> Spec, i: nat)
    requires IsRun(ss, acts, specs) && i < |ss|
    ensures Inv(ss[i], specs)
  {
    if i > 0 {
      InvHolds(ss, acts, specs, i - 1);
      InvKept(ss[i - 1], acts[i - 1], specs);
    }
  }

  /** However the gateways interleave, every live counter is within its limit and will expire. */
  lemma LiveCountersAreWithinLimits(ss: seq<State>, acts: seq<Action>, specs: string -> Spec, i: nat, b: Bucket)
    requires IsRun(ss, acts, specs) && i < |ss| && IsLive(ValueOf(ss[i], b), ss[i].now)
    ensures LimitOf(specs(b.keyId), b.kind).Some? && ss[i].store[b].n <= LimitOf(specs(b.keyId), b.kind).value
    ensures ss[i].store[b].expiry.Some? && ss[i].now < ss[i].store[b].expiry.value <= ss[i].now + Window(b.kind)
  {
    InvHolds(ss, acts, specs, i);
    assert Sound(ss[i], b, specs);
  }

  /** A denied call has charged a strict prefix of its buckets, each once, and stops at the bucket it names. */
  lemma DeniedCallsChargeAPrefix(ss: seq<State>, acts: seq<Action>, specs: string -> Spec, i: nat, g: nat)
    requires IsRun(ss, acts, specs) && i < |ss| && g in ss[i].calls && ss[i].calls[g].outcome.Denied?
    ensures var c := ss[i].calls[g];
            c.charged < c.plan && c.plan[|c.charged|].kind == c.outcome.kind
    ensures var c := ss[i].calls[g];
            forall j, k :: 0 <= j < k < |c.charged| ==> c.charged[j].kind != c.charged[k].kind
  {
    InvHolds(ss, acts, specs, i);
    var c := ss[i].calls[g];
    assert Honest(c, specs);
    var tokens :| c.plan == Plan(specs(c.keyId), tokens);
    PlanKindsAreDistinct(specs(c.keyId), tokens);
  }

  lemma PlanKindsAreDistinct(spec: Spec, tokens: nat)
    ensures forall j, k :: 0 <= j < k < |Plan(spec, tokens)| ==>
            Plan(spec, tokens)[j].kind != Plan(spec, tokens)[k].kind
  {
  }

  /** The rate bound holds across all gateways together. */
  lemma SharedGrantsAreRateBounded(ss: seq<State>, acts: seq<Action>, specs: string -> Spec, i: nat, b: Bucket,
                                   limit: nat, a: nat, length: nat)
    requires IsRun(ss, acts, specs) && i < |ss| && LimitOf(specs(b.keyId), b.kind) == Some(limit)
    ensures SumIn(GrantedOf(ss[i], b), a, a + length) <= RateBound(limit, length, Window(b.kind))
  {
    InvHolds(ss, acts, specs, i);
    assert Sound(ss[i], b, specs);
    BoundedRate(CounterOf(ValueOf(ss[i], b), Window(b.kind)), GrantedOf(ss[i], b), limit, Window(b.kind), ss[i].now, a,
                length);
  }
}
