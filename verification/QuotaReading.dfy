/**
 The quota counters said without their own tables of windows, limits and
 increments: who is let through, what a call charges, and what is counted at any
 time of any run.
 */
module QuotaReading {
  import opened Wrappers
  import opened Quota
  import R = RedisQuota

  // ---------------------------------------------------------------------
  // One bucket
  // ---------------------------------------------------------------------

  function Period(kind: Kind): nat {
    if kind == RequestsPerMinute || kind == TokensPerMinute then 60_000 else 86_400_000
  }

  function Cost(kind: Kind, tokens: nat): nat {
    if kind == TokensPerMinute || kind == TokensPerDay then tokens else 1
  }

  function Quotum(spec: Spec, kind: Kind): Option<nat> {
    if kind == RequestsPerMinute then spec.requestsPerMinute
    else if kind == RequestsPerDay then spec.requestsPerDay
    else if kind == TokensPerMinute then spec.tokensPerMinute
    else spec.tokensPerDay
  }

  /** What is used of the bucket at this moment: nothing once its window has run out. */
  function UsedAt(b: Buckets, kind: Kind, now: nat): nat {
    if kind !in b || b[kind].start + Period(kind) <= now then 0 else b[kind].used
  }

  /** When the window that covers this moment began, a fresh one beginning now. */
  function BeganAt(b: Buckets, kind: Kind, now: nat): nat {
    if kind !in b then (if now < Period(kind) then 0 else now)
    else if b[kind].start + Period(kind) <= now then now
    else b[kind].start
  }

  /** The call would take the bucket over its limit. */
  predicate Full(b: Buckets, spec: Spec, kind: Kind, tokens: nat, now: nat) {
    Quotum(spec, kind).Some? && UsedAt(b, kind, now) + Cost(kind, tokens) > Quotum(spec, kind).value
  }

  predicate CountsRequests(spec: Spec) { spec.requestsPerMinute.Some? || spec.requestsPerDay.Some? }

  predicate CountsTokens(spec: Spec) { spec.tokensPerMinute.Some? || spec.tokensPerDay.Some? }

  predicate Counts(spec: Spec, kind: Kind) {
    if kind == RequestsPerMinute || kind == RequestsPerDay then CountsRequests(spec) else CountsTokens(spec)
  }

  /** Requests before tokens and minutes before days, of the pairs that are counted. */
  function Turn(spec: Spec, kind: Kind): nat {
    match kind
    case RequestsPerMinute => 0
    case RequestsPerDay => 1
    case TokensPerMinute => if CountsRequests(spec) then 2 else 0
    case TokensPerDay => if CountsRequests(spec) then 3 else 1
  }

  lemma TablesAre(spec: Spec, kind: Kind, tokens: nat)
    ensures Window(kind) == Period(kind) && IncrementOf(kind, tokens) == Cost(kind, tokens)
    ensures LimitOf(spec, kind) == Quotum(spec, kind)
  {
  }

  lemma TurnsAre(spec: Spec, kind: Kind)
    ensures kind in Tracked(spec) <==> Counts(spec, kind)
    ensures Counts(spec, kind) ==> Turn(spec, kind) < |Tracked(spec)| && Tracked(spec)[Turn(spec, kind)] == kind
    ensures forall i :: 0 <= i < |Tracked(spec)| ==> Turn(spec, Tracked(spec)[i]) == i
  {
    if CountsRequests(spec) { assert Tracked(spec)[0] == RequestsPerMinute && Tracked(spec)[1] == RequestsPerDay; }
    if CountsTokens(spec) {
      var n := if CountsRequests(spec) then 2 else 0;
      assert Tracked(spec)[n] == TokensPerMinute && Tracked(spec)[n + 1] == TokensPerDay;
    }
  }

  lemma RolledIs(b: Buckets, kind: Kind, now: nat)
    ensures Rolled(BucketOf(b, kind), now, Window(kind)) == Counter(BeganAt(b, kind, now), UsedAt(b, kind, now))
  {
  }

  // ---------------------------------------------------------------------
  // Who is let through
  // ---------------------------------------------------------------------

  /** Reading `i` decides about bucket `i`. */
  predicate HasRoom(b: Buckets, kinds: seq<Kind>, i: nat, spec: Spec, tokens: nat, ticks: seq<nat>)
    requires i < |kinds| < |ticks|
  {
    !Full(b, spec, kinds[i], tokens, ticks[i])
  }

  /** The first bucket without room denies, with the time left of its window. */
  predicate DeniesAt(b: Buckets, kinds: seq<Kind>, j: nat, spec: Spec, tokens: nat, ticks: seq<nat>, d: Decision)
    requires j < |kinds| < |ticks|
  {
    && d.Deny? && d.kind == kinds[j] && Quotum(spec, d.kind) == Some(d.limit)
    && !HasRoom(b, kinds, j, spec, tokens, ticks)
    && var began := BeganAt(b, d.kind, ticks[j]);
       d.retryAfter == if began + Period(d.kind) <= ticks[j + 1] then Period(d.kind)
                       else began + Period(d.kind) - ticks[j + 1]
  }

  lemma {:induction false} CheckDecides(b: Buckets, now: Buckets, kinds: seq<Kind>, i: nat, spec: Spec, tokens: nat,
                                        ticks: seq<nat>) returns (j: nat)
    requires i <= |kinds| < |ticks| && Ordered(ticks) && Distinct(kinds) && StartedBy(b, ticks[0])
    requires forall k :: i <= k < |kinds| ==> BucketOf(now, kinds[k]) == BucketOf(b, kinds[k])
    ensures i <= j <= |kinds|
    ensures forall k :: i <= k < j ==> HasRoom(b, kinds, k, spec, tokens, ticks)
    ensures var d := Check(now, kinds, i, spec, tokens, ticks).1;
            if j == |kinds| then d == Allow else DeniesAt(b, kinds, j, spec, tokens, ticks, d)
    decreases |kinds| - i
  {
    if i == |kinds| {
      j := i;
    } else {
      var kind := kinds[i];
      var c := Rolled(BucketOf(now, kind), ticks[i], Window(kind));
      RolledIs(b, kind, ticks[i]);
      TablesAre(spec, kind, tokens);
      if Over(c, LimitOf(spec, kind), IncrementOf(kind, tokens)) {
        j := i;
        assert BucketOf(b, kind).start <= ticks[0] <= ticks[i] <= ticks[i + 1];
      } else {
        j := CheckDecides(b, now[kind := c], kinds, i + 1, spec, tokens, ticks);
      }
    }
  }

  /** A call is let through exactly when every bucket has room for it at its own turn. */
  lemma AllowedExactlyWhen(b: Buckets, spec: Spec, tokens: nat, r: Readings, from: nat, to: nat)
    requires Between(from, r, to) && StartedBy(b, from)
    ensures Consume(b, spec, tokens, r).1 == Allow <==>
            forall kind :: Counts(spec, kind) ==> !Full(b, spec, kind, tokens, r.checks[Turn(spec, kind)])
  {
    var kinds := Tracked(spec);
    assert StartedBy(b, r.checks[0]);
    var j := CheckDecides(b, b, kinds, 0, spec, tokens, r.checks);
    forall kind | Counts(spec, kind)
      ensures Turn(spec, kind) < |kinds| && kinds[Turn(spec, kind)] == kind
    {
      TurnsAre(spec, kind);
    }
    if j == |kinds| {
      forall kind | Counts(spec, kind)
        ensures !Full(b, spec, kind, tokens, r.checks[Turn(spec, kind)])
      {
        assert HasRoom(b, kinds, Turn(spec, kind), spec, tokens, r.checks);
      }
    } else {
      TurnsAre(spec, kinds[j]);
      assert Counts(spec, kinds[j]) && Turn(spec, kinds[j]) == j;
    }
  }

  /** A denial comes from the first bucket without room and tells what is left of its window. */
  lemma DenialIs(b: Buckets, spec: Spec, tokens: nat, r: Readings, from: nat, to: nat)
    requires Between(from, r, to) && StartedBy(b, from)
    requires Consume(b, spec, tokens, r).1.Deny?
    ensures var d := Consume(b, spec, tokens, r).1;
            var j := Turn(spec, d.kind);
            && Quotum(spec, d.kind) == Some(d.limit) && Full(b, spec, d.kind, tokens, r.checks[j])
            && (forall kind :: Counts(spec, kind) && Turn(spec, kind) < j ==>
                  !Full(b, spec, kind, tokens, r.checks[Turn(spec, kind)]))
            && var began := BeganAt(b, d.kind, r.checks[j]);
               d.retryAfter == if began + Period(d.kind) <= r.checks[j + 1] then Period(d.kind)
                               else began + Period(d.kind) - r.checks[j + 1]
  {
    var kinds := Tracked(spec);
    assert StartedBy(b, r.checks[0]);
    var j := CheckDecides(b, b, kinds, 0, spec, tokens, r.checks);
    TurnsAre(spec, kinds[j]);
    forall kind | Counts(spec, kind) && Turn(spec, kind) < j
      ensures !Full(b, spec, kind, tokens, r.checks[Turn(spec, kind)])
    {
      TurnsAre(spec, kind);
      assert HasRoom(b, kinds, Turn(spec, kind), spec, tokens, r.checks);
    }
  }

  // ---------------------------------------------------------------------
  // What a call charges
  // ---------------------------------------------------------------------

  /**
   A call that is let through takes one request or its tokens from each bucket it
   counts, as of its own commit reading, and leaves the others; one that is denied
   takes nothing.
   */
  lemma ChargesAre(b: Buckets, spec: Spec, tokens: nat, r: Readings, from: nat, to: nat, kind: Kind)
    requires Between(from, r, to)
    ensures var (after, d) := Consume(b, spec, tokens, r);
            if d.Allow? && Counts(spec, kind) then
              var now := r.commits[Turn(spec, kind)];
              UsedAt(after, kind, now) == UsedAt(b, kind, now) + Cost(kind, tokens)
            else
              UsedAt(after, kind, to) == UsedAt(b, kind, to)
  {
    var (after, d) := Consume(b, spec, tokens, r);
    TurnsAre(spec, kind);
    TablesAre(spec, kind, tokens);
    RolledIs(b, kind, to);
    RolledIs(after, kind, to);
    if d.Deny? {
      DeniedCallsAreInvisible(b, spec, tokens, r, from, to, kind, to);
    } else if Counts(spec, kind) {
      var j := Turn(spec, kind);
      AllowedCallsChargeAll(b, spec, tokens, r, from, to, j);
      RolledIs(b, kind, r.commits[j]);
      RolledIs(after, kind, r.commits[j]);
    } else {
      AllowedCallsChargeNoOther(b, spec, tokens, r, from, to, kind);
    }
  }

  /** The usage that is reported, of the buckets that were ever used. */
  lemma UsageIsTold(b: Buckets, now: Kind -> nat)
    ensures var seen := Looked(b, now);
            seen.Keys == b.Keys && forall kind :: kind in b ==> seen[kind].used == UsedAt(b, kind, now(kind))
  {
    forall kind | kind in b
      ensures Looked(b, now)[kind].used == UsedAt(b, kind, now(kind))
    {
      RolledIs(b, kind, now(kind));
    }
  }

  // ---------------------------------------------------------------------
  // What is counted over a run
  // ---------------------------------------------------------------------

  /** The counter holds what was granted since its window began, and nothing was granted later than now. */
  ghost predicate Counted(c: Counter, grants: seq<Grant>, now: nat) {
    && c.start <= now && (forall i :: 0 <= i < |grants| ==> grants[i].time <= now)
    && forall later :: now <= later ==> c.used == SumIn(grants, c.start, later)
  }

  lemma {:induction false} NothingSince(grants: seq<Grant>, a: nat, b: nat)
    requires forall i :: 0 <= i < |grants| ==> grants[i].time < a
    ensures SumIn(grants, a, b) == 0
    decreases |grants|
  {
    if grants != [] { NothingSince(grants[..|grants| - 1], a, b); }
  }

  lemma SumInSnoc(grants: seq<Grant>, g: Grant, a: nat, b: nat)
    ensures SumIn(grants + [g], a, b) == SumIn(grants, a, b) + if a <= g.time <= b then g.amount else 0
  {
    assert (grants + [g])[..|grants|] == grants;
  }

  /** The readings of the clock that end a window are later than every grant in it. */
  ghost predicate Fresh(c: Counter, grants: seq<Grant>, window: nat) {
    forall i :: 0 <= i < |grants| ==> grants[i].time < c.start + window
  }

  lemma CountedAfterRoll(c: Counter, grants: seq<Grant>, window: nat, from: nat, now: nat)
    requires window > 0 && Counted(c, grants, from) && Fresh(c, grants, window) && from <= now
    ensures Counted(Rolled(c, now, window), grants, now) && Fresh(Rolled(c, now, window), grants, window)
  {
    if now >= c.start + window {
      forall later | now <= later
        ensures SumIn(grants, now, later) == 0
      {
        NothingSince(grants, now, later);
      }
    }
  }

  lemma CountedAfterGrant(c: Counter, grants: seq<Grant>, window: nat, now: nat, amount: nat)
    requires window > 0 && Counted(c, grants, now) && Fresh(c, grants, window) && now < c.start + window
    ensures var more := grants + [Grant(now, amount)];
            Counted(c.(used := c.used + amount), more, now) && Fresh(c.(used := c.used + amount), more, window)
  {
    forall later | now <= later
      ensures c.used + amount == SumIn(grants + [Grant(now, amount)], c.start, later)
    {
      SumInSnoc(grants, Grant(now, amount), c.start, later);
    }
  }

  lemma CountedLater(c: Counter, grants: seq<Grant>, from: nat, to: nat)
    requires Counted(c, grants, from) && from <= to
    ensures Counted(c, grants, to)
  {
  }

  ghost predicate Exact(c: Counter, grants: seq<Grant>, window: nat, now: nat) {
    Counted(c, grants, now) && Fresh(c, grants, window)
  }

  lemma {:induction false} CheckKeepsExact(b: Buckets, kinds: seq<Kind>, i: nat, spec: Spec, tokens: nat,
                                           ticks: seq<nat>, kind: Kind, grants: seq<Grant>, from: nat)
    requires i <= |kinds| < |ticks| && Ordered(ticks) && from <= ticks[i]
    requires Exact(BucketOf(b, kind), grants, Window(kind), from)
    ensures Exact(BucketOf(Check(b, kinds, i, spec, tokens, ticks).0, kind), grants, Window(kind), ticks[|kinds|])
    decreases |kinds| - i
  {
    if i < |kinds| {
      var mine := kinds[i];
      var c := Rolled(BucketOf(b, mine), ticks[i], Window(mine));
      assert ticks[i] <= ticks[i + 1] <= ticks[|kinds|];
      CountedAfterRoll(BucketOf(b, kind), grants, Window(kind), from, ticks[i]);
      CountedLater(BucketOf(b, kind), grants, from, ticks[i]);
      assert Exact(BucketOf(b[mine := c], kind), grants, Window(kind), ticks[i]);
      if Over(c, LimitOf(spec, mine), IncrementOf(mine, tokens)) {
        var last := ticks[|kinds|];
        var once := Rolled(BucketOf(b, kind), ticks[i], Window(kind));
        var again := Rolled(once, ticks[i + 1], Window(kind));
        CountedAfterRoll(once, grants, Window(kind), ticks[i], ticks[i + 1]);
        CountedLater(BucketOf(b, kind), grants, from, last);
        CountedLater(again, grants, ticks[i + 1], last);
      } else {
        CheckKeepsExact(b[mine := c], kinds, i + 1, spec, tokens, ticks, kind, grants, ticks[i]);
      }
    } else {
      CountedLater(BucketOf(b, kind), grants, from, ticks[|kinds|]);
    }
  }

  lemma ChargeKeepsExact(c: Counter, grants: seq<Grant>, amount: nat, window: nat, from: nat, tick: nat, to: nat)
    requires window > 0 && from <= tick <= to && Exact(c, grants, window, from)
    ensures var rolled := Rolled(c, tick, window);
            Exact(rolled.(used := rolled.used + amount), grants + [Grant(tick, amount)], window, to)
  {
    var rolled := Rolled(c, tick, window);
    CountedAfterRoll(c, grants, window, from, tick);
    CountedAfterGrant(rolled, grants, window, tick, amount);
    CountedLater(rolled.(used := rolled.used + amount), grants + [Grant(tick, amount)], tick, to);
  }

  lemma CallKeepsExact(b: Buckets, spec: Spec, tokens: nat, r: Readings, kind: Kind, grants: seq<Grant>, from: nat,
                       to: nat)
    requires Between(from, r, to) && Exact(BucketOf(b, kind), grants, Window(kind), from)
    ensures Exact(BucketOf(Consume(b, spec, tokens, r).0, kind),
                  grants + GrantedBy(b, spec, Call(tokens, r), kind), Window(kind), to)
  {
    var kinds := Tracked(spec);
    var (checked, d) := Check(b, kinds, 0, spec, tokens, r.checks);
    CheckKeepsExact(b, kinds, 0, spec, tokens, r.checks, kind, grants, from);
    var mid := r.checks[|kinds|];
    assert mid <= r.checks[4] <= r.commits[0] <= r.commits[3] <= to;
    CountedLater(BucketOf(checked, kind), grants, mid, to);
    assert grants + [] == grants;
    if d.Allow? {
      assert kinds[0..] == kinds;
      if kind in kinds {
        var j := IndexIn(kinds, kind);
        assert r.commits[0] <= r.commits[j] <= r.commits[3];
        CommitCharges(checked, kinds, 0, tokens, r.commits, j);
        ChargeKeepsExact(BucketOf(checked, kind), grants, IncrementOf(kind, tokens), Window(kind), mid, r.commits[j],
                         to);
      } else {
        CommitLeaves(checked, kinds, 0, tokens, r.commits, kind);
      }
    }
  }

  lemma OpKeepsExact(b: Buckets, spec: Spec, op: Op, kind: Kind, grants: seq<Grant>, from: nat, to: nat)
    requires OpBetween(from, op, to) && Exact(BucketOf(b, kind), grants, Window(kind), from)
    ensures Exact(BucketOf(After(b, spec, op), kind), grants + GrantedBy(b, spec, op, kind), Window(kind), to)
  {
    match op
    case Call(tokens, r) => CallKeepsExact(b, spec, tokens, r, kind, grants, from, to);
    case Look(now) =>
      assert grants + [] == grants;
      CountedAfterRoll(BucketOf(b, kind), grants, Window(kind), from, now(kind));
      CountedLater(BucketOf(b, kind), grants, from, to);
      CountedLater(Rolled(BucketOf(b, kind), now(kind), Window(kind)), grants, now(kind), to);
  }

  /** In every run each counter holds what was granted since its window began. */
  lemma {:induction false} UsageIsExact(bs: seq<Buckets>, spec: Spec, ops: seq<Op>, times: seq<nat>, kind: Kind, n: nat)
    requires IsRun(bs, spec, ops, times) && n <= |ops|
    ensures var c := BucketOf(bs[n], kind);
            Exact(c, History(bs, spec, ops, times, kind, n), Window(kind), times[n])
  {
    if n > 0 {
      UsageIsExact(bs, spec, ops, times, kind, n - 1);
      var before := History(bs, spec, ops, times, kind, n - 1);
      OpKeepsExact(bs[n - 1], spec, ops[n - 1], kind, before, times[n - 1], times[n]);
    }
  }

  /** What a call grants: one request or its tokens from each bucket it counts, if it is let through. */
  lemma GrantsAre(b: Buckets, spec: Spec, op: Op, kind: Kind)
    requires op.Call? ==> |op.r.checks| == 5 && |op.r.commits| == 4
    ensures GrantedBy(b, spec, op, kind) ==
            if op.Call? && Consume(b, spec, op.tokens, op.r).1 == Allow && Counts(spec, kind)
            then [Grant(op.r.commits[Turn(spec, kind)], Cost(kind, op.tokens))] else []
  {
    TurnsAre(spec, kind);
  }

  lemma TwoWindows(limit: nat, length: nat, window: nat)
    requires length < window
    ensures RateBound(limit, length, window) == 2 * limit
  {
    assert length / window == 0;
  }

  /** No interval shorter than its window sees a bucket grant more than twice its limit. */
  lemma AtMostTwiceAWindow(bs: seq<Buckets>, spec: Spec, ops: seq<Op>, times: seq<nat>, kind: Kind, n: nat, a: nat,
                           length: nat)
    requires IsRun(bs, spec, ops, times) && n <= |ops| && Quotum(spec, kind).Some? && length < Period(kind)
    ensures SumIn(History(bs, spec, ops, times, kind, n), a, a + length) <= 2 * Quotum(spec, kind).value
  {
    var limit := Quotum(spec, kind).value;
    TablesAre(spec, kind, 0);
    GrantsAreRateBounded(bs, spec, ops, times, kind, limit, n, a, length);
    TwoWindows(limit, length, Window(kind));
  }

  // ---------------------------------------------------------------------
  // The Redis counter
  // ---------------------------------------------------------------------

  lemma KeysAre(keyId: string)
    ensures R.KeyFor(keyId, RequestsPerMinute) == "tiygate:quota:" + keyId + ":rpm"
    ensures R.KeyFor(keyId, RequestsPerDay) == "tiygate:quota:" + keyId + ":rpd"
    ensures R.KeyFor(keyId, TokensPerMinute) == "tiygate:quota:" + keyId + ":tpm"
    ensures R.KeyFor(keyId, TokensPerDay) == "tiygate:quota:" + keyId + ":tpd"
  {
    assert ":" + "rpm" == ":rpm" && ":" + "rpd" == ":rpd" && ":" + "tpm" == ":tpm" && ":" + "tpd" == ":tpd";
    forall suffix: string
      ensures "tiygate:quota:" + keyId + ":" + suffix == "tiygate:quota:" + keyId + (":" + suffix)
    {
    }
  }

  /** What is stored under a key that has not expired. */
  function StoredAt(v: Option<R.Value>, now: nat): nat {
    match v
    case None => 0
    case Some(Value(n, None)) => n
    case Some(Value(n, Some(expiry))) => if expiry <= now then 0 else n
  }

  /** A script goes through exactly when there is room, and a key that held nothing starts its time anew. */
  lemma ScriptIs(v: Option<R.Value>, increment: nat, ttl: nat, limit: nat, now: nat)
    ensures var n := StoredAt(v, now);
            match R.Script(v, increment, ttl, limit, now)
            case None => n + increment > limit
            case Some(value) =>
              && n + increment <= limit && value.n == n + increment
              && value.expiry == if n == 0 then Some(now + ttl) else v.value.expiry
  {
  }

  /** The buckets of a call: those with a limit, requests before tokens and minutes before days. */
  lemma PlansAre(spec: Spec, tokens: nat)
    ensures var plan := R.Plan(spec, tokens);
            && (forall p :: p in plan <==>
                  Quotum(spec, p.kind) == Some(p.limit) && p.increment == Cost(p.kind, tokens))
            && forall i, j :: 0 <= i < j < |plan| ==> Rank(plan[i].kind) < Rank(plan[j].kind)
  {
    forall p
      ensures p in R.Plan(spec, tokens) <==>
              Quotum(spec, p.kind) == Some(p.limit) && p.increment == Cost(p.kind, tokens)
    {
      InPlan(spec, tokens, p);
    }
  }

  function Rank(kind: Kind): nat {
    match kind
    case RequestsPerMinute => 0
    case RequestsPerDay => 1
    case TokensPerMinute => 2
    case TokensPerDay => 3
  }

  lemma InPlan(spec: Spec, tokens: nat, p: R.Planned)
    ensures p in R.Plan(spec, tokens) <==>
            Quotum(spec, p.kind) == Some(p.limit) && p.increment == Cost(p.kind, tokens)
  {
  }

  /** A call begins with nothing charged, ends allowed when nothing is left to charge, and fails open. */
  lemma CallsRun(s: R.State, g: nat, keyId: string, tokens: nat, specs: string -> Spec)
    ensures g !in s.calls ==>
              var s' := R.Next(s, R.Begin(g, keyId, tokens), specs);
              s'.calls == s.calls[g := R.Call.Call(keyId, R.Plan(specs(keyId), tokens), [], R.Running)] &&
              s'.store == s.store && s'.granted == s.granted
    ensures R.Enabled(s, R.RunScript(g)) && |s.calls[g].charged| >= |s.calls[g].plan| ==>
              var s' := R.Next(s, R.RunScript(g), specs);
              s'.calls == s.calls[g := s.calls[g].(outcome := R.Allowed)] && s'.store == s.store &&
              s'.granted == s.granted
    ensures R.Enabled(s, R.ScriptFails(g)) ==>
              var s' := R.Next(s, R.ScriptFails(g), specs);
              s'.calls == s.calls[g := s.calls[g].(outcome := R.FailedOpen)] && s'.store == s.store &&
              s'.granted == s.granted
  {
  }

  /** A call that was allowed has charged all of its buckets. */
  lemma AllowedCallsChargeAllBuckets(ss: seq<R.State>, acts: seq<R.Action>, specs: string -> Spec, i: nat, g: nat)
    requires R.IsRun(ss, acts, specs) && i < |ss| && g in ss[i].calls && ss[i].calls[g].outcome == R.Allowed
    ensures var c := ss[i].calls[g];
            c.charged == c.plan && exists tokens :: c.plan == R.Plan(specs(c.keyId), tokens)
  {
    R.InvHolds(ss, acts, specs, i);
    assert R.Honest(ss[i].calls[g], specs);
  }

  /** The stored value is what was granted since the key was made. */
  ghost predicate HoldsItsGrants(v: Option<R.Value>, grants: seq<Grant>, window: nat, now: nat)
    requires window > 0
  {
    match v
    case None => grants == []
    case Some(Value(n, expiry)) =>
      expiry.Some? && window <= expiry.value && Exact(Counter(expiry.value - window, n), grants, window, now)
  }

  /** The same, of one bucket. */
  ghost predicate BucketIsExact(s: R.State, b: R.Bucket) {
    HoldsItsGrants(R.ValueOf(s, b), R.GrantedOf(s, b), Window(b.kind), s.now)
  }

  lemma EmptyRestarts(c: Counter, grants: seq<Grant>, window: nat, now: nat)
    requires window > 0 && Exact(c, grants, window, now) && c.used == 0
    ensures Exact(Counter(now, 0), grants, window, now)
  {
    forall later | now <= later
      ensures SumIn(grants, now, later) == 0
    {
      LessSince(grants, c.start, now, later);
    }
  }

  lemma {:induction false} LessSince(grants: seq<Grant>, a: nat, a': nat, b: nat)
    requires a <= a'
    ensures SumIn(grants, a', b) <= SumIn(grants, a, b)
    decreases |grants|
  {
    if grants != [] { LessSince(grants[..|grants| - 1], a, a', b); }
  }

  lemma ScriptKeepsExact(v: Option<R.Value>, grants: seq<Grant>, increment: nat, limit: nat, window: nat, now: nat)
    requires window > 0 && HoldsItsGrants(v, grants, window, now)
    requires R.Script(v, increment, window, limit, now).Some?
    ensures HoldsItsGrants(R.Script(v, increment, window, limit, now), grants + [Grant(now, increment)], window, now)
  {
    var c := if v.None? then Counter(0, 0) else Counter(v.value.expiry.value - window, v.value.n);
    assert Exact(c, grants, window, now);
    if StoredAt(v, now) == 0 {
      CountedAfterRoll(c, grants, window, now, now);
      EmptyRestarts(Rolled(c, now, window), grants, window, now);
      CountedAfterGrant(Counter(now, 0), grants, window, now, increment);
    } else {
      CountedAfterGrant(c, grants, window, now, increment);
    }
  }

  lemma StepKeepsExact(s: R.State, a: R.Action, specs: string -> Spec, b: R.Bucket)
    requires R.Enabled(s, a) && BucketIsExact(s, b)
    ensures BucketIsExact(R.Next(s, a, specs), b)
  {
    var s' := R.Next(s, a, specs);
    if R.Charges(s, a) && b == R.Target(s, a.g) {
      var p := R.Upcoming(s.calls[a.g]).value;
      ScriptKeepsExact(R.ValueOf(s, b), R.GrantedOf(s, b), p.increment, p.limit, Window(b.kind), s.now);
    } else {
      assert R.ValueOf(s', b) == R.ValueOf(s, b) && R.GrantedOf(s', b) == R.GrantedOf(s, b);
    }
  }

  /** However the gateways interleave, each key holds what was granted since it was made. */
  lemma {:induction false} SharedUsageIsExact(ss: seq<R.State>, acts: seq<R.Action>, specs: string -> Spec, i: nat,
                                              b: R.Bucket)
    requires R.IsRun(ss, acts, specs) && i < |ss|
    ensures BucketIsExact(ss[i], b)
  {
    if i > 0 {
      SharedUsageIsExact(ss, acts, specs, i - 1, b);
      StepKeepsExact(ss[i - 1], acts[i - 1], specs, b);
    }
  }

  /** Each turn of a call is decided by its own bucket: charged if there is room, and otherwise the end of it. */
  lemma TurnsAreDecided(s: R.State, g: nat, specs: string -> Spec)
    requires R.Enabled(s, R.RunScript(g)) && |s.calls[g].charged| < |s.calls[g].plan|
    ensures var c := s.calls[g];
            var p := c.plan[|c.charged|];
            var b := R.Bucket(c.keyId, p.kind);
            var s' := R.Next(s, R.RunScript(g), specs);
            if StoredAt(R.ValueOf(s, b), s.now) + p.increment <= p.limit then
              && s'.calls == s.calls[g := c.(charged := c.charged + [p])]
              && s'.granted == s.granted[b := R.GrantedOf(s, b) + [Grant(s.now, p.increment)]]
              && b in s'.store && s'.store == s.store[b := s'.store[b]]
              && s'.store[b].n == StoredAt(R.ValueOf(s, b), s.now) + p.increment
            else
              && s'.calls == s.calls[g := c.(outcome := R.Denied(p.kind))]
              && s'.granted == s.granted && s'.store == s.store
  {
    var c := s.calls[g];
    var p := c.plan[|c.charged|];
    ScriptIs(R.ValueOf(s, R.Bucket(c.keyId, p.kind)), p.increment, Window(p.kind), p.limit, s.now);
  }
}
