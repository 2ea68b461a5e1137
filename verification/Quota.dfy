/**
 The in-memory quota counter: fixed windows that restart at the first use after
 they have run out, a check pass over all buckets and a commit pass after it,
 each reading the clock anew. Times are epoch milliseconds; counts do not
 overflow.
 */
module Quota {
  import opened Arithmetic
  import opened Wrappers

  datatype Kind = RequestsPerMinute | RequestsPerDay | TokensPerMinute | TokensPerDay

  function Window(kind: Kind): (w: nat)
    ensures w > 0
  {
    match kind
    case RequestsPerMinute => 60_000
    case TokensPerMinute => 60_000
    case RequestsPerDay => 86_400_000
    case TokensPerDay => 86_400_000
  }

  datatype Spec = Spec(requestsPerMinute: Option<nat>, requestsPerDay: Option<nat>,
                       tokensPerMinute: Option<nat>, tokensPerDay: Option<nat>)

  function LimitOf(spec: Spec, kind: Kind): Option<nat> {
    match kind
    case RequestsPerMinute => spec.requestsPerMinute
    case RequestsPerDay => spec.requestsPerDay
    case TokensPerMinute => spec.tokensPerMinute
    case TokensPerDay => spec.tokensPerDay
  }

  function IncrementOf(kind: Kind, tokens: nat): nat {
    match kind
    case RequestsPerMinute => 1
    case RequestsPerDay => 1
    case TokensPerMinute => tokens
    case TokensPerDay => tokens
  }

  /** Limiting one of a pair of buckets makes the counter track both. */
  function Tracked(spec: Spec): (kinds: seq<Kind>)
    ensures Distinct(kinds) && |kinds| <= 4
    ensures forall kind :: LimitOf(spec, kind).Some? ==> kind in kinds
  {
    (if spec.requestsPerMinute.Some? || spec.requestsPerDay.Some? then [RequestsPerMinute, RequestsPerDay] else []) +
    (if spec.tokensPerMinute.Some? || spec.tokensPerDay.Some? then [TokensPerMinute, TokensPerDay] else [])
  }

  predicate Distinct(kinds: seq<Kind>) { forall i, j :: 0 <= i < j < |kinds| ==> kinds[i] != kinds[j] }

  datatype Decision = Allow | Deny(retryAfter: nat, limit: nat, kind: Kind)

  // ---------------------------------------------------------------------
  // One window
  // ---------------------------------------------------------------------

  datatype Counter = Counter(start: nat, used: nat)

  function SaturatingSub(a: nat, b: nat): nat { if a < b then 0 else a - b }

  /** The window that covers `now`: the current one, or a fresh one when it has run out. */
  function Rolled(c: Counter, now: nat, window: nat): Counter {
    if SaturatingSub(now, c.start) >= window then Counter(now, 0) else c
  }

  function Remaining(c: Counter, now: nat, window: nat): nat {
    SaturatingSub(window, SaturatingSub(now, c.start))
  }

  class WindowCounter {
    var start: nat
    var used: nat

    ghost function Value(): Counter
      reads this
    {
      Counter(start, used)
    }

    constructor ()
      ensures Value() == Counter(0, 0)
    {
      start, used := 0, 0;
    }

    method Snapshot(window: nat, now: nat) returns (u: nat, remaining: nat)
      modifies this
      ensures Value() == Rolled(old(Value()), now, window)
      ensures u == Value().used && remaining == Remaining(Value(), now, window)
    {
      if SaturatingSub(now, start) >= window {
        start := now;
        used := 0;
      }
      var elapsed := SaturatingSub(now, start);
      return used, SaturatingSub(window, elapsed);
    }
  }

  // ---------------------------------------------------------------------
  // All buckets of a key
  // ---------------------------------------------------------------------

  type Buckets = map<Kind, Counter>

  function BucketOf(b: Buckets, kind: Kind): Counter { if kind in b then b[kind] else Counter(0, 0) }

  /** The bucket has no room for the increment. */
  predicate Over(c: Counter, limit: Option<nat>, increment: nat) { limit.Some? && c.used + increment > limit.value }

  /**
   The check pass from bucket `i` on. Bucket `i` reads the clock at `ticks[i]`,
   and once more at `ticks[i + 1]` when it denies.
   */
  function Check(b: Buckets, kinds: seq<Kind>, i: nat, spec: Spec, tokens: nat, ticks: seq<nat>): (Buckets, Decision)
    requires i <= |kinds| < |ticks|
    decreases |kinds| - i
  {
    if i == |kinds| then (b, Allow)
    else
      var kind := kinds[i];
      var c := Rolled(BucketOf(b, kind), ticks[i], Window(kind));
      if Over(c, LimitOf(spec, kind), IncrementOf(kind, tokens)) then
        var again := Rolled(c, ticks[i + 1], Window(kind));
        (b[kind := again], Deny(Remaining(again, ticks[i + 1], Window(kind)), LimitOf(spec, kind).value, kind))
      else Check(b[kind := c], kinds, i + 1, spec, tokens, ticks)
  }

  /** The commit pass from bucket `i` on; bucket `i` reads the clock at `ticks[i]`. */
  function Commit(b: Buckets, kinds: seq<Kind>, i: nat, tokens: nat, ticks: seq<nat>): Buckets
    requires i <= |kinds| <= |ticks|
    decreases |kinds| - i
  {
    if i == |kinds| then b
    else
      var kind := kinds[i];
      var c := Rolled(BucketOf(b, kind), ticks[i], Window(kind));
      Commit(b[kind := c.(used := c.used + IncrementOf(kind, tokens))], kinds, i + 1, tokens, ticks)
  }

  /** The clock readings of one call: the check pass uses `checks`, the commit pass `commits`. */
  datatype Readings = Readings(checks: seq<nat>, commits: seq<nat>)

  ghost predicate Ordered(ticks: seq<nat>) { forall i, j :: 0 <= i < j < |ticks| ==> ticks[i] <= ticks[j] }

  /** The readings of one call that starts no earlier than `from` and ends by `to`. */
  ghost predicate Between(from: nat, r: Readings, to: nat) {
    && |r.checks| == 5 && |r.commits| == 4 && Ordered(r.checks) && Ordered(r.commits)
    && from <= r.checks[0] && r.checks[4] <= r.commits[0] && r.commits[3] <= to
  }

  function Consume(b: Buckets, spec: Spec, tokens: nat, r: Readings): (Buckets, Decision)
    requires |r.checks| == 5 && |r.commits| == 4
  {
    var kinds := Tracked(spec);
    var (checked, decision) := Check(b, kinds, 0, spec, tokens, r.checks);
    if decision.Allow? then (Commit(checked, kinds, 0, tokens, r.commits), Allow) else (checked, decision)
  }

  /** Usage as `current_usage` reports it: every known bucket is rolled to its own reading. */
  function Looked(b: Buckets, now: Kind -> nat): Buckets {
    map kind | kind in b :: Rolled(b[kind], now(kind), Window(kind))
  }

  class InMemoryQuota {
    var state: map<string, Buckets>

    constructor ()
      ensures state == map[]
    {
      state := map[];
    }

    /** Phase 1: does every bucket have room? */
    static method CheckPass(before: Buckets, toConsume: seq<Kind>, spec: Spec, tokens: nat, ticks: seq<nat>)
      returns (perKind: Buckets, decision: Decision)
      requires |toConsume| < |ticks|
      ensures (perKind, decision) == Check(before, toConsume, 0, spec, tokens, ticks)
    {
      perKind := before;
      for i := 0 to |toConsume|
        invariant Check(before, toConsume, 0, spec, tokens, ticks) == Check(perKind, toConsume, i, spec, tokens, ticks)
      {
        var kind := toConsume[i];
        var c := Rolled(BucketOf(perKind, kind), ticks[i], Window(kind));
        var limit := LimitOf(spec, kind);
        if limit.Some? && c.used + IncrementOf(kind, tokens) > limit.value {
          var again := Rolled(c, ticks[i + 1], Window(kind));
          return perKind[kind := again], Deny(Remaining(again, ticks[i + 1], Window(kind)), limit.value, kind);
        }
        perKind := perKind[kind := c];
      }
      return perKind, Allow;
    }

    /** Phase 2: charge every bucket. */
    static method CommitPass(checked: Buckets, toConsume: seq<Kind>, tokens: nat, ticks: seq<nat>)
      returns (perKind: Buckets)
      requires |toConsume| <= |ticks|
      ensures perKind == Commit(checked, toConsume, 0, tokens, ticks)
    {
      perKind := checked;
      for i := 0 to |toConsume|
        invariant Commit(checked, toConsume, 0, tokens, ticks) == Commit(perKind, toConsume, i, tokens, ticks)
      {
        var kind := toConsume[i];
        var c := Rolled(BucketOf(perKind, kind), ticks[i], Window(kind));
        perKind := perKind[kind := c.(used := c.used + IncrementOf(kind, tokens))];
      }
    }

    method CheckAndConsume(keyId: string, spec: Spec, tokens: nat, r: Readings) returns (decision: Decision)
      requires |r.checks| == 5 && |r.commits| == 4
      modifies this
      ensures var before := if keyId in old(state) then old(state)[keyId] else map[];
              var (after, d) := Consume(before, spec, tokens, r);
              state == old(state)[keyId := after] && decision == d
    {
      var perKind: Buckets := if keyId in state then state[keyId] else map[];
      var toConsume := [];
      if spec.requestsPerMinute.Some? || spec.requestsPerDay.Some? {
        toConsume := toConsume + [RequestsPerMinute, RequestsPerDay];
      }
      if spec.tokensPerMinute.Some? || spec.tokensPerDay.Some? {
        toConsume := toConsume + [TokensPerMinute, TokensPerDay];
      }
      assert toConsume == Tracked(spec);
      perKind, decision := CheckPass(perKind, toConsume, spec, tokens, r.checks);
      if decision.Allow? {
        perKind := CommitPass(perKind, toConsume, tokens, r.commits);
      }
      state := state[keyId := perKind];
    }

    method CurrentUsage(keyId: string, now: Kind -> nat) returns (usage: map<Kind, nat>)
      modifies this
      ensures var before := if keyId in old(state) then old(state)[keyId] else map[];
              && state == old(state)[keyId := Looked(before, now)]
              && usage.Keys == before.Keys
              && forall kind :: kind in usage ==> usage[kind] == Looked(before, now)[kind].used
    {
      var before: Buckets := if keyId in state then state[keyId] else map[];
      var perKind := Looked(before, now);
      state := state[keyId := perKind];
      usage := map kind | kind in perKind :: perKind[kind].used;
    }
  }

  // ---------------------------------------------------------------------
  // All or nothing
  // ---------------------------------------------------------------------

  /** The usage anyone asking at `now` is told. */
  function Observed(b: Buckets, kind: Kind, now: nat): nat { Rolled(BucketOf(b, kind), now, Window(kind)).used }

  /** Rolling a window early is not seen later. */
  lemma RollingIsInvisible(c: Counter, now: nat, later: nat, window: nat)
    requires now <= later && window > 0
    ensures Rolled(Rolled(c, now, window), later, window).used == Rolled(c, later, window).used
  {
  }

  lemma {:induction false} ChecksAreInvisible(b: Buckets, kinds: seq<Kind>, i: nat, spec: Spec, tokens: nat,
                                              ticks: seq<nat>, kind: Kind, later: nat)
    requires i <= |kinds| < |ticks| && Ordered(ticks) && ticks[|kinds|] <= later
    ensures Observed(Check(b, kinds, i, spec, tokens, ticks).0, kind, later) == Observed(b, kind, later)
    decreases |kinds| - i
  {
    if i < |kinds| {
      var mine := kinds[i];
      var c := Rolled(BucketOf(b, mine), ticks[i], Window(mine));
      assert ticks[i] <= ticks[i + 1] <= later;
      RollingIsInvisible(BucketOf(b, mine), ticks[i], later, Window(mine));
      RollingIsInvisible(c, ticks[i + 1], later, Window(mine));
      assert Observed(b[mine := c], kind, later) == Observed(b, kind, later);
      if !Over(c, LimitOf(spec, mine), IncrementOf(mine, tokens)) {
        ChecksAreInvisible(b[mine := c], kinds, i + 1, spec, tokens, ticks, kind, later);
      }
    }
  }

  /** A denied call changes no usage that anyone can observe afterwards, in any bucket. */
  lemma DeniedCallsAreInvisible(b: Buckets, spec: Spec, tokens: nat, r: Readings, from: nat, to: nat, kind: Kind,
                                later: nat)
    requires Between(from, r, to) && to <= later
    requires Consume(b, spec, tokens, r).1.Deny?
    ensures Observed(Consume(b, spec, tokens, r).0, kind, later) == Observed(b, kind, later)
  {
    ChecksAreInvisible(b, Tracked(spec), 0, spec, tokens, r.checks, kind, later);
  }

  lemma {:induction false} CommitLeaves(b: Buckets, kinds: seq<Kind>, i: nat, tokens: nat, ticks: seq<nat>, kind: Kind)
    requires i <= |kinds| <= |ticks| && kind !in kinds[i..]
    ensures BucketOf(Commit(b, kinds, i, tokens, ticks), kind) == BucketOf(b, kind)
    decreases |kinds| - i
  {
    if i < |kinds| {
      var mine := kinds[i];
      var c := Rolled(BucketOf(b, mine), ticks[i], Window(mine));
      assert kinds[i..] == [mine] + kinds[i + 1..];
      CommitLeaves(b[mine := c.(used := c.used + IncrementOf(mine, tokens))], kinds, i + 1, tokens, ticks, kind);
    }
  }

  /** Where a kind stands in the list decides which reading commits it. */
  lemma {:induction false} CommitCharges(b: Buckets, kinds: seq<Kind>, i: nat, tokens: nat, ticks: seq<nat>, j: nat)
    requires i <= j < |kinds| <= |ticks| && Distinct(kinds)
    ensures var c := Rolled(BucketOf(b, kinds[j]), ticks[j], Window(kinds[j]));
            BucketOf(Commit(b, kinds, i, tokens, ticks), kinds[j]) == c.(used := c.used + IncrementOf(kinds[j], tokens))
    decreases |kinds| - i
  {
    var mine := kinds[i];
    var c := Rolled(BucketOf(b, mine), ticks[i], Window(mine));
    var b' := b[mine := c.(used := c.used + IncrementOf(mine, tokens))];
    if i == j {
      CommitLeaves(b', kinds, i + 1, tokens, ticks, mine);
    } else {
      CommitCharges(b', kinds, i + 1, tokens, ticks, j);
    }
  }

  /** An allowed call leaves untracked buckets alone. */
  lemma AllowedCallsChargeNoOther(b: Buckets, spec: Spec, tokens: nat, r: Readings, from: nat, to: nat, kind: Kind)
    requires Between(from, r, to)
    requires Consume(b, spec, tokens, r).1.Allow? && kind !in Tracked(spec)
    ensures Observed(Consume(b, spec, tokens, r).0, kind, to) == Observed(b, kind, to)
  {
    var kinds := Tracked(spec);
    assert kinds[0..] == kinds;
    CommitLeaves(Check(b, kinds, 0, spec, tokens, r.checks).0, kinds, 0, tokens, r.commits, kind);
    ChecksAreInvisible(b, kinds, 0, spec, tokens, r.checks, kind, to);
  }

  /** An allowed call charges every tracked bucket, each once: the `j`-th at its own commit reading. */
  lemma AllowedCallsChargeAll(b: Buckets, spec: Spec, tokens: nat, r: Readings, from: nat, to: nat, j: nat)
    requires Between(from, r, to) && j < |Tracked(spec)|
    requires Consume(b, spec, tokens, r).1.Allow?
    ensures var kind := Tracked(spec)[j];
            Observed(Consume(b, spec, tokens, r).0, kind, r.commits[j]) ==
            Observed(b, kind, r.commits[j]) + IncrementOf(kind, tokens)
  {
    var kinds := Tracked(spec);
    CommitCharges(Check(b, kinds, 0, spec, tokens, r.checks).0, kinds, 0, tokens, r.commits, j);
    ChecksAreInvisible(b, kinds, 0, spec, tokens, r.checks, kinds[j], r.commits[j]);
  }

  /** No window starts in the future. */
  ghost predicate StartedBy(b: Buckets, now: nat) { forall kind :: BucketOf(b, kind).start <= now }

  /**
   A denial names a bucket that had no room at one reading and reports what was
   left of its window at the next.
   */
  lemma {:induction false} DenialNamesAFullBucket(b: Buckets, kinds: seq<Kind>, i: nat, spec: Spec, tokens: nat,
                                                  ticks: seq<nat>)
    requires i <= |kinds| < |ticks| && Ordered(ticks) && Distinct(kinds) && StartedBy(b, ticks[i])
    requires Check(b, kinds, i, spec, tokens, ticks).1.Deny?
    ensures var (after, d) := Check(b, kinds, i, spec, tokens, ticks);
            && LimitOf(spec, d.kind) == Some(d.limit)
            && exists j :: i < j <= |kinds| && kinds[j - 1] == d.kind && BucketOf(after, d.kind).start <= ticks[j] &&
                           Observed(b, d.kind, ticks[j - 1]) + IncrementOf(d.kind, tokens) > d.limit &&
                           d.retryAfter == Remaining(BucketOf(after, d.kind), ticks[j], Window(d.kind))
    decreases |kinds| - i
  {
    var kind := kinds[i];
    var c := Rolled(BucketOf(b, kind), ticks[i], Window(kind));
    assert ticks[i] <= ticks[i + 1];
    if !Over(c, LimitOf(spec, kind), IncrementOf(kind, tokens)) {
      var rolled := b[kind := c];
      forall k
        ensures BucketOf(rolled, k).start <= ticks[i + 1]
      {
        assert BucketOf(b, k).start <= ticks[i];
      }
      DenialNamesAFullBucket(b[kind := c], kinds, i + 1, spec, tokens, ticks);
    } else {
      assert i < i + 1 <= |kinds|;
    }
  }

  /**
   Waiting out `retry_after` is enough: if nothing else happens to the key, the
   bucket that denied takes any increment within its limit.
   */
  lemma RetryAfterSuffices(b: Buckets, spec: Spec, tokens: nat, r: Readings, from: nat, to: nat, later: nat,
                           increment: nat)
    requires Between(from, r, to) && StartedBy(b, from)
    requires Consume(b, spec, tokens, r).1.Deny?
    requires var d := Consume(b, spec, tokens, r).1; later >= to + d.retryAfter && increment <= d.limit
    ensures var (after, d) := Consume(b, spec, tokens, r);
            !Over(Rolled(BucketOf(after, d.kind), later, Window(d.kind)), LimitOf(spec, d.kind), increment)
  {
    var kinds := Tracked(spec);
    DenialNamesAFullBucket(b, kinds, 0, spec, tokens, r.checks);
    var (after, d) := Consume(b, spec, tokens, r);
    var j :| 0 < j <= |kinds| && BucketOf(after, d.kind).start <= r.checks[j] &&
             d.retryAfter == Remaining(BucketOf(after, d.kind), r.checks[j], Window(d.kind));
    assert r.checks[j] <= r.checks[4] <= r.commits[0] <= r.commits[3] <= to;
  }

  // ---------------------------------------------------------------------
  // The rate bound
  // ---------------------------------------------------------------------

  /** An increment granted to one bucket, at its commit reading. */
  datatype Grant = Grant(time: nat, amount: nat)

  function Sum(grants: seq<Grant>): nat {
    if grants == [] then 0 else grants[0].amount + Sum(grants[1..])
  }

  lemma {:induction false} SumSnoc(grants: seq<Grant>, g: Grant)
    ensures Sum(grants + [g]) == Sum(grants) + g.amount
  {
    if grants == [] {
      assert [g][1..] == [];
    } else {
      SumSnoc(grants[1..], g);
      assert (grants + [g])[1..] == grants[1..] + [g];
    }
  }

  /** What may be granted from time `a` to time `b`. */
  function Allowance(limit: nat, a: nat, b: nat, window: nat): nat
    requires a <= b && window > 0
  {
    Times(limit, Quotient(b - a, window) + 2)
  }

  /**
   The bucket at time `now`, with everything it has granted so far. From any
   grant on, the current window holds what was granted since, or each window
   before it held at most the limit.
   */
  ghost predicate Bounded(c: Counter, grants: seq<Grant>, limit: nat, window: nat, now: nat)
    requires window > 0
  {
    && c.used <= limit && c.start <= now
    && (forall i :: 0 <= i < |grants| ==> grants[i].time <= now)
    && (forall i, j :: 0 <= i < j < |grants| ==> grants[i].time <= grants[j].time)
    && (forall i :: 0 <= i < |grants| ==> Current(c, grants, i, limit, window))
    && (forall i, j :: 0 <= i < j <= |grants| ==> Within(grants, i, j, limit, window))
  }

  ghost predicate Current(c: Counter, grants: seq<Grant>, i: nat, limit: nat, window: nat)
    requires i < |grants| && window > 0
  {
    var t := grants[i].time;
    if c.start <= t then Sum(grants[i..]) <= c.used && t - c.start < window
    else Sum(grants[i..]) <= Times(limit, Quotient(c.start - t, window) + 1) + c.used
  }

  /** Grants `i` up to `j` stay within the allowance of the time they span. */
  ghost predicate Within(grants: seq<Grant>, i: nat, j: nat, limit: nat, window: nat)
    requires i < j <= |grants| && window > 0
  {
    grants[i].time <= grants[j - 1].time ==>
      Sum(grants[i..j]) <= Allowance(limit, grants[i].time, grants[j - 1].time, window)
  }

  lemma RateIs(limit: nat, length: nat, window: nat)
    requires window > 0
    ensures Times(limit, Quotient(length, window) + 2) == limit * (length / window + 2)
  {
    QuotientIs(length, window);
    TimesIs(limit, length / window + 2);
  }

  lemma CurrentAfterRoll(c: Counter, grants: seq<Grant>, i: nat, limit: nat, window: nat, now: nat)
    requires window > 0 && i < |grants| && c.used <= limit && grants[i].time <= now
    requires Current(c, grants, i, limit, window)
    ensures Current(Rolled(c, now, window), grants, i, limit, window)
  {
    var t := grants[i].time;
    if SaturatingSub(now, c.start) >= window {
      if c.start <= t {
        TimesMonotone(limit, 1, Quotient(now - t, window) + 1);
      } else {
        QuotientMonotone(c.start - t, now - t - window, window);
        TimesMonotone(limit, Quotient(c.start - t, window) + 2, Quotient(now - t, window) + 1);
      }
    }
  }

  lemma BoundedAfterRoll(c: Counter, grants: seq<Grant>, limit: nat, window: nat, from: nat, now: nat)
    requires window > 0 && Bounded(c, grants, limit, window, from) && from <= now
    ensures Bounded(Rolled(c, now, window), grants, limit, window, now)
  {
    forall i | 0 <= i < |grants|
      ensures Current(Rolled(c, now, window), grants, i, limit, window)
    {
      CurrentAfterRoll(c, grants, i, limit, window, now);
    }
  }

  /** A grant the window has room for keeps the bound. */
  lemma BoundedAfterGrant(c: Counter, grants: seq<Grant>, limit: nat, window: nat, now: nat, amount: nat)
    requires window > 0 && Bounded(c, grants, limit, window, now)
    requires Rolled(c, now, window) == c && c.used + amount <= limit
    ensures Bounded(c.(used := c.used + amount), grants + [Grant(now, amount)], limit, window, now)
  {
    var c', all := c.(used := c.used + amount), grants + [Grant(now, amount)];
    forall i | 0 <= i < |all|
      ensures Current(c', all, i, limit, window)
    {
      SumSnoc(if i < |grants| then grants[i..] else [], Grant(now, amount));
      if i < |grants| {
        assert Current(c, grants, i, limit, window);
        assert all[i..] == grants[i..] + [Grant(now, amount)];
      } else {
        assert all[i..] == [] + [Grant(now, amount)];
      }
    }
    forall i, j | 0 <= i < j <= |all|
      ensures Within(all, i, j, limit, window)
    {
      if j <= |grants| {
        assert Within(grants, i, j, limit, window);
        assert all[i..j] == grants[i..j];
      } else {
        assert all[i..j] == all[i..];
        assert Current(c', all, i, limit, window);
        CurrentIsWithin(c', all, i, limit, window, now);
      }
    }
  }

  lemma CurrentIsWithin(c: Counter, grants: seq<Grant>, i: nat, limit: nat, window: nat, now: nat)
    requires window > 0 && i < |grants| && c.used <= limit && c.start <= now && grants[i].time <= now
    requires Current(c, grants, i, limit, window)
    ensures Sum(grants[i..]) <= Allowance(limit, grants[i].time, now, window)
  {
    var t := grants[i].time;
    if c.start <= t {
      TimesMonotone(limit, 1, Quotient(now - t, window) + 2);
    } else {
      QuotientMonotone(c.start - t, now - t, window);
      TimesMonotone(limit, Quotient(c.start - t, window) + 2, Quotient(now - t, window) + 2);
    }
  }

  // ---------------------------------------------------------------------
  // One call, seen by one bucket
  // ---------------------------------------------------------------------

  lemma {:induction false} CheckLeaves(b: Buckets, kinds: seq<Kind>, i: nat, spec: Spec, tokens: nat, ticks: seq<nat>,
                                       kind: Kind)
    requires i <= |kinds| < |ticks| && kind !in kinds[i..]
    ensures BucketOf(Check(b, kinds, i, spec, tokens, ticks).0, kind) == BucketOf(b, kind)
    decreases |kinds| - i
  {
    if i < |kinds| {
      assert kinds[i..] == [kinds[i]] + kinds[i + 1..];
      var c := Rolled(BucketOf(b, kinds[i]), ticks[i], Window(kinds[i]));
      if !Over(c, LimitOf(spec, kinds[i]), IncrementOf(kinds[i], tokens)) {
        CheckLeaves(b[kinds[i] := c], kinds, i + 1, spec, tokens, ticks, kind);
      }
    }
  }

  /** The check pass keeps a limited bucket bounded, and when it allows, the bucket has room. */
  lemma {:induction false} CheckKeepsBound(b: Buckets, kinds: seq<Kind>, i: nat, spec: Spec, tokens: nat,
                                           ticks: seq<nat>, kind: Kind, grants: seq<Grant>, limit: nat, from: nat)
    requires i <= |kinds| < |ticks| && Ordered(ticks) && Distinct(kinds) && from <= ticks[i]
    requires LimitOf(spec, kind) == Some(limit) && Bounded(BucketOf(b, kind), grants, limit, Window(kind), from)
    ensures var (after, d) := Check(b, kinds, i, spec, tokens, ticks);
            && Bounded(BucketOf(after, kind), grants, limit, Window(kind), ticks[|kinds|])
            && (d.Allow? && kind in kinds[i..] ==> BucketOf(after, kind).used + IncrementOf(kind, tokens) <= limit)
    decreases |kinds| - i
  {
    if i < |kinds| {
      var mine := kinds[i];
      var c := Rolled(BucketOf(b, mine), ticks[i], Window(mine));
      assert ticks[i] <= ticks[i + 1] <= ticks[|kinds|];
      assert kinds[i..] == [mine] + kinds[i + 1..];
      BoundedAfterRoll(BucketOf(b, kind), grants, limit, Window(kind), from, ticks[i]);
      if Over(c, LimitOf(spec, mine), IncrementOf(mine, tokens)) {
        BoundedAfterRoll(Rolled(BucketOf(b, kind), ticks[i], Window(kind)), grants, limit, Window(kind), ticks[i],
                         ticks[i + 1]);
      } else {
        CheckKeepsBound(b[mine := c], kinds, i + 1, spec, tokens, ticks, kind, grants, limit, ticks[i]);
        if mine == kind {
          CheckLeaves(b[mine := c], kinds, i + 1, spec, tokens, ticks, kind);
        }
      }
    }
  }

  /** What one operation grants from one bucket. */
  function GrantedBy(b: Buckets, spec: Spec, op: Op, kind: Kind): seq<Grant>
    requires op.Call? ==> |op.r.checks| == 5 && |op.r.commits| == 4
  {
    if op.Call? && Consume(b, spec, op.tokens, op.r).1.Allow? && kind in Tracked(spec)
    then [Grant(op.r.commits[IndexIn(Tracked(spec), kind)], IncrementOf(kind, op.tokens))]
    else []
  }

  function IndexIn(kinds: seq<Kind>, kind: Kind): (i: nat)
    requires kind in kinds
    ensures i < |kinds| && kinds[i] == kind
  {
    if kinds[0] == kind then 0 else 1 + IndexIn(kinds[1..], kind)
  }

  /** `check_and_consume` or `current_usage` on one key. */
  datatype Op = Call(tokens: nat, r: Readings) | Look(now: Kind -> nat)

  ghost predicate OpBetween(from: nat, op: Op, to: nat) {
    match op
    case Call(_, r) => Between(from, r, to)
    case Look(now) => from <= to && forall kind :: from <= now(kind) <= to
  }

  function After(b: Buckets, spec: Spec, op: Op): Buckets
    requires op.Call? ==> |op.r.checks| == 5 && |op.r.commits| == 4
  {
    match op
    case Call(tokens, r) => Consume(b, spec, tokens, r).0
    case Look(now) => Looked(b, now)
  }

  lemma BoundedLater(c: Counter, grants: seq<Grant>, limit: nat, window: nat, from: nat, to: nat)
    requires window > 0 && Bounded(c, grants, limit, window, from) && from <= to
    ensures Bounded(c, grants, limit, window, to)
  {
  }

  lemma OpKeepsBound(b: Buckets, spec: Spec, op: Op, kind: Kind, grants: seq<Grant>, limit: nat, from: nat, to: nat)
    requires OpBetween(from, op, to) && LimitOf(spec, kind) == Some(limit)
    requires Bounded(BucketOf(b, kind), grants, limit, Window(kind), from)
    ensures Bounded(BucketOf(After(b, spec, op), kind), grants + GrantedBy(b, spec, op, kind), limit, Window(kind), to)
  {
    var window := Window(kind);
    assert grants + [] == grants;
    match op
    case Look(now) =>
      BoundedAfterRoll(BucketOf(b, kind), grants, limit, window, from, now(kind));
      BoundedLater(BucketOf(b, kind), grants, limit, window, from, to);
      BoundedLater(Rolled(BucketOf(b, kind), now(kind), window), grants, limit, window, now(kind), to);
    case Call(tokens, r) =>
      var kinds := Tracked(spec);
      var (checked, decision) := Check(b, kinds, 0, spec, tokens, r.checks);
      CheckKeepsBound(b, kinds, 0, spec, tokens, r.checks, kind, grants, limit, from);
      assert r.checks[|kinds|] <= r.checks[4] <= r.commits[0] <= r.commits[3] <= to;
      if decision.Deny? {
        BoundedLater(BucketOf(checked, kind), grants, limit, window, r.checks[|kinds|], to);
      } else {
        assert kinds[0..] == kinds;
        var j := IndexIn(kinds, kind);
        assert r.commits[0] <= r.commits[j] <= r.commits[3];
        CommitKeepsBound(checked, kinds, tokens, r.commits, j, grants, limit, r.checks[|kinds|], to);
      }
  }

  /** A bucket with room is charged at `tick`. */
  lemma ChargeKeepsBound(c: Counter, grants: seq<Grant>, amount: nat, limit: nat, window: nat, from: nat, tick: nat,
                         to: nat)
    requires window > 0 && from <= tick <= to
    requires Bounded(c, grants, limit, window, from) && c.used + amount <= limit
    ensures var rolled := Rolled(c, tick, window);
            Bounded(rolled.(used := rolled.used + amount), grants + [Grant(tick, amount)], limit, window, to)
  {
    var rolled := Rolled(c, tick, window);
    BoundedAfterRoll(c, grants, limit, window, from, tick);
    BoundedAfterGrant(rolled, grants, limit, window, tick, amount);
    BoundedLater(rolled.(used := rolled.used + amount), grants + [Grant(tick, amount)], limit, window, tick, to);
  }

  lemma CommitKeepsBound(b: Buckets, kinds: seq<Kind>, tokens: nat, ticks: seq<nat>, j: nat, grants: seq<Grant>,
                         limit: nat, from: nat, to: nat)
    requires j < |kinds| <= |ticks| && Distinct(kinds) && from <= ticks[j] <= to
    requires Bounded(BucketOf(b, kinds[j]), grants, limit, Window(kinds[j]), from)
    requires BucketOf(b, kinds[j]).used + IncrementOf(kinds[j], tokens) <= limit
    ensures Bounded(BucketOf(Commit(b, kinds, 0, tokens, ticks), kinds[j]),
                    grants + [Grant(ticks[j], IncrementOf(kinds[j], tokens))], limit, Window(kinds[j]), to)
  {
    var c := BucketOf(b, kinds[j]);
    CommitCharges(b, kinds, 0, tokens, ticks, j);
    ChargeKeepsBound(c, grants, IncrementOf(kinds[j], tokens), limit, Window(kinds[j]), from, ticks[j], to);
  }

  // ---------------------------------------------------------------------
  // Whole runs
  // ---------------------------------------------------------------------

  /** A run on one key under a fixed spec; operation `i` takes place between `times[i]` and `times[i + 1]`. */
  ghost predicate IsRun(bs: seq<Buckets>, spec: Spec, ops: seq<Op>, times: seq<nat>) {
    && |bs| == |times| == |ops| + 1
    && bs[0] == map[]
    && forall i :: 0 <= i < |ops| ==>
       OpBetween(times[i], ops[i], times[i + 1]) && bs[i + 1] == After(bs[i], spec, ops[i])
  }

  /** Everything one bucket granted in the first `n` operations. */
  ghost function History(bs: seq<Buckets>, spec: Spec, ops: seq<Op>, times: seq<nat>, kind: Kind, n: nat): seq<Grant>
    requires IsRun(bs, spec, ops, times) && n <= |ops|
  {
    if n == 0 then []
    else
      assert OpBetween(times[n - 1], ops[n - 1], times[n]);
      History(bs, spec, ops, times, kind, n - 1) + GrantedBy(bs[n - 1], spec, ops[n - 1], kind)
  }

  lemma {:induction false} RunKeepsBound(bs: seq<Buckets>, spec: Spec, ops: seq<Op>, times: seq<nat>, kind: Kind,
                                         limit: nat, n: nat)
    requires IsRun(bs, spec, ops, times) && n <= |ops| && LimitOf(spec, kind) == Some(limit)
    ensures Bounded(BucketOf(bs[n], kind), History(bs, spec, ops, times, kind, n), limit, Window(kind), times[n])
  {
    if n > 0 {
      RunKeepsBound(bs, spec, ops, times, kind, limit, n - 1);
      OpKeepsBound(bs[n - 1], spec, ops[n - 1], kind, History(bs, spec, ops, times, kind, n - 1), limit, times[n - 1],
                   times[n]);
    }
  }

  /** What was granted at times from `a` to `b`. */
  function SumIn(grants: seq<Grant>, a: nat, b: nat): nat
    decreases |grants|
  {
    if grants == [] then 0
    else
      var last := grants[|grants| - 1];
      SumIn(grants[..|grants| - 1], a, b) + if a <= last.time <= b then last.amount else 0
  }

  ghost predicate Sorted(grants: seq<Grant>) {
    forall i, j :: 0 <= i < j < |grants| ==> grants[i].time <= grants[j].time
  }

  lemma {:induction false} NothingBefore(grants: seq<Grant>, a: nat, b: nat)
    requires forall i :: 0 <= i < |grants| ==> grants[i].time < a
    ensures SumIn(grants, a, b) == 0
    decreases |grants|
  {
    if grants != [] { NothingBefore(grants[..|grants| - 1], a, b); }
  }

  /** The grants not before `a` are a stretch at the end. */
  lemma {:induction false} StretchFrom(grants: seq<Grant>, a: nat, b: nat) returns (i: nat)
    requires Sorted(grants) && forall k :: 0 <= k < |grants| ==> grants[k].time <= b
    ensures i <= |grants| && SumIn(grants, a, b) == Sum(grants[i..])
    ensures i < |grants| ==> a <= grants[i].time
    decreases |grants|
  {
    if grants == [] || grants[|grants| - 1].time < a {
      NothingBefore(grants, a, b);
      i := |grants|;
    } else {
      var n := |grants| - 1;
      i := StretchFrom(grants[..n], a, b);
      SumSnoc(grants[..n][i..], grants[n]);
      assert grants[i..] == grants[..n][i..] + [grants[n]];
    }
  }

  lemma {:induction false} SumInIsBounded(grants: seq<Grant>, a: nat, length: nat, limit: nat, window: nat)
    requires window > 0 && Sorted(grants)
    requires forall i, j :: 0 <= i < j <= |grants| ==> Within(grants, i, j, limit, window)
    ensures SumIn(grants, a, a + length) <= Times(limit, Quotient(length, window) + 2)
    decreases |grants|
  {
    if grants == [] {
    } else if grants[|grants| - 1].time > a + length {
      var rest := grants[..|grants| - 1];
      forall i, j | 0 <= i < j <= |rest|
        ensures Within(rest, i, j, limit, window)
      {
        assert Within(grants, i, j, limit, window) && rest[i..j] == grants[i..j];
      }
      SumInIsBounded(rest, a, length, limit, window);
    } else {
      var i := StretchFrom(grants, a, a + length);
      if i < |grants| {
        assert Within(grants, i, |grants|, limit, window) && grants[i..] == grants[i..|grants|];
        AllowanceOf(grants[i].time, grants[|grants| - 1].time, length, limit, window);
      }
    }
  }

  lemma AllowanceOf(a: nat, b: nat, length: nat, limit: nat, window: nat)
    requires window > 0 && a <= b <= a + length
    ensures Allowance(limit, a, b, window) <= Times(limit, Quotient(length, window) + 2)
  {
    QuotientMonotone(b - a, length, window);
    TimesMonotone(limit, Quotient(b - a, window) + 2, Quotient(length, window) + 2);
  }

  /** The limit, for each window that an interval of this length can touch. */
  function RateBound(limit: nat, length: nat, window: nat): nat
    requires window > 0
  {
    limit * (length / window + 2)
  }

  /** A bounded bucket grants at a bounded rate. */
  lemma BoundedRate(c: Counter, grants: seq<Grant>, limit: nat, window: nat, now: nat, a: nat, length: nat)
    requires window > 0 && Bounded(c, grants, limit, window, now)
    ensures SumIn(grants, a, a + length) <= RateBound(limit, length, window)
  {
    SumInIsBounded(grants, a, length, limit, window);
    RateIs(limit, length, window);
  }

  /**
   In every run no limited bucket is ever over its limit, and what it grants in
   any interval of length `length` is at most its limit times the windows that
   the interval can touch.
   */
  lemma GrantsAreRateBounded(bs: seq<Buckets>, spec: Spec, ops: seq<Op>, times: seq<nat>, kind: Kind, limit: nat,
                             n: nat, a: nat, length: nat)
    requires IsRun(bs, spec, ops, times) && n <= |ops| && LimitOf(spec, kind) == Some(limit)
    ensures BucketOf(bs[n], kind).used <= limit
    ensures SumIn(History(bs, spec, ops, times, kind, n), a, a + length) <= RateBound(limit, length, Window(kind))
  {
    RunKeepsBound(bs, spec, ops, times, kind, limit, n);
    BoundedRate(BucketOf(bs[n], kind), History(bs, spec, ops, times, kind, n), limit, Window(kind), times[n], a,
                length);
  }
}
