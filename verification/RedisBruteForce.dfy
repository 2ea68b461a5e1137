/**
 The Redis brute-force limiter: one hash per client, updated by an atomic script
 and gone from the moment its expiry is reached. A lockout's key expires with the
 lockout, and with it the count of lockouts.
 */
module RedisBruteForce {
  import opened Arithmetic
  import opened BruteForce
  import opened Wrappers

  datatype Record = Record(failures: nat, lockouts: nat, lockedUntil: nat, expiry: nat)

  /** What a command at `now` finds under the client's key; missing fields read as 0. */
  function Found(v: Option<Record>, now: nat): Record {
    if v.Some? && now < v.value.expiry then v.value else Record(0, 0, 0, 0)
  }

  /** The script; the flag is its answer 1. */
  function FailScript(v: Option<Record>, config: Config, now: nat): (Option<Record>, bool) {
    var found := Found(v, now);
    if found.lockedUntil > now then (v, false)
    else if found.failures + 1 < config.maxFailures then
      (Some(found.(failures := found.failures + 1, expiry := now + (config.lockout + config.escalated))), false)
    else
      var escalates := found.lockouts + 1 >= config.maxLockouts;
      var duration := if escalates then config.escalated else config.lockout;
      (Some(Record(0, if escalates then 0 else found.lockouts + 1, now + duration, now + duration)), true)
  }

  datatype Event = Looked(now: nat) | FailedAt(now: nat) | SucceededAt(now: nat)

  function Answer(v: Option<Record>, config: Config, e: Event): (Option<Record>, bool) {
    match e
    case Looked(now) => (v, Found(v, now).lockedUntil > now)
    case FailedAt(now) => FailScript(v, config, now)
    case SucceededAt(_) => (None, false)
  }

  predicate InOrder(events: seq<Event>, from: nat) {
    events == [] || (from <= events[0].now && InOrder(events[1..], events[0].now))
  }

  function StateAfter(v: Option<Record>, config: Config, events: seq<Event>): Option<Record>
    decreases |events|
  {
    if events == [] then v else StateAfter(Answer(v, config, events[0]).0, config, events[1..])
  }

  // ---------------------------------------------------------------------
  // Escalation
  // ---------------------------------------------------------------------

  /** A key that counts lockouts lives no longer than the lockout. */
  predicate Sound(v: Option<Record>) {
    v.Some? ==> v.value.lockouts == 0 || v.value.expiry == v.value.lockedUntil
  }

  lemma SoundKept(v: Option<Record>, config: Config, e: Event)
    requires Sound(v)
    ensures Sound(Answer(v, config, e).0)
  {
  }

  lemma {:induction false} SoundAfter(v: Option<Record>, config: Config, events: seq<Event>)
    requires Sound(v)
    ensures Sound(StateAfter(v, config, events))
    decreases |events|
  {
    if events != [] {
      SoundKept(v, config, events[0]);
      SoundAfter(Answer(v, config, events[0]).0, config, events[1..]);
    }
  }

  /**
   After any history, a failure that triggers locks the client for the escalated
   time when every lockout escalates, and for the base time otherwise, however
   many lockouts went before.
   */
  lemma RedisEscalatesAlwaysOrNever(config: Config, events: seq<Event>, now: nat)
    requires FailScript(StateAfter(None, config, events), config, now).1
    ensures FailScript(StateAfter(None, config, events), config, now).0.value.lockedUntil ==
            now + if config.maxLockouts <= 1 then config.escalated else config.lockout
  {
    SoundAfter(None, config, events);
  }

  // ---------------------------------------------------------------------
  // Agreement with the in-memory limiter
  // ---------------------------------------------------------------------

  /** The same call on the in-memory limiter, at one clock reading. */
  function AsOp(id: string, e: Event): Op {
    match e
    case Looked(now) => Look(id, now, now)
    case FailedAt(now) => Fail(id, Readings(now, now, now, now))
    case SucceededAt(_) => Succeed(id)
  }

  function AsOps(id: string, events: seq<Event>): (ops: seq<Op>)
    ensures |ops| == |events|
  {
    if events == [] then [] else [AsOp(id, events[0])] + AsOps(id, events[1..])
  }

  function RedisAnswers(v: Option<Record>, config: Config, events: seq<Event>): seq<bool>
    decreases |events|
  {
    if events == [] then []
    else var (v', answer) := Answer(v, config, events[0]); [answer] + RedisAnswers(v', config, events[1..])
  }

  /**
   The events come in order, no success is recorded during a lockout, and pending
   failures are not left to expire. `last` is the time of the latest failure and
   `from` that of the latest event.
   */
  ghost predicate Steady(m: Clients, id: string, config: Config, events: seq<Event>, last: nat, from: nat)
    decreases |events|
  {
    events == [] ||
    (var st, e := EntryOf(m, id), events[0];
     && IsSteady(st, config, e, last, from)
     && Steady(Step(m, config, AsOp(id, e)).0, id, config, events[1..], if e.FailedAt? then e.now else last, e.now))
  }

  predicate IsSteady(st: Attempts, config: Config, e: Event, last: nat, from: nat) {
    && from <= e.now
    && (LockedAt(st, e.now) ==> !e.SucceededAt?)
    && (st.failures > 0 ==> e.now < last + (config.lockout + config.escalated))
  }

  /** The event triggers the escalated lockout in memory. */
  predicate Escalates(m: Clients, id: string, config: Config, e: Event) {
    Step(m, config, AsOp(id, e)).1 && e.FailedAt? && EntryOf(m, id).lockouts + 1 >= config.maxLockouts
  }

  /** No event escalates in memory. */
  ghost predicate NeverEscalates(m: Clients, id: string, config: Config, events: seq<Event>)
    decreases |events|
  {
    events == [] ||
    (!Escalates(m, id, config, events[0]) &&
     NeverEscalates(Step(m, config, AsOp(id, events[0])).0, id, config, events[1..]))
  }

  /** The stages are of one length, or there is only one of them. */
  predicate OneLength(config: Config) { config.maxLockouts <= 1 || config.lockout == config.escalated }

  /** At `from` the two limiters have the same on record but for the count of lockouts. */
  predicate Agree(st: Attempts, v: Option<Record>, config: Config, last: nat, from: nat) {
    match st.lockedUntil
    case Some(deadline) =>
      && st.failures == 0
      && (if v.None? then deadline <= from
          else v.value.failures == 0 && v.value.lockedUntil == deadline == v.value.expiry)
    case None =>
      if st.failures == 0 then v.None? || v.value.expiry <= from
      else v == Some(Record(st.failures, 0, 0, last + (config.lockout + config.escalated)))
  }

  lemma StepsAgree(m: Clients, id: string, v: Option<Record>, config: Config, e: Event, last: nat, from: nat)
    requires Agree(EntryOf(m, id), v, config, last, from) && IsSteady(EntryOf(m, id), config, e, last, from)
    requires OneLength(config) || !Escalates(m, id, config, e)
    ensures Step(m, config, AsOp(id, e)).1 == Answer(v, config, e).1
    ensures Agree(EntryOf(Step(m, config, AsOp(id, e)).0, id), Answer(v, config, e).0, config,
                  if e.FailedAt? then e.now else last, e.now)
  {
  }

  /**
   Over steady events the Redis limiter answers as the in-memory one, through any
   number of lockouts, until memory escalates to a stage of another length.
   */
  lemma {:induction false} AgreeUntilEscalation(m: Clients, id: string, v: Option<Record>, config: Config,
                                                events: seq<Event>, last: nat, from: nat)
    requires Agree(EntryOf(m, id), v, config, last, from) && Steady(m, id, config, events, last, from)
    requires OneLength(config) || NeverEscalates(m, id, config, events)
    ensures RedisAnswers(v, config, events) == Answers(m, config, AsOps(id, events))
    decreases |events|
  {
    if events != [] {
      var e := events[0];
      StepsAgree(m, id, v, config, e, last, from);
      assert AsOps(id, events)[1..] == AsOps(id, events[1..]);
      AgreeUntilEscalation(Step(m, config, AsOp(id, e)).0, id, Answer(v, config, e).0, config, events[1..],
                           if e.FailedAt? then e.now else last, e.now);
    }
  }

  // ---------------------------------------------------------------------
  // Where they part
  // ---------------------------------------------------------------------

  function MemoryAfter(m: Clients, config: Config, ops: seq<Op>): Clients
    decreases |ops|
  {
    if ops == [] then m else MemoryAfter(Step(m, config, ops[0]).0, config, ops[1..])
  }

  lemma {:induction false} AsOpsConcat(id: string, a: seq<Event>, b: seq<Event>)
    ensures AsOps(id, a + b) == AsOps(id, a) + AsOps(id, b)
  {
    if a == [] {
      assert a + b == b;
    } else {
      assert (a + b)[0] == a[0] && (a + b)[1..] == a[1..] + b;
      AsOpsConcat(id, a[1..], b);
    }
  }

  lemma {:induction false} MemoryConcat(m: Clients, config: Config, a: seq<Op>, b: seq<Op>)
    ensures MemoryAfter(m, config, a + b) == MemoryAfter(MemoryAfter(m, config, a), config, b)
    ensures Answers(m, config, a + b) == Answers(m, config, a) + Answers(MemoryAfter(m, config, a), config, b)
    decreases |a|
  {
    if a == [] {
      assert a + b == b;
    } else {
      assert (a + b)[0] == a[0] && (a + b)[1..] == a[1..] + b;
      MemoryConcat(Step(m, config, a[0]).0, config, a[1..], b);
    }
  }

  lemma {:induction false} RedisConcat(v: Option<Record>, config: Config, a: seq<Event>, b: seq<Event>)
    ensures StateAfter(v, config, a + b) == StateAfter(StateAfter(v, config, a), config, b)
    ensures RedisAnswers(v, config, a + b) ==
            RedisAnswers(v, config, a) + RedisAnswers(StateAfter(v, config, a), config, b)
    decreases |a|
  {
    if a == [] {
      assert a + b == b;
    } else {
      assert (a + b)[0] == a[0] && (a + b)[1..] == a[1..] + b;
      RedisConcat(Answer(v, config, a[0]).0, config, a[1..], b);
    }
  }

  lemma {:induction false} InOrderConcat(a: seq<Event>, b: seq<Event>, from: nat, mid: nat)
    requires InOrder(a, from) && from <= mid && (forall e :: e in a ==> e.now <= mid) && InOrder(b, mid)
    ensures InOrder(a + b, from)
    decreases |a|
  {
    if a == [] {
      assert a + b == b;
    } else {
      assert (a + b)[0] == a[0] && (a + b)[1..] == a[1..] + b && a[0] in a;
      assert forall e :: e in a[1..] ==> e in a;
      InOrderConcat(a[1..], b, a[0].now, mid);
    }
  }

  /** After `events` the two limiters answer `e` as given. */
  predicate Part(config: Config, id: string, events: seq<Event>, e: Event, memory: bool, redis: bool) {
    && Step(MemoryAfter(map[], config, AsOps(id, events)), config, AsOp(id, e)).1 == memory
    && Answer(StateAfter(None, config, events), config, e).1 == redis
  }

  lemma PartedAnswersDiffer(config: Config, id: string, events: seq<Event>, e: Event, memory: bool)
    requires Part(config, id, events, e, memory, !memory)
    ensures Answers(map[], config, AsOps(id, events + [e])) != RedisAnswers(None, config, events + [e])
  {
    AsOpsConcat(id, events, [e]);
    var op := AsOp(id, e);
    assert AsOps(id, [e]) == [op] + [] == [op];
    MemoryConcat(map[], config, AsOps(id, events), [op]);
    RedisConcat(None, config, events, [e]);
    var m, v := MemoryAfter(map[], config, AsOps(id, events)), StateAfter(None, config, events);
    assert Answers(m, config, [op]) == [memory] + [] && RedisAnswers(v, config, [e]) == [!memory] + [];
    var a, b := Answers(map[], config, AsOps(id, events + [e])), RedisAnswers(None, config, events + [e]);
    assert a[|a| - 1] == memory && b[|b| - 1] == !memory;
  }

  /** `n` failures at one moment. */
  function Burst(now: nat, n: nat): seq<Event> { if n == 0 then [] else [FailedAt(now)] + Burst(now, n - 1) }

  lemma {:induction false} BurstIs(now: nat, n: nat)
    ensures forall e :: e in Burst(now, n) ==> e == FailedAt(now)
    ensures InOrder(Burst(now, n), now)
  {
    if n > 0 { BurstIs(now, n - 1); }
  }

  /** So many failures and lockouts on record, and no lockout lasting. */
  predicate Ready(st: Attempts, failures: nat, lockouts: nat, now: nat) {
    st.failures == failures && st.lockouts == lockouts && !LockedAt(st, now)
  }

  lemma {:induction false} MemoryBurst(m: Clients, id: string, config: Config, now: nat, failures: nat, lockouts: nat,
                                       n: nat)
    requires Ready(EntryOf(m, id), failures, lockouts, now) && failures + n <= AtLeastOne(config.maxFailures)
    ensures var st := EntryOf(MemoryAfter(m, config, AsOps(id, Burst(now, n))), id);
            if failures + n < AtLeastOne(config.maxFailures) || n == 0 then Ready(st, failures + n, lockouts, now)
            else if lockouts + 1 >= config.maxLockouts then st == Attempts(0, 0, Some(now + config.escalated))
            else st == Attempts(0, lockouts + 1, Some(now + config.lockout))
    decreases n
  {
    if n > 0 {
      var e := FailedAt(now);
      var m' := Step(m, config, AsOp(id, e)).0;
      assert Burst(now, n)[1..] == Burst(now, n - 1);
      assert AsOps(id, Burst(now, n))[1..] == AsOps(id, Burst(now, n - 1));
      if n > 1 { MemoryBurst(m', id, config, now, failures + 1, lockouts, n - 1); }
    }
  }

  /** So many pending failures found, and nothing else. */
  predicate Pending(v: Option<Record>, failures: nat, now: nat) {
    Found(v, now).(expiry := 0) == Record(failures, 0, 0, 0)
  }

  lemma {:induction false} RedisBurst(v: Option<Record>, config: Config, now: nat, failures: nat, n: nat)
    requires Pending(v, failures, now) && failures + n <= AtLeastOne(config.maxFailures) && n > 0
    requires config.lockout + config.escalated > 0
    requires failures + n < AtLeastOne(config.maxFailures) || config.maxLockouts >= 2
    ensures StateAfter(v, config, Burst(now, n)) ==
            if failures + n < AtLeastOne(config.maxFailures)
            then Some(Record(failures + n, 0, 0, now + (config.lockout + config.escalated)))
            else Some(Record(0, 1, now + config.lockout, now + config.lockout))
    decreases n
  {
    var v' := Answer(v, config, FailedAt(now)).0;
    assert Burst(now, n)[1..] == Burst(now, n - 1);
    if n > 1 { RedisBurst(v', config, now, failures + 1, n - 1); }
  }

  /** `n` lockouts, each triggered the moment the one before it ends. */
  function Cycles(config: Config, n: nat): seq<Event> {
    if n == 0 then []
    else Cycles(config, n - 1) + Burst(Times(config.lockout, n - 1), AtLeastOne(config.maxFailures))
  }

  lemma MemoryCycle(config: Config, id: string, n: nat)
    requires 0 < n <= config.maxLockouts
    requires Ready(EntryOf(MemoryAfter(map[], config, AsOps(id, Cycles(config, n - 1))), id), 0, n - 1,
                   Times(config.lockout, n - 1))
    ensures EntryOf(MemoryAfter(map[], config, AsOps(id, Cycles(config, n))), id) ==
            if n < config.maxLockouts then Attempts(0, n, Some(Times(config.lockout, n)))
            else Attempts(0, 0, Some(Times(config.lockout, n - 1) + config.escalated))
  {
    var before, start := Cycles(config, n - 1), Times(config.lockout, n - 1);
    var burst := Burst(start, AtLeastOne(config.maxFailures));
    AsOpsConcat(id, before, burst);
    MemoryConcat(map[], config, AsOps(id, before), AsOps(id, burst));
    MemoryBurst(MemoryAfter(map[], config, AsOps(id, before)), id, config, start, 0, n - 1,
                AtLeastOne(config.maxFailures));
  }

  lemma RedisCycle(config: Config, n: nat)
    requires config.maxLockouts >= 2 && config.lockout + config.escalated > 0 && n > 0
    requires Pending(StateAfter(None, config, Cycles(config, n - 1)), 0, Times(config.lockout, n - 1))
    ensures StateAfter(None, config, Cycles(config, n)) ==
            Some(Record(0, 1, Times(config.lockout, n), Times(config.lockout, n)))
  {
    var before, start := Cycles(config, n - 1), Times(config.lockout, n - 1);
    var burst := Burst(start, AtLeastOne(config.maxFailures));
    RedisConcat(None, config, before, burst);
    RedisBurst(StateAfter(None, config, before), config, start, 0, AtLeastOne(config.maxFailures));
  }

  lemma {:induction false} AfterCycles(config: Config, id: string, n: nat)
    requires !OneLength(config) && 0 < n <= config.maxLockouts
    ensures EntryOf(MemoryAfter(map[], config, AsOps(id, Cycles(config, n))), id) ==
            if n < config.maxLockouts then Attempts(0, n, Some(Times(config.lockout, n)))
            else Attempts(0, 0, Some(Times(config.lockout, n - 1) + config.escalated))
    ensures StateAfter(None, config, Cycles(config, n)) ==
            Some(Record(0, 1, Times(config.lockout, n), Times(config.lockout, n)))
  {
    if n > 1 { AfterCycles(config, id, n - 1); }
    MemoryCycle(config, id, n);
    RedisCycle(config, n);
  }

  /** The time of the latest failure. */
  function LastFailure(events: seq<Event>, last: nat): nat {
    if events == [] then last else LastFailure(events[1..], if events[0].FailedAt? then events[0].now else last)
  }

  /** The time of the latest event. */
  function LastEvent(events: seq<Event>, from: nat): nat {
    if events == [] then from else LastEvent(events[1..], events[0].now)
  }

  lemma {:induction false} SteadyConcat(m: Clients, id: string, config: Config, a: seq<Event>, b: seq<Event>, last: nat,
                                        from: nat)
    requires Steady(m, id, config, a, last, from)
    requires Steady(MemoryAfter(m, config, AsOps(id, a)), id, config, b, LastFailure(a, last), LastEvent(a, from))
    ensures Steady(m, id, config, a + b, last, from)
    ensures LastFailure(a + b, last) == LastFailure(b, LastFailure(a, last))
    ensures LastEvent(a + b, from) == LastEvent(b, LastEvent(a, from))
    decreases |a|
  {
    if a == [] {
      assert a + b == b;
    } else {
      assert (a + b)[0] == a[0] && (a + b)[1..] == a[1..] + b;
      var op, last' := AsOp(id, a[0]), if a[0].FailedAt? then a[0].now else last;
      assert AsOps(id, a)[1..] == AsOps(id, a[1..]);
      SteadyConcat(Step(m, config, op).0, id, config, a[1..], b, last', a[0].now);
    }
  }

  lemma {:induction false} BurstIsSteady(m: Clients, id: string, config: Config, now: nat, failures: nat,
                                         lockouts: nat, n: nat, last: nat, from: nat)
    requires Ready(EntryOf(m, id), failures, lockouts, now) && failures + n <= AtLeastOne(config.maxFailures)
    requires from <= now && (failures > 0 ==> last == now) && config.lockout + config.escalated > 0
    ensures Steady(m, id, config, Burst(now, n), last, from)
    ensures n > 0 ==> LastFailure(Burst(now, n), last) == LastEvent(Burst(now, n), from) == now
    decreases n
  {
    if n > 0 {
      var m' := Step(m, config, AsOp(id, FailedAt(now))).0;
      assert Burst(now, n)[1..] == Burst(now, n - 1);
      if n > 1 { BurstIsSteady(m', id, config, now, failures + 1, lockouts, n - 1, now, now); }
    }
  }

  lemma {:induction false} CyclesAreSteady(config: Config, id: string, n: nat)
    requires !OneLength(config) && n <= config.maxLockouts
    ensures Steady(map[], id, config, Cycles(config, n), 0, 0)
    ensures LastEvent(Cycles(config, n), 0) <= Times(config.lockout, n)
  {
    if n > 0 {
      var before, start := Cycles(config, n - 1), Times(config.lockout, n - 1);
      var m := MemoryAfter(map[], config, AsOps(id, before));
      CyclesAreSteady(config, id, n - 1);
      if n > 1 { AfterCycles(config, id, n - 1); }
      BurstIsSteady(m, id, config, start, 0, n - 1, AtLeastOne(config.maxFailures), LastFailure(before, 0),
                    LastEvent(before, 0));
      SteadyConcat(map[], id, config, before, Burst(start, AtLeastOne(config.maxFailures)), 0, 0);
    }
  }

  /** The moment that one limiter has let the client go after these lockouts and the other has not. */
  function PartingTime(config: Config): nat
    requires config.maxLockouts > 0
  {
    if config.lockout < config.escalated then Times(config.lockout, config.maxLockouts)
    else Times(config.lockout, config.maxLockouts - 1) + config.escalated
  }

  /**
   With two stages of different length they part after `max_lockouts` lockouts in a
   row. When the escalated stage is longer the client is still locked in memory and
   free in Redis; when it is shorter, the other way round.
   */
  lemma TheyPartAfterLockouts(config: Config, id: string)
    requires !OneLength(config)
    ensures var events, e := Cycles(config, config.maxLockouts), Looked(PartingTime(config));
            var longer := config.lockout < config.escalated;
            && Steady(map[], id, config, events + [e], 0, 0) && Part(config, id, events, e, longer, !longer)
            && Answers(map[], config, AsOps(id, events + [e])) != RedisAnswers(None, config, events + [e])
  {
    var n := config.maxLockouts;
    var events, e := Cycles(config, n), Looked(PartingTime(config));
    CyclesAreSteady(config, id, n);
    AfterCycles(config, id, n);
    CyclesEnd(config, n);
    SteadyConcat(map[], id, config, events, [e], 0, 0);
    PartedAnswersDiffer(config, id, events, e, config.lockout < config.escalated);
  }

  lemma {:induction false} CyclesEnd(config: Config, n: nat)
    requires n > 0
    ensures LastEvent(Cycles(config, n), 0) == Times(config.lockout, n - 1)
  {
    var before, start := Cycles(config, n - 1), Times(config.lockout, n - 1);
    BurstEnds(start, AtLeastOne(config.maxFailures), LastEvent(before, 0));
    LastEventConcat(before, Burst(start, AtLeastOne(config.maxFailures)), 0);
  }

  lemma {:induction false} BurstEnds(now: nat, n: nat, from: nat)
    requires n > 0
    ensures LastEvent(Burst(now, n), from) == now
  {
    if n > 1 { BurstEnds(now, n - 1, now); }
  }

  lemma {:induction false} LastEventConcat(a: seq<Event>, b: seq<Event>, from: nat)
    ensures LastEvent(a + b, from) == LastEvent(b, LastEvent(a, from))
  {
    if a == [] {
      assert a + b == b;
    } else {
      assert (a + b)[0] == a[0] && (a + b)[1..] == a[1..] + b;
      LastEventConcat(a[1..], b, a[0].now);
    }
  }

  /**
   The two limiters answer alike over all steady events of all clients exactly when
   there is one stage, or both have one length.
   */
  lemma AgreeExactlyWhen(config: Config)
    ensures (forall id, events :: Steady(map[], id, config, events, 0, 0) ==>
               RedisAnswers(None, config, events) == Answers(map[], config, AsOps(id, events))) <==> OneLength(config)
  {
    if OneLength(config) {
      forall id, events | Steady(map[], id, config, events, 0, 0)
        ensures RedisAnswers(None, config, events) == Answers(map[], config, AsOps(id, events))
      {
        AgreeUntilEscalation(map[], id, None, config, events, 0, 0);
      }
    } else {
      TheyPartAfterLockouts(config, "");
      var events := Cycles(config, config.maxLockouts) + [Looked(PartingTime(config))];
      assert Steady(map[], "", config, events, 0, 0);
      assert RedisAnswers(None, config, events) != Answers(map[], config, AsOps("", events));
    }
  }

  /** A success during a lockout ends it in Redis only. */
  lemma SuccessUnlocksRedis(config: Config, id: string)
    requires (if config.maxLockouts <= 1 then config.escalated else config.lockout) > 0
    ensures var events, e := Burst(0, AtLeastOne(config.maxFailures)) + [SucceededAt(0)], Looked(0);
            && InOrder(events + [e], 0) && Part(config, id, events, e, true, false)
            && Answers(map[], config, AsOps(id, events + [e])) != RedisAnswers(None, config, events + [e])
  {
    var burst, success, e := Burst(0, AtLeastOne(config.maxFailures)), SucceededAt(0), Looked(0);
    var events := burst + [success];
    BurstIs(0, AtLeastOne(config.maxFailures));
    InOrderConcat(burst, [success], 0, 0);
    InOrderConcat(events, [e], 0, 0);
    AsOpsConcat(id, burst, [success]);
    MemoryConcat(map[], config, AsOps(id, burst), AsOps(id, [success]));
    MemoryBurst(map[], id, config, 0, 0, 0, AtLeastOne(config.maxFailures));
    RedisConcat(None, config, burst, [success]);
    var m, v := MemoryAfter(map[], config, AsOps(id, burst)), StateAfter(None, config, burst);
    assert AsOps(id, [success]) == [Succeed(id)] + [];
    assert MemoryAfter(m, config, [Succeed(id)]) == Step(m, config, Succeed(id)).0;
    assert StateAfter(v, config, [success]) == StateAfter(None, config, [success][1..]);
    PartedAnswersDiffer(config, id, events, e, true);
  }

  /** Pending failures are forgotten by Redis once they have been left for both lockout times. */
  lemma PendingFailuresExpireInRedis(config: Config, id: string)
    requires config.maxFailures >= 2 && config.lockout + config.escalated > 0
    ensures var events, e := Burst(0, config.maxFailures - 1), FailedAt(config.lockout + config.escalated);
            && InOrder(events + [e], 0) && Part(config, id, events, e, true, false)
            && Answers(map[], config, AsOps(id, events + [e])) != RedisAnswers(None, config, events + [e])
  {
    var n := config.maxFailures - 1;
    var events, e := Burst(0, n), FailedAt(config.lockout + config.escalated);
    BurstIs(0, n);
    InOrderConcat(events, [e], 0, e.now);
    MemoryBurst(map[], id, config, 0, 0, 0, n);
    RedisBurst(None, config, 0, 0, n);
    PartedAnswersDiffer(config, id, events, e, true);
  }
}
