/**
 What the brute-force limiters answer, said from the history of calls alone: how
 many failures of the client have counted since its last success, and until when
 it is locked out.
 */
module BruteForceReading {
  import opened Arithmetic
  import opened Wrappers
  import opened BruteForce
  import R = RedisBruteForce

  // ---------------------------------------------------------------------
  // In memory
  // ---------------------------------------------------------------------

  /** The failures counted since the last success, and the latest deadline, 0 before any. */
  datatype Tally = Tally(counted: nat, deadline: nat)

  function Max1(n: nat): (m: nat)
    ensures m > 0
  {
    if n < 1 then 1 else n
  }

  /** The failure completes a round of `max_failures`. */
  predicate Completes(config: Config, counted: nat) { counted % Max1(config.maxFailures) == 0 }

  /** How long the round's lockout lasts: every `max_lockouts`-th is long. */
  function LengthOf(config: Config, counted: nat): nat {
    if counted / Max1(config.maxFailures) % Max1(config.maxLockouts) == 0 then config.escalated else config.lockout
  }

  /** A failure counts unless the client is locked out; a success starts the count anew and unlocks nothing. */
  function TallyOf(config: Config, history: seq<Op>, id: string): Tally {
    if history == [] then Tally(0, 0)
    else
      var last, t := history[|history| - 1], TallyOf(config, history[..|history| - 1], id);
      match last
      case Look(_, _, _) => t
      case Succeed(other) => if other == id then Tally(0, t.deadline) else t
      case Fail(other, r) =>
        if other != id || r.locked < t.deadline then t
        else
          var n := t.counted + 1;
          Tally(n, if Completes(config, n) then r.trigger + LengthOf(config, n) else t.deadline)
  }

  function ToldAnswer(config: Config, history: seq<Op>, op: Op): bool {
    var t := TallyOf(config, history, op.id);
    match op
    case Look(_, _, now) => now < t.deadline
    case Fail(_, r) => t.deadline <= r.locked && Completes(config, t.counted + 1)
    case Succeed(_) => false
  }

  function ToldAnswers(config: Config, history: seq<Op>, ops: seq<Op>): seq<bool>
    decreases |ops|
  {
    if ops == [] then [] else [ToldAnswer(config, history, ops[0])] + ToldAnswers(config, history + [ops[0]], ops[1..])
  }

  /** The client's entry is what the tally says. */
  ghost predicate Matches(st: Attempts, config: Config, t: Tally, now: nat) {
    var f, l := Max1(config.maxFailures), Max1(config.maxLockouts);
    st.failures == t.counted % f && st.lockouts == t.counted / f % l && HeldTo(st, t.deadline, now)
  }

  /** Counting on by one, in remainders and quotients. */
  lemma OneMore(n: nat, m: nat)
    requires m > 0
    ensures n % m < m
    ensures n % m + 1 < m ==> (n + 1) % m == n % m + 1 && (n + 1) / m == n / m
    ensures n % m + 1 >= m ==> (n + 1) % m == 0 && (n + 1) / m == n / m + 1
  {
    var q, r := n / m, n % m;
    TimesIs(m, q);
    TimesIs(m, q + 1);
    if r + 1 < m {
      DivisionIs(n + 1, m, q, r + 1);
    } else {
      DivisionIs(n + 1, m, q + 1, 0);
    }
  }

  lemma NothingCounted(m: nat)
    requires m > 0
    ensures 0 % m == 0 && 0 / m == 0
  {
    DivisionIs(0, m, 0, 0);
  }

  lemma MatchesLater(st: Attempts, config: Config, t: Tally, from: nat, to: nat)
    requires Matches(st, config, t, from) && from <= to
    ensures Matches(st, config, t, to)
  {
  }

  lemma PurgedMatches(st: Attempts, config: Config, t: Tally, from: nat, now: nat)
    requires Matches(st, config, t, from) && from <= now
    ensures Matches(Surviving(st, now), config, t, now)
  {
  }

  /** One failure of the client itself. */
  lemma FailureMatches(st: Attempts, config: Config, t: Tally, r: Readings, to: nat)
    requires Matches(st, config, t, r.purge) && r.purge <= r.locked <= r.expired <= r.trigger <= to
    ensures var (st', triggered) := Failed(st, config, r);
            var n := t.counted + 1;
            if r.locked < t.deadline then !triggered && Matches(st', config, t, to)
            else
              && (triggered <==> Completes(config, n))
              && Matches(st', config, Tally(n, if triggered then r.trigger + LengthOf(config, n) else t.deadline), to)
  {
    var f, l := Max1(config.maxFailures), Max1(config.maxLockouts);
    OneMore(t.counted, f);
    OneMore(t.counted / f, l);
  }

  /** What one operation does to the tally of a client. */
  lemma OperationMatches(st: Attempts, config: Config, history: seq<Op>, op: Op, id: string, from: nat, to: nat)
    requires Between(from, op, to) && Matches(st, config, TallyOf(config, history, id), from)
    ensures Matches(EntryStep(st, config, op, id).0, config, TallyOf(config, history + [op], id), to)
  {
    var t := TallyOf(config, history, id);
    assert (history + [op])[..|history|] == history;
    match op
    case Look(_, purge, _) =>
      PurgedMatches(st, config, t, from, purge);
      MatchesLater(Surviving(st, purge), config, t, purge, to);
    case Succeed(_) =>
      NothingCounted(Max1(config.maxFailures));
      NothingCounted(Max1(config.maxLockouts));
      MatchesLater(st, config, t, from, to);
    case Fail(_, r) =>
      PurgedMatches(st, config, t, from, r.purge);
      if op.id == id {
        FailureMatches(Surviving(st, r.purge), config, t, r, to);
      } else {
        MatchesLater(Surviving(st, r.purge), config, t, r.purge, to);
      }
  }

  lemma AnswerMatches(m: Clients, config: Config, history: seq<Op>, op: Op, from: nat, to: nat)
    requires Between(from, op, to) && Matches(EntryOf(m, op.id), config, TallyOf(config, history, op.id), from)
    ensures Step(m, config, op).1 == ToldAnswer(config, history, op)
  {
    var st, t := EntryOf(m, op.id), TallyOf(config, history, op.id);
    match op
    case Look(id, purge, now) =>
      PurgedMatches(st, config, t, from, purge);
      assert EntryOf(Purged(m, purge), id) == Surviving(st, purge);
    case Fail(id, r) =>
      PurgedMatches(st, config, t, from, r.purge);
      FailureMatches(Surviving(st, r.purge), config, t, r, to);
      assert EntryOf(Purged(m, r.purge), id) == Surviving(st, r.purge);
    case Succeed(_) =>
  }

  /** Every client's entry is what its tally says. */
  ghost predicate AllMatch(m: Clients, config: Config, history: seq<Op>, now: nat) {
    forall id :: Matches(EntryOf(m, id), config, TallyOf(config, history, id), now)
  }

  lemma StepMatches(m: Clients, config: Config, history: seq<Op>, op: Op, from: nat, to: nat)
    requires Between(from, op, to) && AllMatch(m, config, history, from)
    ensures AllMatch(Step(m, config, op).0, config, history + [op], to)
  {
    forall id
      ensures Matches(EntryOf(Step(m, config, op).0, id), config, TallyOf(config, history + [op], id), to)
    {
      assert Matches(EntryOf(m, id), config, TallyOf(config, history, id), from);
      OperationMatches(EntryOf(m, id), config, history, op, id, from, to);
      StepIsEntryStep(m, config, op, id);
    }
  }

  lemma {:induction false} RunMatches(m: Clients, config: Config, history: seq<Op>, ops: seq<Op>, times: seq<nat>)
    requires |times| == |ops| + 1 && forall i :: 0 <= i < |ops| ==> Between(times[i], ops[i], times[i + 1])
    requires AllMatch(m, config, history, times[0])
    ensures Answers(m, config, ops) == ToldAnswers(config, history, ops)
    decreases |ops|
  {
    if ops != [] {
      var op := ops[0];
      assert Matches(EntryOf(m, op.id), config, TallyOf(config, history, op.id), times[0]);
      AnswerMatches(m, config, history, op, times[0], times[1]);
      StepMatches(m, config, history, op, times[0], times[1]);
      RunMatches(Step(m, config, op).0, config, history + [op], ops[1..], times[1..]);
    }
  }

  /**
   Over any run, of any clients, each answer is what the history says: locked until
   the deadline of the latest lockout, and a failure locks when it completes a round
   of those counted since the client's last success.
   */
  lemma AnswersAreTold(config: Config, ops: seq<Op>, times: seq<nat>)
    requires |times| == |ops| + 1 && forall i :: 0 <= i < |ops| ==> Between(times[i], ops[i], times[i + 1])
    ensures Answers(map[], config, ops) == ToldAnswers(config, [], ops)
  {
    NothingCounted(Max1(config.maxFailures));
    NothingCounted(Max1(config.maxLockouts));
    RunMatches(map[], config, [], ops, times);
  }

  // ---------------------------------------------------------------------
  // In Redis
  // ---------------------------------------------------------------------

  /** The failures pending, when the latest of them was, and the latest deadline, 0 where there is none. */
  datatype Pending = Pending(failures: nat, last: nat, deadline: nat)

  /** Pending failures are forgotten once both lockout times have passed since the latest. */
  function StillPending(config: Config, p: Pending, now: nat): nat {
    if now < p.last + config.lockout + config.escalated then p.failures else 0
  }

  function PendingAfter(config: Config, history: seq<R.Event>): Pending {
    if history == [] then Pending(0, 0, 0)
    else
      var last, p := history[|history| - 1], PendingAfter(config, history[..|history| - 1]);
      match last
      case Looked(_) => p
      case SucceededAt(_) => Pending(0, 0, 0)
      case FailedAt(now) =>
        if now < p.deadline then p
        else if StillPending(config, p, now) + 1 < config.maxFailures then
          Pending(StillPending(config, p, now) + 1, now, 0)
        else Pending(0, now, now + if config.maxLockouts <= 1 then config.escalated else config.lockout)
  }

  function ToldRedisAnswer(config: Config, history: seq<R.Event>, e: R.Event): bool {
    var p := PendingAfter(config, history);
    match e
    case Looked(now) => now < p.deadline
    case FailedAt(now) => p.deadline <= now && StillPending(config, p, now) + 1 >= config.maxFailures
    case SucceededAt(_) => false
  }

  function ToldRedisAnswers(config: Config, history: seq<R.Event>, events: seq<R.Event>): seq<bool>
    decreases |events|
  {
    if events == [] then []
    else [ToldRedisAnswer(config, history, events[0])] + ToldRedisAnswers(config, history + [events[0]], events[1..])
  }

  /** The stored hash is what the history says. */
  predicate Stores(v: Option<R.Record>, config: Config, p: Pending) {
    match v
    case None => p.failures == 0 && p.deadline == 0
    case Some(Record(failures, lockouts, lockedUntil, expiry)) =>
      && failures == p.failures && lockedUntil == p.deadline
      && (if failures > 0 then lockouts == 0 && lockedUntil == 0 && expiry == p.last + config.lockout + config.escalated
          else lockedUntil == expiry || (lockouts == 0 && lockedUntil == 0))
  }

  lemma EventIsStored(v: Option<R.Record>, config: Config, history: seq<R.Event>, e: R.Event)
    requires Stores(v, config, PendingAfter(config, history))
    ensures R.Answer(v, config, e).1 == ToldRedisAnswer(config, history, e)
    ensures Stores(R.Answer(v, config, e).0, config, PendingAfter(config, history + [e]))
  {
    assert (history + [e])[..|history|] == history;
  }

  lemma {:induction false} RedisRunMatches(v: Option<R.Record>, config: Config, history: seq<R.Event>,
                                           events: seq<R.Event>)
    requires Stores(v, config, PendingAfter(config, history))
    ensures R.RedisAnswers(v, config, events) == ToldRedisAnswers(config, history, events)
    decreases |events|
  {
    if events != [] {
      EventIsStored(v, config, history, events[0]);
      RedisRunMatches(R.Answer(v, config, events[0]).0, config, history + [events[0]], events[1..]);
    }
  }

  /** Whatever is called, in whatever order of readings, Redis answers as the history says. */
  lemma RedisAnswersAreTold(config: Config, events: seq<R.Event>)
    ensures R.RedisAnswers(None, config, events) == ToldRedisAnswers(config, [], events)
  {
    RedisRunMatches(None, config, [], events);
  }
}
