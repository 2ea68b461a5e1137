/**
 The in-memory brute-force limiter: failed logins of a client are counted, enough
 of them lock the client out, and enough lockouts lock it out for longer. Every
 method first drops the entries it need not remember. Times and durations are in
 one unit; the clock is read anew at every use and never runs backwards.
 */
module BruteForce {
  import opened Arithmetic
  import opened Wrappers

  datatype Config = Config(maxFailures: nat, lockout: nat, maxLockouts: nat, escalated: nat)

  datatype Attempts = Attempts(failures: nat, lockouts: nat, lockedUntil: Option<nat>)

  const FRESH := Attempts(0, 0, None)

  type Clients = map<string, Attempts>

  function EntryOf(m: Clients, id: string): Attempts { if id in m then m[id] else FRESH }

  predicate LockedAt(st: Attempts, now: nat) { st.lockedUntil.Some? && st.lockedUntil.value > now }

  predicate Retained(st: Attempts, now: nat) { LockedAt(st, now) || st.failures > 0 || st.lockouts > 0 }

  function Purged(m: Clients, now: nat): Clients { map id | id in m && Retained(m[id], now) :: m[id] }

  /** Count one failure of a client that is not locked; the flag tells of a new lockout. */
  function Counted(st: Attempts, config: Config, now: nat): (Attempts, bool) {
    if st.failures + 1 < config.maxFailures then (Attempts(st.failures + 1, st.lockouts, None), false)
    else if st.lockouts + 1 >= config.maxLockouts then (Attempts(0, 0, Some(now + config.escalated)), true)
    else (Attempts(0, st.lockouts + 1, Some(now + config.lockout)), true)
  }

  /** The clock readings of one `record_failure`, in the order they are taken. */
  datatype Readings = Readings(purge: nat, locked: nat, expired: nat, trigger: nat)

  function Failed(st: Attempts, config: Config, r: Readings): (Attempts, bool) {
    if LockedAt(st, r.locked) then (st, false)
    else Counted(if LockedAt(st, r.expired) then st else st.(lockedUntil := None), config, r.trigger)
  }

  function Reset(st: Attempts): Attempts { Attempts(0, 0, st.lockedUntil) }

  class InMemoryBruteForceLimiter {
    const config: Config
    var state: Clients

    constructor (config: Config)
      ensures this.config == config && state == map[]
    {
      this.config := config;
      state := map[];
    }

    method PurgeExpired(now: nat)
      modifies this
      ensures state == Purged(old(state), now)
    {
      state := map id | id in state && (LockedAt(state[id], now) || state[id].failures > 0 || state[id].lockouts > 0)
        :: state[id];
    }

    method IsLocked(id: string, purge: nat, now: nat) returns (locked: bool)
      modifies this
      ensures (state, locked) == Step(old(state), config, Look(id, purge, now))
    {
      PurgeExpired(purge);
      if id in state {
        locked := state[id].lockedUntil.Some? && state[id].lockedUntil.value > now;
      } else {
        locked := false;
      }
    }

    method RecordFailure(id: string, r: Readings) returns (triggered: bool)
      requires r.locked <= r.expired
      modifies this
      ensures (state, triggered) == Step(old(state), config, Fail(id, r))
    {
      PurgeExpired(r.purge);
      var st := if id in state then state[id] else Attempts(0, 0, None);
      if st.lockedUntil.Some? && st.lockedUntil.value > r.locked {
        state := state[id := st];
        return false;
      }
      if st.lockedUntil.Some? && st.lockedUntil.value <= r.expired {
        st := st.(lockedUntil := None);
      }
      st := st.(failures := st.failures + 1);
      triggered := false;
      if st.failures >= config.maxFailures {
        st := st.(lockouts := st.lockouts + 1, failures := 0);
        var now := r.trigger;
        if st.lockouts >= config.maxLockouts {
          st := st.(lockedUntil := Some(now + config.escalated));
          st := st.(lockouts := 0);
        } else {
          st := st.(lockedUntil := Some(now + config.lockout));
        }
        triggered := true;
      }
      state := state[id := st];
    }

    method RecordSuccess(id: string)
      modifies this
      ensures state == Step(old(state), config, Succeed(id)).0
    {
      if id in state {
        state := state[id := state[id].(failures := 0, lockouts := 0)];
      }
    }
  }

  // ---------------------------------------------------------------------
  // Runs
  // ---------------------------------------------------------------------

  datatype Op =
    | Look(id: string, purge: nat, now: nat)
    | Fail(id: string, r: Readings)
    | Succeed(id: string)

  function Step(m: Clients, config: Config, op: Op): (Clients, bool) {
    match op
    case Look(id, purge, now) =>
      var kept := Purged(m, purge);
      (kept, LockedAt(EntryOf(kept, id), now))
    case Fail(id, r) =>
      var kept := Purged(m, r.purge);
      var (st, triggered) := Failed(EntryOf(kept, id), config, r);
      (kept[id := st], triggered)
    case Succeed(id) =>
      (if id in m then m[id := Reset(m[id])] else m, false)
  }

  /** The operation's readings are in order and lie in the given interval. */
  predicate Between(from: nat, op: Op, to: nat) {
    match op
    case Look(_, purge, now) => from <= purge <= now <= to
    case Fail(_, r) => from <= r.purge <= r.locked <= r.expired <= r.trigger <= to
    case Succeed(_) => from <= to
  }

  ghost predicate IsRun(ms: seq<Clients>, config: Config, ops: seq<Op>, times: seq<nat>) {
    && |ms| == |times| == |ops| + 1
    && ms[0] == map[]
    && forall i :: 0 <= i < |ops| ==>
       Between(times[i], ops[i], times[i + 1]) && ms[i + 1] == Step(ms[i], config, ops[i]).0
  }

  // ---------------------------------------------------------------------
  // Forgetting is never noticed
  // ---------------------------------------------------------------------

  /** The limiter that purges nothing. */
  function KeepingStep(m: Clients, config: Config, op: Op): (Clients, bool) {
    match op
    case Look(id, _, now) => (m, LockedAt(EntryOf(m, id), now))
    case Fail(id, r) =>
      var (st, triggered) := Failed(EntryOf(m, id), config, r);
      (m[id := st], triggered)
    case Succeed(id) => (if id in m then m[id := Reset(m[id])] else m, false)
  }

  function Answers(m: Clients, config: Config, ops: seq<Op>): seq<bool>
    decreases |ops|
  {
    if ops == [] then [] else var (m', answer) := Step(m, config, ops[0]); [answer] + Answers(m', config, ops[1..])
  }

  function KeepingAnswers(m: Clients, config: Config, ops: seq<Op>): seq<bool>
    decreases |ops|
  {
    if ops == [] then []
    else var (m', answer) := KeepingStep(m, config, ops[0]); [answer] + KeepingAnswers(m', config, ops[1..])
  }

  /** What an entry still means at `now`. */
  function Meaning(st: Attempts, now: nat): Attempts { if LockedAt(st, now) then st else st.(lockedUntil := None) }

  ghost predicate Alike(m: Clients, keeping: Clients, now: nat) {
    forall id :: Meaning(EntryOf(m, id), now) == Meaning(EntryOf(keeping, id), now)
  }

  lemma AlikeLater(m: Clients, keeping: Clients, from: nat, to: nat)
    requires Alike(m, keeping, from) && from <= to
    ensures Alike(m, keeping, to)
  {
    forall id
      ensures Meaning(EntryOf(m, id), to) == Meaning(EntryOf(keeping, id), to)
    {
      assert Meaning(EntryOf(m, id), from) == Meaning(EntryOf(keeping, id), from);
    }
  }

  lemma PurgeKeepsMeaning(m: Clients, id: string, now: nat)
    ensures Meaning(EntryOf(Purged(m, now), id), now) == Meaning(EntryOf(m, id), now)
  {
  }

  lemma PurgeKeepsAlike(m: Clients, keeping: Clients, now: nat)
    requires Alike(m, keeping, now)
    ensures Alike(Purged(m, now), keeping, now)
  {
    forall id
      ensures Meaning(EntryOf(Purged(m, now), id), now) == Meaning(EntryOf(keeping, id), now)
    {
      PurgeKeepsMeaning(m, id, now);
      assert Meaning(EntryOf(m, id), now) == Meaning(EntryOf(keeping, id), now);
    }
  }

  /** Only what an entry still means decides what a failure does to it. */
  lemma FailsAlike(st: Attempts, keeping: Attempts, config: Config, r: Readings, now: nat)
    requires now <= r.locked <= r.expired <= r.trigger && Meaning(st, now) == Meaning(keeping, now)
    ensures Failed(st, config, r).1 == Failed(keeping, config, r).1
    ensures forall to :: to >= r.trigger ==>
            Meaning(Failed(st, config, r).0, to) == Meaning(Failed(keeping, config, r).0, to)
  {
  }

  /** Changing alike entries alike. */
  lemma UpdateKeepsAlike(m: Clients, keeping: Clients, id: string, st: Attempts, st': Attempts, now: nat)
    requires Alike(m, keeping, now) && Meaning(st, now) == Meaning(st', now)
    ensures Alike(m[id := st], keeping[id := st'], now)
  {
    var n, n' := m[id := st], keeping[id := st'];
    forall k
      ensures Meaning(EntryOf(n, k), now) == Meaning(EntryOf(n', k), now)
    {
      assert Meaning(EntryOf(m, k), now) == Meaning(EntryOf(keeping, k), now);
    }
  }

  lemma StepsAlike(m: Clients, keeping: Clients, config: Config, op: Op, from: nat, to: nat)
    requires Alike(m, keeping, from) && Between(from, op, to)
    ensures Step(m, config, op).1 == KeepingStep(keeping, config, op).1
    ensures Alike(Step(m, config, op).0, KeepingStep(keeping, config, op).0, to)
  {
    match op
    case Look(id, purge, now) =>
      AlikeLater(m, keeping, from, purge);
      PurgeKeepsAlike(m, keeping, purge);
      assert Meaning(EntryOf(Purged(m, purge), id), purge) == Meaning(EntryOf(keeping, id), purge);
      AlikeLater(Purged(m, purge), keeping, purge, to);
    case Fail(id, r) =>
      AlikeLater(m, keeping, from, r.purge);
      PurgeKeepsAlike(m, keeping, r.purge);
      var kept := Purged(m, r.purge);
      assert Meaning(EntryOf(kept, id), r.purge) == Meaning(EntryOf(keeping, id), r.purge);
      FailsAlike(EntryOf(kept, id), EntryOf(keeping, id), config, r, r.purge);
      AlikeLater(kept, keeping, r.purge, to);
      UpdateKeepsAlike(kept, keeping, id, Failed(EntryOf(kept, id), config, r).0,
                       Failed(EntryOf(keeping, id), config, r).0, to);
    case Succeed(id) =>
      AlikeLater(m, keeping, from, to);
      SuccessKeepsAlike(m, keeping, id, to);
  }

  lemma SuccessKeepsAlike(m: Clients, keeping: Clients, id: string, now: nat)
    requires Alike(m, keeping, now)
    ensures Alike(if id in m then m[id := Reset(m[id])] else m,
                  if id in keeping then keeping[id := Reset(keeping[id])] else keeping, now)
  {
    var n := if id in m then m[id := Reset(m[id])] else m;
    var n' := if id in keeping then keeping[id := Reset(keeping[id])] else keeping;
    forall k
      ensures Meaning(EntryOf(n, k), now) == Meaning(EntryOf(n', k), now)
    {
      assert Meaning(EntryOf(m, k), now) == Meaning(EntryOf(keeping, k), now);
    }
  }

  /** Over any run the purging limiter gives the answers of one that never forgets. */
  lemma {:induction false} PurgingIsInvisible(m: Clients, keeping: Clients, config: Config, ops: seq<Op>,
                                              times: seq<nat>)
    requires |times| == |ops| + 1 && forall i :: 0 <= i < |ops| ==> Between(times[i], ops[i], times[i + 1])
    requires Alike(m, keeping, times[0])
    ensures Answers(m, config, ops) == KeepingAnswers(keeping, config, ops)
    decreases |ops|
  {
    if ops != [] {
      StepsAlike(m, keeping, config, ops[0], times[0], times[1]);
      PurgingIsInvisible(Step(m, config, ops[0]).0, KeepingStep(keeping, config, ops[0]).0, config, ops[1..],
                         times[1..]);
    }
  }

  // ---------------------------------------------------------------------
  // A lockout lasts exactly as long as announced
  // ---------------------------------------------------------------------

  predicate Triggers(m: Clients, config: Config, op: Op, id: string) {
    op.Fail? && op.id == id && Step(m, config, op).1
  }

  /** The client has been locked until `deadline` and not again since. */
  predicate HeldTo(st: Attempts, deadline: nat, now: nat) {
    if now < deadline then st.lockedUntil == Some(deadline) else !LockedAt(st, now)
  }

  lemma HoldKept(m: Clients, config: Config, op: Op, id: string, deadline: nat, from: nat, to: nat)
    requires Between(from, op, to) && HeldTo(EntryOf(m, id), deadline, from) && !Triggers(m, config, op, id)
    ensures HeldTo(EntryOf(Step(m, config, op).0, id), deadline, to)
    ensures op.Look? && op.id == id ==> (Step(m, config, op).1 <==> op.now < deadline)
  {
  }

  /** No failure can trigger anything before the deadline. */
  lemma NoTriggerWhileHeld(m: Clients, config: Config, op: Op, id: string, deadline: nat, from: nat, to: nat)
    requires Between(from, op, to) && HeldTo(EntryOf(m, id), deadline, from) && Triggers(m, config, op, id)
    ensures deadline <= op.r.locked
  {
  }

  /** The deadline that the lockout triggered by operation `i` set. */
  function DeadlineOf(config: Config, st: Attempts, now: nat): nat {
    now + if st.lockouts + 1 >= config.maxLockouts then config.escalated else config.lockout
  }

  /** The deadline set by a failure that triggers in state `m`. */
  function TriggeredDeadline(m: Clients, config: Config, op: Op): nat
    requires op.Fail?
  {
    DeadlineOf(config, EntryOf(m, op.id), op.r.trigger)
  }

  lemma {:induction false} HeldSince(ms: seq<Clients>, config: Config, ops: seq<Op>, times: seq<nat>, i: nat, j: nat,
                                     id: string)
    requires IsRun(ms, config, ops, times) && i < j <= |ops| && Triggers(ms[i], config, ops[i], id)
    requires forall k :: i < k < j ==> !Triggers(ms[k], config, ops[k], id)
    ensures HeldTo(EntryOf(ms[j], id), TriggeredDeadline(ms[i], config, ops[i]), times[j])
    decreases j
  {
    assert Between(times[j - 1], ops[j - 1], times[j]) && ms[j] == Step(ms[j - 1], config, ops[j - 1]).0;
    if i < j - 1 {
      HeldSince(ms, config, ops, times, i, j - 1, id);
      HoldKept(ms[j - 1], config, ops[j - 1], id, TriggeredDeadline(ms[i], config, ops[i]), times[j - 1], times[j]);
    }
  }

  /** Before a lockout's deadline there is no further trigger, whatever is called for this client or others. */
  lemma {:induction false} NoTriggerBeforeTheDeadline(ms: seq<Clients>, config: Config, ops: seq<Op>, times: seq<nat>,
                                                      i: nat, j: nat, id: string)
    requires IsRun(ms, config, ops, times) && i < j <= |ops| && Triggers(ms[i], config, ops[i], id)
    requires times[j] < TriggeredDeadline(ms[i], config, ops[i])
    ensures forall k :: i < k < j ==> !Triggers(ms[k], config, ops[k], id)
    decreases j
  {
    assert Between(times[j - 1], ops[j - 1], times[j]);
    if i < j - 1 {
      NoTriggerBeforeTheDeadline(ms, config, ops, times, i, j - 1, id);
      HeldSince(ms, config, ops, times, i, j - 1, id);
      if Triggers(ms[j - 1], config, ops[j - 1], id) {
        NoTriggerWhileHeld(ms[j - 1], config, ops[j - 1], id, TriggeredDeadline(ms[i], config, ops[i]), times[j - 1],
                           times[j]);
      }
    }
  }

  /**
   A lockout is exact: until its deadline every `is_locked` says yes, whatever is
   called meanwhile for this client (a success included) or for others; from the
   deadline on every one says no, until the next trigger.
   */
  lemma LockoutIsExact(ms: seq<Clients>, config: Config, ops: seq<Op>, times: seq<nat>, i: nat, j: nat, id: string)
    requires IsRun(ms, config, ops, times) && i < j < |ops| && Triggers(ms[i], config, ops[i], id)
    requires ops[j].Look? && ops[j].id == id
    ensures var deadline := TriggeredDeadline(ms[i], config, ops[i]);
            && (ops[j].now < deadline ==> Step(ms[j], config, ops[j]).1)
            && (ops[j].now >= deadline && (forall k :: i < k < j ==> !Triggers(ms[k], config, ops[k], id)) ==>
                  !Step(ms[j], config, ops[j]).1)
  {
    var deadline := TriggeredDeadline(ms[i], config, ops[i]);
    assert Between(times[j], ops[j], times[j + 1]);
    if ops[j].now < deadline {
      NoTriggerBeforeTheDeadline(ms, config, ops, times, i, j, id);
    }
    if forall k :: i < k < j ==> !Triggers(ms[k], config, ops[k], id) {
      HeldSince(ms, config, ops, times, i, j, id);
      HoldKept(ms[j], config, ops[j], id, deadline, times[j], times[j + 1]);
    }
  }

  // ---------------------------------------------------------------------
  // The rate of lockouts
  // ---------------------------------------------------------------------

  /** At least one failure, and at least one lockout, makes the next stage. */
  function AtLeastOne(n: nat): nat { if n == 0 then 1 else n }

  /** The lockout counter after `k` lockouts: it wraps at every escalation. */
  function Phase(k: nat, m: nat): (p: nat)
    requires m > 0
    ensures p < m
  {
    if k == 0 then 0 else if Phase(k - 1, m) + 1 >= m then 0 else Phase(k - 1, m) + 1
  }

  /** How many of the first `k` lockouts are escalated. */
  function Escalations(k: nat, m: nat): (e: nat)
    requires m > 0
    ensures e <= k
  {
    if k == 0 then 0 else Escalations(k - 1, m) + if Phase(k, m) == 0 then 1 else 0
  }

  lemma {:induction false} PhasesAddUp(k: nat, m: nat)
    requires m > 0
    ensures k == Times(m, Escalations(k, m)) + Phase(k, m)
  {
    if k > 0 { PhasesAddUp(k - 1, m); }
  }

  lemma CycleIs(k: nat, m: nat)
    requires m > 0
    ensures Phase(k, m) == k % m && Escalations(k, m) == k / m
  {
    PhasesAddUp(k, m);
    DivisionIs(k, m, Escalations(k, m), Phase(k, m));
  }

  /** How long the `k`-th lockout lasts, counting from 1. */
  function DurationOf(config: Config, k: nat): nat {
    if Phase(k, AtLeastOne(config.maxLockouts)) == 0 then config.escalated else config.lockout
  }

  /** The first `k` lockouts together. */
  function TotalDuration(config: Config, k: nat): nat {
    if k == 0 then 0 else TotalDuration(config, k - 1) + DurationOf(config, k)
  }

  datatype Lockout = Lockout(at: nat, until: nat)

  /** The client's lockouts in the first `n` operations. */
  ghost function Lockouts(ms: seq<Clients>, config: Config, ops: seq<Op>, id: string, n: nat): seq<Lockout>
    requires n <= |ops| <= |ms|
  {
    if n == 0 then []
    else
      Lockouts(ms, config, ops, id, n - 1) +
      if Triggers(ms[n - 1], config, ops[n - 1], id)
      then [Lockout(ops[n - 1].r.trigger, TriggeredDeadline(ms[n - 1], config, ops[n - 1]))]
      else []
  }

  /** A failure of the client while it is not locked. */
  predicate Counts(m: Clients, op: Op, id: string) {
    op.Fail? && op.id == id && !LockedAt(EntryOf(Purged(m, op.r.purge), id), op.r.locked)
  }

  ghost function CountedFailures(ms: seq<Clients>, ops: seq<Op>, id: string, n: nat): nat
    requires n <= |ops| <= |ms|
  {
    if n == 0 then 0
    else CountedFailures(ms, ops, id, n - 1) + if Counts(ms[n - 1], ops[n - 1], id) then 1 else 0
  }

  /** Lockouts follow one another, each as long as its place in the cycle demands. */
  ghost predicate Spaced(ls: seq<Lockout>, config: Config) {
    && (forall i :: 0 <= i < |ls| ==> ls[i].until == ls[i].at + DurationOf(config, i + 1))
    && (forall i :: 0 < i < |ls| ==> ls[i - 1].until <= ls[i].at)
  }

  ghost predicate OnCourse(st: Attempts, ls: seq<Lockout>, counted: nat, config: Config, now: nat) {
    && counted == Times(AtLeastOne(config.maxFailures), |ls|) + st.failures
    && st.failures < AtLeastOne(config.maxFailures)
    && st.lockouts == Phase(|ls|, AtLeastOne(config.maxLockouts))
    && Spaced(ls, config)
    && (if ls == [] then st.lockedUntil.None? else ls[|ls| - 1].at <= now && HeldTo(st, ls[|ls| - 1].until, now))
  }

  lemma PurgeKeepsCourse(st: Attempts, ls: seq<Lockout>, counted: nat, config: Config, from: nat, now: nat)
    requires OnCourse(st, ls, counted, config, from) && from <= now
    ensures OnCourse(Surviving(st, now), ls, counted, config, now)
  {
  }

  lemma CountingKeepsCourse(st: Attempts, ls: seq<Lockout>, counted: nat, config: Config, from: nat, now: nat)
    requires OnCourse(st, ls, counted, config, from) && from <= now && !LockedAt(st, now)
    ensures var (st', triggered) := Counted(st, config, now);
            OnCourse(st', ls + if triggered then [Lockout(now, DeadlineOf(config, st, now))] else [],
                     counted + 1, config, now)
  {
  }

  /** One failure, of an entry that has survived the purge. */
  lemma FailureKeepsCourse(st: Attempts, ls: seq<Lockout>, counted: nat, config: Config, r: Readings, to: nat)
    requires OnCourse(st, ls, counted, config, r.purge) && r.purge <= r.locked <= r.expired <= r.trigger <= to
    ensures var (st', triggered) := Failed(st, config, r);
            OnCourse(st', ls + if triggered then [Lockout(r.trigger, DeadlineOf(config, st, r.trigger))] else [],
                     counted + if LockedAt(st, r.locked) then 0 else 1, config, to)
  {
    assert ls + [] == ls;
    if LockedAt(st, r.locked) {
      OnCourseLater(st, ls, counted, config, r.purge, to);
    } else {
      OnCourseLater(st, ls, counted, config, r.purge, r.trigger);
      CountingKeepsCourse(st, ls, counted, config, r.purge, r.trigger);
      var (st', triggered) := Counted(st, config, r.trigger);
      OnCourseLater(st', ls + if triggered then [Lockout(r.trigger, DeadlineOf(config, st, r.trigger))] else [],
                    counted + 1, config, r.trigger, to);
    }
  }

  lemma OnCourseLater(st: Attempts, ls: seq<Lockout>, counted: nat, config: Config, from: nat, to: nat)
    requires OnCourse(st, ls, counted, config, from) && from <= to
    ensures OnCourse(st, ls, counted, config, to)
  {
  }

  /** What one operation does to the client's own entry: the new entry, a new lockout, and whether a failure counted. */
  function EntryStep(st: Attempts, config: Config, op: Op, id: string): (Attempts, seq<Lockout>, nat) {
    match op
    case Look(_, purge, _) => (Surviving(st, purge), [], 0)
    case Succeed(_) => (if op.id == id then Reset(st) else st, [], 0)
    case Fail(_, r) =>
      var kept := Surviving(st, r.purge);
      if op.id != id then (kept, [], 0)
      else
        var (st', triggered) := Failed(kept, config, r);
        (st', if triggered then [Lockout(r.trigger, DeadlineOf(config, kept, r.trigger))] else [],
         if LockedAt(kept, r.locked) then 0 else 1)
  }

  /** The client's entry after a purge. */
  function Surviving(st: Attempts, now: nat): Attempts { if Retained(st, now) then st else FRESH }

  lemma StepIsEntryStep(m: Clients, config: Config, op: Op, id: string)
    ensures EntryStep(EntryOf(m, id), config, op, id) ==
            (EntryOf(Step(m, config, op).0, id),
             if Triggers(m, config, op, id) then [Lockout(op.r.trigger, TriggeredDeadline(m, config, op))] else [],
             if Counts(m, op, id) then 1 else 0)
  {
  }

  lemma StepKeepsCourse(st: Attempts, config: Config, op: Op, id: string, ls: seq<Lockout>, counted: nat, from: nat,
                        to: nat)
    requires OnCourse(st, ls, counted, config, from) && Between(from, op, to)
    requires !(op.Succeed? && op.id == id)
    ensures var (st', more, n) := EntryStep(st, config, op, id);
            OnCourse(st', ls + more, counted + n, config, to)
  {
    assert ls + [] == ls;
    match op
    case Look(_, purge, _) =>
      PurgeKeepsCourse(st, ls, counted, config, from, purge);
      OnCourseLater(Surviving(st, purge), ls, counted, config, purge, to);
    case Succeed(_) => OnCourseLater(st, ls, counted, config, from, to);
    case Fail(_, r) =>
      PurgeKeepsCourse(st, ls, counted, config, from, r.purge);
      if op.id == id {
        FailureKeepsCourse(Surviving(st, r.purge), ls, counted, config, r, to);
      } else {
        OnCourseLater(Surviving(st, r.purge), ls, counted, config, r.purge, to);
      }
  }

  lemma {:induction false} RunKeepsCourse(ms: seq<Clients>, config: Config, ops: seq<Op>, times: seq<nat>, id: string,
                                          n: nat)
    requires IsRun(ms, config, ops, times) && n <= |ops|
    requires forall i :: 0 <= i < n ==> !(ops[i].Succeed? && ops[i].id == id)
    ensures OnCourse(EntryOf(ms[n], id), Lockouts(ms, config, ops, id, n), CountedFailures(ms, ops, id, n), config,
                     times[n])
  {
    if n > 0 {
      RunKeepsCourse(ms, config, ops, times, id, n - 1);
      StepIsEntryStep(ms[n - 1], config, ops[n - 1], id);
      StepKeepsCourse(EntryOf(ms[n - 1], id), config, ops[n - 1], id, Lockouts(ms, config, ops, id, n - 1),
                      CountedFailures(ms, ops, id, n - 1), times[n - 1], times[n]);
    }
  }

  lemma {:induction false} SpacedTakesTime(ls: seq<Lockout>, config: Config, k: nat)
    requires Spaced(ls, config) && k < |ls|
    ensures ls[k].at >= ls[0].at + TotalDuration(config, k)
  {
    if k > 0 { SpacedTakesTime(ls, config, k - 1); }
  }

  /** The closed form: every `max_lockouts`-th lockout is escalated. */
  lemma TotalDurationIs(config: Config, k: nat)
    ensures var e := k / AtLeastOne(config.maxLockouts);
            TotalDuration(config, k) == config.lockout * (k - e) + config.escalated * e
  {
    TotalDurationAddsUp(config, k);
    var e := Escalations(k, AtLeastOne(config.maxLockouts));
    CycleIs(k, AtLeastOne(config.maxLockouts));
    TimesIs(config.lockout, k - e);
    TimesIs(config.escalated, e);
  }

  lemma {:induction false} TotalDurationAddsUp(config: Config, k: nat)
    ensures var e := Escalations(k, AtLeastOne(config.maxLockouts));
            TotalDuration(config, k) == Times(config.lockout, k - e) + Times(config.escalated, e)
  {
    if k > 0 { TotalDurationAddsUp(config, k - 1); }
  }

  /**
   While a client never succeeds, each of its lockouts starts after the one before
   has run out and every `max_lockouts`-th is escalated, so `k` lockouts take at
   least the first `k - 1` together; and exactly `max_failures` failures were
   counted for each, plus those still pending.
   */
  lemma LockoutsAreRateBounded(ms: seq<Clients>, config: Config, ops: seq<Op>, times: seq<nat>, id: string, n: nat)
    requires IsRun(ms, config, ops, times) && n <= |ops|
    requires forall i :: 0 <= i < n ==> !(ops[i].Succeed? && ops[i].id == id)
    ensures var ls := Lockouts(ms, config, ops, id, n);
            && Spaced(ls, config)
            && (ls != [] ==> times[n] >= ls[0].at + TotalDuration(config, |ls| - 1))
    ensures var k, f := |Lockouts(ms, config, ops, id, n)|, AtLeastOne(config.maxFailures);
            f * k <= CountedFailures(ms, ops, id, n) <= f * k + (f - 1)
  {
    RunKeepsCourse(ms, config, ops, times, id, n);
    var ls := Lockouts(ms, config, ops, id, n);
    TimesIs(AtLeastOne(config.maxFailures), |ls|);
    if ls != [] { SpacedTakesTime(ls, config, |ls| - 1); }
  }
}
