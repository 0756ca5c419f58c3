/** What the token bucket guarantees over whole runs of one key. */
module TokenBucketTheory {
  import opened Arithmetic
  import opened Keyed
  import opened TokenBucketModel
  import opened IdealBucket

  /** What every reachable entry satisfies at clock reading now. */
  ghost predicate Inv(cfg: Config, e: Option<Bucket>, now: int) {
    e.Some? ==> 0 <= e.value.tokens <= cfg.capacity && e.value.lastUpdate <= now
  }

  /** The longest time between two clock readings that completes no whole token. */
  ghost function LastIdle(fillRate: real): int
    requires fillRate > 0.0
  {
    var q := (NANOS_PER_SECOND / fillRate).Floor;
    if Accrued(fillRate, q) < 1.0 then q else q - 1
  }

  /** The fraction of a token that can accrue meanwhile.  Rounding down hides at most this much. */
  ghost function Slack(fillRate: real): real
    requires fillRate > 0.0
  {
    Accrued(fillRate, LastIdle(fillRate))
  }

  lemma AccruedBelowOne(fillRate: real, dt: int)
    requires fillRate > 0.0
    ensures Accrued(fillRate, dt) < 1.0 <==> dt as real < NANOS_PER_SECOND / fillRate
    ensures Accrued(fillRate, dt) == 1.0 <==> dt as real == NANOS_PER_SECOND / fillRate
  {
    var x, y := dt as real / NANOS_PER_SECOND, 1.0 / fillRate;
    assert y * fillRate == 1.0;
    assert NANOS_PER_SECOND / fillRate == NANOS_PER_SECOND * y;
    if x < y {
      assert (y - x) * fillRate > 0.0;
    } else if x > y {
      assert (x - y) * fillRate > 0.0;
    }
  }

  lemma LastIdleIsLast(fillRate: real)
    requires fillRate > 0.0
    ensures LastIdle(fillRate) >= 0
    ensures Accrued(fillRate, LastIdle(fillRate)) < 1.0 <= Accrued(fillRate, LastIdle(fillRate) + 1)
  {
    var q := (NANOS_PER_SECOND / fillRate).Floor;
    assert NANOS_PER_SECOND / fillRate > 0.0;
    AccruedBelowOne(fillRate, q);
    AccruedBelowOne(fillRate, q - 1);
    AccruedBelowOne(fillRate, q + 1);
    AccruedPositive(fillRate, q);
  }

  lemma SlackIsFraction(fillRate: real)
    requires fillRate > 0.0
    ensures 0.0 <= Slack(fillRate) < 1.0
    ensures forall dt: int :: Accrued(fillRate, dt) < 1.0 ==> Accrued(fillRate, dt) <= Slack(fillRate)
  {
    var k := LastIdle(fillRate);
    LastIdleIsLast(fillRate);
    AccruedPositive(fillRate, k);
    forall dt: int | Accrued(fillRate, dt) < 1.0
      ensures Accrued(fillRate, dt) <= Slack(fillRate)
    {
      if dt > k {
        AccruedMonotone(fillRate, k + 1, dt);
      } else {
        AccruedMonotone(fillRate, dt, k);
      }
    }
  }

  ghost function IdealCapacity(cfg: Config): real
    requires Sane(cfg)
  {
    cfg.capacity as real + Slack(cfg.fillRate)
  }

  /** The credit an entry stands for at time now; an absent entry stands for a full bucket. */
  ghost function Credit(cfg: Config, e: Option<Bucket>, now: int): real
    requires Sane(cfg)
  {
    if e.None? then cfg.capacity as real
    else MinReal(e.value.tokens as real + Accrued(cfg.fillRate, now - e.value.lastUpdate), IdealCapacity(cfg))
  }

  /** Sweeping an entry must not create credit: a full bucket must have accrued by the
      first clock reading at which cleanup drops the entry. */
  ghost predicate CleanupIsHarmless(cfg: Config) {
    cfg.capacity as real <= Accrued(cfg.fillRate, cfg.cleanupInterval + 1)
  }

  /** Does this sweep delete the entry? */
  predicate Drops(cfg: Config, e: Option<Bucket>, op: Stamped<Op>) {
    op.act.Clean? && e.Some? && op.now - e.value.lastUpdate > cfg.cleanupInterval
  }

  /** No sweep of the run deletes anything. */
  ghost predicate NeverDrops(cfg: Config, e: Option<Bucket>, ops: seq<Stamped<Op>>) {
    ops == []
    || (var init, op := ops[..|ops| - 1], ops[|ops| - 1];
        NeverDrops(cfg, e, init) && !Drops(cfg, State(cfg, e, init), op))
  }

  /** The sweeps of a run create no credit: by the settings, or because they delete nothing. */
  ghost predicate SweepsAreHarmless(cfg: Config, e: Option<Bucket>, ops: seq<Stamped<Op>>) {
    CleanupIsHarmless(cfg) || NeverDrops(cfg, e, ops)
  }

  lemma StepKeepsInv(cfg: Config, e: Option<Bucket>, before: int, op: Stamped<Op>)
    requires Sane(cfg) && Inv(cfg, e, before) && before <= op.now
    ensures Inv(cfg, Step(cfg, e, op), op.now)
  {
  }

  lemma {:induction false} RunKeepsInv(cfg: Config, e: Option<Bucket>, t0: int, ops: seq<Stamped<Op>>)
    requires Sane(cfg) && Inv(cfg, e, t0) && Timed(t0, ops)
    ensures Inv(cfg, State(cfg, e, ops), End(t0, ops))
  {
    if ops == [] {
    } else {
      var init := ops[..|ops| - 1];
      RunKeepsInv(cfg, e, t0, init);
      StepKeepsInv(cfg, State(cfg, e, init), End(t0, init), ops[|ops| - 1]);
    }
  }

  lemma RefillCreatesNoCredit(cfg: Config, b: Bucket, now: int)
    requires Sane(cfg) && Inv(cfg, Some(b), now)
    ensures var r := Refilled(cfg, b, now);
      r.tokens as real + Accrued(cfg.fillRate, now - r.lastUpdate) <= Credit(cfg, Some(b), now)
  {
    SlackIsFraction(cfg.fillRate);
    AccruedPositive(cfg.fillRate, 0);
    AccruedPositive(cfg.fillRate, now - b.lastUpdate);
  }

  lemma CreditWaits(cfg: Config, e: Option<Bucket>, t: int, u: int, l: Level)
    requires Sane(cfg) && t <= u
    requires Credit(cfg, e, t) <= LevelAt(IdealCapacity(cfg), cfg.fillRate, l, t)
    ensures Credit(cfg, e, u) <= LevelAt(IdealCapacity(cfg), cfg.fillRate, l, u)
  {
    SlackIsFraction(cfg.fillRate);
    AccruedPositive(cfg.fillRate, u - t);
    AccruedAdd(cfg.fillRate, t - l.at, u - t);
    if e.Some? {
      AccruedAdd(cfg.fillRate, t - e.value.lastUpdate, u - t);
    }
  }

  /** One step of the forward simulation: whenever the code grants, the ideal bucket can. */
  lemma StepSimulated(cfg: Config, e: Option<Bucket>, op: Stamped<Op>, l: Level)
    requires Sane(cfg) && (CleanupIsHarmless(cfg) || !Drops(cfg, e, op))
    requires Inv(cfg, e, op.now) && l.at <= op.now
    requires Credit(cfg, e, op.now) <= LevelAt(IdealCapacity(cfg), cfg.fillRate, l, op.now)
    ensures Grants(cfg, e, op) ==> LevelAt(IdealCapacity(cfg), cfg.fillRate, l, op.now) >= 1.0
    ensures var level := LevelAt(IdealCapacity(cfg), cfg.fillRate, l, op.now);
      var l' := if Grants(cfg, e, op) then Level(level - 1.0, op.now) else l;
      Credit(cfg, Step(cfg, e, op), op.now) <= LevelAt(IdealCapacity(cfg), cfg.fillRate, l', op.now)
  {
    SlackIsFraction(cfg.fillRate);
    AccruedPositive(cfg.fillRate, 0);
    if e.Some? {
      RefillCreatesNoCredit(cfg, e.value, op.now);
      AccruedPositive(cfg.fillRate, op.now - Refilled(cfg, e.value, op.now).lastUpdate);
      if Drops(cfg, e, op) {
        AccruedMonotone(cfg.fillRate, cfg.cleanupInterval + 1, op.now - e.value.lastUpdate);
      }
    } else {
      RefillCreatesNoCredit(cfg, Bucket(cfg.capacity, op.now), op.now);
    }
  }

  /** The ideal bucket, started at t0 with v0, has served all these times and still holds at least
      what the entry stands for. */
  ghost predicate Simulated(cfg: Config, v0: real, t0: int, times: seq<int>, e: Option<Bucket>, now: int)
    requires Sane(cfg)
  {
    var end := Serve(IdealCapacity(cfg), cfg.fillRate, Level(v0, t0), times);
    && end.Some?
    && t0 <= end.value.at <= now
    && Credit(cfg, e, now) <= LevelAt(IdealCapacity(cfg), cfg.fillRate, end.value, now)
  }

  lemma StepStaysSimulated(cfg: Config, v0: real, t0: int, times: seq<int>, e: Option<Bucket>, now: int,
                           op: Stamped<Op>)
    requires Sane(cfg) && (CleanupIsHarmless(cfg) || !Drops(cfg, e, op))
    requires Inv(cfg, e, now) && now <= op.now && Simulated(cfg, v0, t0, times, e, now)
    ensures Simulated(cfg, v0, t0, times + (if Grants(cfg, e, op) then [op.now] else []), Step(cfg, e, op), op.now)
  {
    var l := Serve(IdealCapacity(cfg), cfg.fillRate, Level(v0, t0), times).value;
    CreditWaits(cfg, e, now, op.now, l);
    StepSimulated(cfg, e, op, l);
    assert (times + [op.now])[..|times|] == times && times + [] == times;
  }

  /** Forward simulation over whole runs: started with at least the entry's credit, the ideal
      continuous bucket of capacity cfg.capacity + Slack serves every grant the code makes. */
  lemma {:induction false} IdealBucketSimulates(cfg: Config, e: Option<Bucket>, t0: int, v0: real,
                                                ops: seq<Stamped<Op>>)
    requires Sane(cfg) && SweepsAreHarmless(cfg, e, ops)
    requires Inv(cfg, e, t0) && Timed(t0, ops)
    requires Credit(cfg, e, t0) <= v0 <= IdealCapacity(cfg)
    ensures Simulated(cfg, v0, t0, GrantTimes(cfg, e, ops), State(cfg, e, ops), End(t0, ops))
  {
    if ops == [] {
      AccruedPositive(cfg.fillRate, 0);
    } else {
      var init, op := ops[..|ops| - 1], ops[|ops| - 1];
      IdealBucketSimulates(cfg, e, t0, v0, init);
      RunKeepsInv(cfg, e, t0, init);
      StepStaysSimulated(cfg, v0, t0, GrantTimes(cfg, e, init), State(cfg, e, init), End(t0, init), op);
      OneMore(Stepper(cfg), Granter(cfg), e, init, op);
      assert init + [op] == ops;
    }
  }

  lemma {:induction false} GrantBound(cfg: Config, e: Option<Bucket>, t0: int, v0: real, ops: seq<Stamped<Op>>)
    requires Sane(cfg) && SweepsAreHarmless(cfg, e, ops)
    requires Inv(cfg, e, t0) && Timed(t0, ops)
    requires Credit(cfg, e, t0) <= v0 <= IdealCapacity(cfg)
    ensures |GrantTimes(cfg, e, ops)| as real <= v0 + Accrued(cfg.fillRate, End(t0, ops) - t0)
  {
    var times := GrantTimes(cfg, e, ops);
    IdealBucketSimulates(cfg, e, t0, v0, ops);
    SlackIsFraction(cfg.fillRate);
    if e.Some? {
      AccruedPositive(cfg.fillRate, t0 - e.value.lastUpdate);
    }
    ServeConserves(IdealCapacity(cfg), cfg.fillRate, Level(v0, t0), times);
    var last := Serve(IdealCapacity(cfg), cfg.fillRate, Level(v0, t0), times).value;
    AccruedMonotone(cfg.fillRate, last.at - t0, End(t0, ops) - t0);
  }

  /** Sliding-window bound: from any reachable entry, the tokens handed out in a window are
      fewer than capacity + 1 plus what accrues during the window. */
  lemma {:induction false} WindowBound(cfg: Config, e: Option<Bucket>, t0: int, ops: seq<Stamped<Op>>)
    requires Sane(cfg) && SweepsAreHarmless(cfg, e, ops)
    requires Inv(cfg, e, t0) && Timed(t0, ops)
    ensures |GrantTimes(cfg, e, ops)| as real < cfg.capacity as real + 1.0 + Accrued(cfg.fillRate, End(t0, ops) - t0)
  {
    SlackIsFraction(cfg.fillRate);
    GrantBound(cfg, e, t0, IdealCapacity(cfg), ops);
  }

  // ----- the routines beside the requests -----

  /** The last refillAll of a run, or its start. */
  function LastRefill(t0: int, ops: seq<Stamped<Op>>): int {
    if ops == [] then t0
    else if ops[|ops| - 1].act.Refill? then ops[|ops| - 1].now
    else LastRefill(t0, ops[..|ops| - 1])
  }

  /** The refill routine is at work: every step, the next refillAll included, comes within r of the
      last refillAll or of the start. */
  ghost predicate Ticking(r: int, t0: int, ops: seq<Stamped<Op>>) {
    ops == []
    || (Ticking(r, t0, ops[..|ops| - 1]) && ops[|ops| - 1].now - LastRefill(t0, ops[..|ops| - 1]) <= r)
  }

  lemma TickingOneMore(r: int, t0: int, ops: seq<Stamped<Op>>, op: Stamped<Op>)
    ensures LastRefill(t0, ops + [op]) == if op.act.Refill? then op.now else LastRefill(t0, ops)
    ensures Ticking(r, t0, ops + [op]) <==> Ticking(r, t0, ops) && op.now - LastRefill(t0, ops) <= r
  {
    assert (ops + [op])[..|ops|] == ops;
  }

  lemma {:induction false} TickingAppend(r: int, t0: int, a: seq<Stamped<Op>>, b: seq<Stamped<Op>>)
    requires Ticking(r, t0, a) && Ticking(r, LastRefill(t0, a), b)
    ensures Ticking(r, t0, a + b) && LastRefill(t0, a + b) == LastRefill(LastRefill(t0, a), b)
  {
    if b == [] {
      assert a + b == a;
    } else {
      var init := b[..|b| - 1];
      TickingAppend(r, t0, a, init);
      assert (a + b)[..|a + b| - 1] == a + init;
    }
  }

  /** By the time cleanup may find a bucket too old, refillAll has renewed it. */
  ghost predicate CleanupIsIdle(cfg: Config, r: int) {
    Accrued(cfg.fillRate, cfg.cleanupInterval + 1 - r) >= 1.0
  }

  /** The last refillAll left less than a whole token to be added. */
  ghost predicate RefilledAt(cfg: Config, e: Option<Bucket>, last: int) {
    e.Some? ==> Accrued(cfg.fillRate, last - e.value.lastUpdate) < 1.0
  }

  lemma StepRefilled(cfg: Config, e: Option<Bucket>, op: Stamped<Op>, last: int)
    requires Sane(cfg) && last <= op.now && RefilledAt(cfg, e, last)
    ensures RefilledAt(cfg, Step(cfg, e, op), if op.act.Refill? then op.now else last)
  {
    AccruedPositive(cfg.fillRate, 0);
    AccruedPositive(cfg.fillRate, last - op.now);
  }

  lemma {:induction false} LastRefillIsPast(t0: int, ops: seq<Stamped<Op>>)
    requires Timed(t0, ops)
    ensures LastRefill(t0, ops) <= End(t0, ops)
  {
    if ops == [] {
    } else {
      LastRefillIsPast(t0, ops[..|ops| - 1]);
    }
  }

  lemma {:induction false} RunRefilled(cfg: Config, t0: int, ops: seq<Stamped<Op>>)
    requires Sane(cfg) && Timed(t0, ops)
    ensures RefilledAt(cfg, State(cfg, None, ops), LastRefill(t0, ops))
  {
    if ops == [] {
    } else {
      var init := ops[..|ops| - 1];
      RunRefilled(cfg, t0, init);
      LastRefillIsPast(t0, init);
      StepRefilled(cfg, State(cfg, None, init), ops[|ops| - 1], LastRefill(t0, init));
    }
  }

  lemma RefilledIsKept(cfg: Config, e: Option<Bucket>, op: Stamped<Op>, last: int, r: int)
    requires Sane(cfg) && CleanupIsIdle(cfg, r) && RefilledAt(cfg, e, last) && op.now - last <= r
    ensures !Drops(cfg, e, op)
  {
    if e.Some? && op.now - e.value.lastUpdate > cfg.cleanupInterval {
      AccruedMonotone(cfg.fillRate, cfg.cleanupInterval + 1 - r, last - e.value.lastUpdate);
    }
  }

  lemma {:induction false} IdleCleanupDropsNothing(cfg: Config, r: int, t0: int, ops: seq<Stamped<Op>>)
    requires Sane(cfg) && CleanupIsIdle(cfg, r) && Timed(t0, ops) && Ticking(r, t0, ops)
    ensures NeverDrops(cfg, None, ops)
  {
    if ops == [] {
    } else {
      var init := ops[..|ops| - 1];
      IdleCleanupDropsNothing(cfg, r, t0, init);
      RunRefilled(cfg, t0, init);
      RefilledIsKept(cfg, State(cfg, None, init), ops[|ops| - 1], LastRefill(t0, init), r);
    }
  }

  // ----- schedules of bursts and refills -----

  /** n Takes at the same instant. */
  function Burst(n: nat, t: int): seq<Stamped<Op>> {
    Repeated(Stamped(t, Take), n)
  }

  /** The bucket a Take finds while less than a whole token has accrued. */
  function Held(cfg: Config, e: Option<Bucket>, t: int): Bucket {
    if e.Some? then e.value else Bucket(cfg.capacity, t)
  }

  lemma TakeSpends(cfg: Config, e: Option<Bucket>, t: int)
    requires Held(cfg, e, t).tokens > 0 && Accrued(cfg.fillRate, t - Held(cfg, e, t).lastUpdate) < 1.0
    ensures Grants(cfg, e, Stamped(t, Take))
    ensures var b := Held(cfg, e, t);
      Step(cfg, e, Stamped(t, Take)) == Some(b.(tokens := b.tokens - 1))
  {
  }

  /** The bucket that n Takes leave. */
  function Spent(cfg: Config, e: Option<Bucket>, n: nat, t: int): Option<Bucket> {
    var b := Held(cfg, e, t);
    if n == 0 then e else Some(b.(tokens := b.tokens - n))
  }

  lemma NextTakeSpends(cfg: Config, e: Option<Bucket>, n: nat, t: int)
    requires n < Held(cfg, e, t).tokens && Accrued(cfg.fillRate, t - Held(cfg, e, t).lastUpdate) < 1.0
    ensures Grants(cfg, Spent(cfg, e, n, t), Stamped(t, Take))
    ensures Step(cfg, Spent(cfg, e, n, t), Stamped(t, Take)) == Spent(cfg, e, n + 1, t)
  {
    TakeSpends(cfg, Spent(cfg, e, n, t), t);
  }

  /** A burst takes one token each and leaves the rest. */
  lemma BurstSpends(cfg: Config, e: Option<Bucket>, n: nat, t: int)
    requires n <= Held(cfg, e, t).tokens && Accrued(cfg.fillRate, t - Held(cfg, e, t).lastUpdate) < 1.0
    ensures State(cfg, e, Burst(n, t)) == Spent(cfg, e, n, t)
    ensures |GrantTimes(cfg, e, Burst(n, t))| == n
  {
    var state := (i: nat) => Spent(cfg, e, i, t);
    forall i: nat | i < n
      ensures Advances(Stepper(cfg), Granter(cfg), state, Stamped(t, Take), i)
    {
      NextTakeSpends(cfg, e, i, t);
    }
    RepeatedRuns(Stepper(cfg), Granter(cfg), state, Stamped(t, Take), n);
  }

  lemma {:induction false} BurstTicks(r: int, last: int, n: nat, t: int)
    requires last <= t <= last + r
    ensures Ticking(r, last, Burst(n, t)) && LastRefill(last, Burst(n, t)) == last
  {
    if n == 0 {
    } else {
      BurstTicks(r, last, n - 1, t);
      TickingOneMore(r, last, Burst(n - 1, t), Stamped(t, Take));
    }
  }

  /** The ticks after from that lead to one at time until, r apart. */
  function Refills(r: int, from: int, until: int): seq<Stamped<Op>>
    requires r > 0
    decreases until - from
  {
    if until <= from then [] else Refills(r, from, until - r) + [Stamped(until, Refill)]
  }

  lemma {:induction false} RefillsTick(r: int, from: int, until: int)
    requires r > 0 && from <= until
    ensures Timed(from, Refills(r, from, until)) && End(from, Refills(r, from, until)) == until
    ensures Ticking(r, from, Refills(r, from, until)) && LastRefill(from, Refills(r, from, until)) == until
    decreases until - from
  {
    if until <= from {
    } else {
      var before := Refills(r, from, until - r);
      if until - r > from {
        RefillsTick(r, from, until - r);
      }
      TimedOneMore(from, before, Stamped(until, Refill));
      TickingOneMore(r, from, before, Stamped(until, Refill));
    }
  }

  lemma RefillIdle(cfg: Config, b: Bucket, t: int)
    requires Accrued(cfg.fillRate, t - b.lastUpdate) < 1.0
    ensures Step(cfg, Some(b), Stamped(t, Refill)) == Some(b)
  {
  }

  /** Ticks before a whole token has accrued change nothing. */
  lemma {:induction false} RefillsIdle(cfg: Config, b: Bucket, r: int, from: int, until: int)
    requires Sane(cfg) && r > 0 && Accrued(cfg.fillRate, until - b.lastUpdate) < 1.0
    ensures State(cfg, Some(b), Refills(r, from, until)) == Some(b)
    ensures GrantTimes(cfg, Some(b), Refills(r, from, until)) == []
    decreases until - from
  {
    if until <= from {
    } else {
      AccruedMonotone(cfg.fillRate, until - r - b.lastUpdate, until - b.lastUpdate);
      RefillsIdle(cfg, b, r, from, until - r);
      RefillIdle(cfg, b, until);
      OneMore(Stepper(cfg), Granter(cfg), Some(b), Refills(r, from, until - r), Stamped(until, Refill));
    }
  }

  /** What a part of a schedule does, whatever came before it. */
  ghost predicate Leads(cfg: Config, e: Option<Bucket>, from: int, ops: seq<Stamped<Op>>,
                        e': Option<Bucket>, to: int, grants: nat) {
    && Timed(from, ops) && End(from, ops) == to
    && State(cfg, e, ops) == e'
    && |GrantTimes(cfg, e, ops)| == grants
  }

  lemma LeadsOn(cfg: Config, e: Option<Bucket>, from: int, a: seq<Stamped<Op>>, e1: Option<Bucket>, t1: int, m: nat,
                t2: int, b: seq<Stamped<Op>>, e2: Option<Bucket>, to: int, n: nat)
    requires Leads(cfg, e, from, a, e1, t1, m) && t1 <= t2 && Leads(cfg, e1, t2, b, e2, to, n)
    requires b != [] || t1 == t2
    ensures Leads(cfg, e, from, a + b, e2, to, m + n)
  {
    RunAppend(Stepper(cfg), e, a, b);
    TimesAppend(Stepper(cfg), Granter(cfg), e, a, b);
    TimedLater(t1, t2, b);
    TimedAppend(from, a, b);
  }

  lemma LeadsOne(cfg: Config, e: Option<Bucket>, op: Stamped<Op>)
    ensures Leads(cfg, e, op.now, [op], Step(cfg, e, op), op.now, if Grants(cfg, e, op) then 1 else 0)
  {
    assert [] + [op] == [op];
    OneMore(Stepper(cfg), Granter(cfg), e, [], op);
    TimedOneMore(op.now, [], op);
  }

  lemma BurstLeads(cfg: Config, e: Option<Bucket>, n: nat, t: int)
    requires 0 < n <= Held(cfg, e, t).tokens && Accrued(cfg.fillRate, t - Held(cfg, e, t).lastUpdate) < 1.0
    ensures var b := Held(cfg, e, t);
      Leads(cfg, e, t, Burst(n, t), Some(b.(tokens := b.tokens - n)), t, n)
  {
    BurstSpends(cfg, e, n, t);
    RepeatedIsTimed(Stamped(t, Take), n);
  }

  lemma RefillsLead(cfg: Config, b: Bucket, r: int, from: int, to: int)
    requires Sane(cfg) && r > 0 && from <= to && Accrued(cfg.fillRate, to - b.lastUpdate) < 1.0
    ensures Leads(cfg, Some(b), from, Refills(r, from, to), Some(b), to, 0)
  {
    RefillsIdle(cfg, b, r, from, to);
    RefillsTick(r, from, to);
  }

  // ----- exactly when the burst is limited -----

  /** The rate limit as intended: a key gets its burst plus what accrues, from its first use on,
      while refillAll comes at most r after the one before. */
  ghost predicate RateLimitedWhileTicking(cfg: Config, r: int) {
    forall t0: int, ops: seq<Stamped<Op>> :: Timed(t0, ops) && Ticking(r, t0, ops) ==>
      |GrantTimes(cfg, None, ops)| as real <= cfg.capacity as real + Accrued(cfg.fillRate, End(t0, ops) - t0)
  }

  /** ... and however late it comes. */
  ghost predicate RateLimited(cfg: Config) {
    forall t0: int, ops: seq<Stamped<Op>> :: Timed(t0, ops) ==>
      |GrantTimes(cfg, None, ops)| as real <= cfg.capacity as real + Accrued(cfg.fillRate, End(t0, ops) - t0)
  }

  /** The last tick before the first reading at which a bucket of time 0 may be swept. */
  function LastTick(cfg: Config, r: int): int {
    if cfg.cleanupInterval + 1 < r then 0 else cfg.cleanupInterval + 1 - r
  }

  /** A full burst at time 0 and the ticks up to the sweep. */
  function DrainAndTick(cfg: Config, r: int): seq<Stamped<Op>>
    requires Sane(cfg) && r > 0
  {
    Burst(cfg.capacity, 0) + Refills(r, 0, LastTick(cfg, r))
  }

  /** ... and then the sweep. */
  function DrainAndSweep(cfg: Config, r: int): seq<Stamped<Op>>
    requires Sane(cfg) && r > 0
  {
    DrainAndTick(cfg, r) + [Stamped(cfg.cleanupInterval + 1, Clean)]
  }

  lemma TicksAreIdle(cfg: Config, r: int)
    requires Sane(cfg) && r > 0 && !CleanupIsIdle(cfg, r)
    ensures Accrued(cfg.fillRate, LastTick(cfg, r)) < 1.0
  {
    AccruedPositive(cfg.fillRate, 0);
  }

  lemma DrainAndTickLeads(cfg: Config, r: int)
    requires Sane(cfg) && r > 0 && !CleanupIsIdle(cfg, r)
    ensures Leads(cfg, None, 0, DrainAndTick(cfg, r), Some(Bucket(0, 0)), LastTick(cfg, r), cfg.capacity)
    ensures Ticking(r, 0, DrainAndTick(cfg, r)) && LastRefill(0, DrainAndTick(cfg, r)) == LastTick(cfg, r)
  {
    var c, last, drained := cfg.capacity, LastTick(cfg, r), Bucket(0, 0);
    TicksAreIdle(cfg, r);
    AccruedPositive(cfg.fillRate, 0);
    BurstLeads(cfg, None, c, 0);
    RefillsLead(cfg, drained, r, 0, last);
    LeadsOn(cfg, None, 0, Burst(c, 0), Some(drained), 0, c, 0, Refills(r, 0, last), Some(drained), last, 0);
    BurstTicks(r, 0, c, 0);
    RefillsTick(r, 0, last);
    TickingAppend(r, 0, Burst(c, 0), Refills(r, 0, last));
  }

  lemma DrainedEntryIsDropped(cfg: Config, r: int)
    requires Sane(cfg) && r > 0 && !CleanupIsIdle(cfg, r)
    ensures Leads(cfg, None, 0, DrainAndSweep(cfg, r), None, cfg.cleanupInterval + 1, cfg.capacity)
    ensures Ticking(r, 0, DrainAndSweep(cfg, r)) && LastRefill(0, DrainAndSweep(cfg, r)) == LastTick(cfg, r)
    ensures !NeverDrops(cfg, None, DrainAndSweep(cfg, r))
  {
    var c, last, sweep := cfg.capacity, LastTick(cfg, r), Stamped(cfg.cleanupInterval + 1, Clean);
    var before, drained := DrainAndTick(cfg, r), Some(Bucket(0, 0));
    DrainAndTickLeads(cfg, r);
    LeadsOne(cfg, drained, sweep);
    LeadsOn(cfg, None, 0, before, drained, last, c, sweep.now, [sweep], None, sweep.now, 0);
    TickingOneMore(r, 0, before, sweep);
    assert (before + [sweep])[..|before|] == before;
  }

  /** When cleanup is neither harmless nor idle: drain the bucket, let it be swept, drain the new
      one; the ticks in between, r apart, change nothing. */
  lemma CleanupDoublesBurst(cfg: Config, r: int)
    requires Sane(cfg) && r > 0 && !CleanupIsHarmless(cfg) && !CleanupIsIdle(cfg, r)
    ensures !RateLimitedWhileTicking(cfg, r)
  {
    var c, t := cfg.capacity, cfg.cleanupInterval + 1;
    var first, second := DrainAndSweep(cfg, r), Burst(c, t);
    DrainedEntryIsDropped(cfg, r);
    AccruedPositive(cfg.fillRate, 0);
    BurstLeads(cfg, None, c, t);
    LeadsOn(cfg, None, 0, first, None, t, c, t, second, Some(Bucket(0, t)), t, c);
    BurstTicks(r, LastTick(cfg, r), c, t);
    TickingAppend(r, 0, first, second);
    var ops := first + second;
    assert Timed(0, ops) && Ticking(r, 0, ops) && |GrantTimes(cfg, None, ops)| == 2 * c;
  }

  /** Exactly when the rate limit holds on every run of Take, GetTokens, refillAll and cleanup in
      which refillAll comes at most r after the one before. */
  lemma RateLimitedWhileTickingExactly(cfg: Config, r: int)
    requires Sane(cfg) && r > 0
    ensures RateLimitedWhileTicking(cfg, r) <==> CleanupIsHarmless(cfg) || CleanupIsIdle(cfg, r)
  {
    if CleanupIsHarmless(cfg) || CleanupIsIdle(cfg, r) {
      forall t0: int, ops: seq<Stamped<Op>> | Timed(t0, ops) && Ticking(r, t0, ops)
        ensures |GrantTimes(cfg, None, ops)| as real <= cfg.capacity as real + Accrued(cfg.fillRate, End(t0, ops) - t0)
      {
        SlackIsFraction(cfg.fillRate);
        if !CleanupIsHarmless(cfg) {
          IdleCleanupDropsNothing(cfg, r, t0, ops);
        }
        GrantBound(cfg, None, t0, cfg.capacity as real, ops);
      }
    } else {
      CleanupDoublesBurst(cfg, r);
    }
  }

  /** Exactly when it holds however late the ticks come. */
  lemma RateLimitedExactly(cfg: Config)
    requires Sane(cfg)
    ensures RateLimited(cfg) <==> CleanupIsHarmless(cfg)
  {
    if CleanupIsHarmless(cfg) {
      forall t0: int, ops: seq<Stamped<Op>> | Timed(t0, ops)
        ensures |GrantTimes(cfg, None, ops)| as real <= cfg.capacity as real + Accrued(cfg.fillRate, End(t0, ops) - t0)
      {
        SlackIsFraction(cfg.fillRate);
        GrantBound(cfg, None, t0, cfg.capacity as real, ops);
      }
    } else if RateLimited(cfg) {
      AccruedPositive(cfg.fillRate, 0);
      RateLimitedWhileTickingExactly(cfg, cfg.cleanupInterval + 1);
    }
  }

  /** No run with such ticks has a sweep that deletes a bucket. */
  ghost predicate CleanupDropsNothing(cfg: Config, r: int) {
    forall t0: int, ops: seq<Stamped<Op>> :: Timed(t0, ops) && Ticking(r, t0, ops) ==> NeverDrops(cfg, None, ops)
  }

  /** Exactly when cleanup never deletes anything. */
  lemma CleanupIsIdleExactly(cfg: Config, r: int)
    requires Sane(cfg) && r > 0
    ensures CleanupDropsNothing(cfg, r) <==> CleanupIsIdle(cfg, r)
  {
    if CleanupIsIdle(cfg, r) {
      forall t0: int, ops: seq<Stamped<Op>> | Timed(t0, ops) && Ticking(r, t0, ops)
        ensures NeverDrops(cfg, None, ops)
      {
        IdleCleanupDropsNothing(cfg, r, t0, ops);
      }
    } else {
      DrainedEntryIsDropped(cfg, r);
      assert Timed(0, DrainAndSweep(cfg, r)) && Ticking(r, 0, DrainAndSweep(cfg, r));
    }
  }

  /** The server's own settings (capacity 100, 10 tokens a second, sweep after five minutes)
      satisfy the condition, */
  lemma DefaultConfigIsRateLimited()
    ensures RateLimited(Config(100, 10.0, 300_000_000_000))
  {
    RateLimitedExactly(Config(100, 10.0, 300_000_000_000));
  }

  /** ... and their cleanup never deletes a bucket, even if the ticks of refillAll, meant to come
      every second, are up to 299.9 seconds apart. */
  lemma DefaultCleanupDropsNothing(r: int)
    requires 0 < r
    ensures CleanupDropsNothing(Config(100, 10.0, 300_000_000_000), r) <==> r <= 299_900_000_001
  {
    var cfg := Config(100, 10.0, 300_000_000_000);
    CleanupIsIdleExactly(cfg, r);
    var dt := 300_000_000_001 - r;
    assert Accrued(10.0, dt) == dt as real / 100_000_000.0;
  }

  // ----- exactly when every window is limited -----

  /** In every window of every run with such ticks: capacity plus accrual. */
  ghost predicate WindowLimited(cfg: Config, r: int) {
    forall start: int, past: seq<Stamped<Op>>, t0: int, ops: seq<Stamped<Op>> ::
      Timed(start, past) && End(start, past) <= t0 && Timed(t0, ops) && Ticking(r, start, past + ops) ==>
        |GrantTimes(cfg, State(cfg, None, past), ops)| as real
        <= cfg.capacity as real + Accrued(cfg.fillRate, End(t0, ops) - t0)
  }

  lemma {:induction false} NeverDropsLater(cfg: Config, e: Option<Bucket>, a: seq<Stamped<Op>>, b: seq<Stamped<Op>>)
    requires NeverDrops(cfg, e, a + b)
    ensures NeverDrops(cfg, State(cfg, e, a), b)
  {
    if b == [] {
    } else {
      var init := b[..|b| - 1];
      assert (a + b)[..|a + b| - 1] == a + init;
      NeverDropsLater(cfg, e, a, init);
      RunAppend(Stepper(cfg), e, a, init);
    }
  }

  lemma WindowSweepsAreHarmless(cfg: Config, r: int, start: int, past: seq<Stamped<Op>>, t0: int, ops: seq<Stamped<Op>>)
    requires Sane(cfg) && (CleanupIsHarmless(cfg) || CleanupIsIdle(cfg, r))
    requires Timed(start, past) && End(start, past) <= t0 && Timed(t0, ops) && Ticking(r, start, past + ops)
    ensures SweepsAreHarmless(cfg, State(cfg, None, past), ops)
  {
    if !CleanupIsHarmless(cfg) {
      TimedLater(End(start, past), t0, ops);
      TimedAppend(start, past, ops);
      IdleCleanupDropsNothing(cfg, r, start, past + ops);
      NeverDropsLater(cfg, None, past, ops);
    }
  }

  /** At a token a nanosecond or more, no fraction is ever hidden. */
  lemma FastRateHasNoSlack(fillRate: real)
    requires fillRate >= NANOS_PER_SECOND
    ensures Slack(fillRate) == 0.0
  {
    SlackIsFraction(fillRate);
    AccruedPositive(fillRate, 0);
    var k := LastIdle(fillRate);
    assert Accrued(fillRate, 1) == fillRate / NANOS_PER_SECOND >= 1.0;
    AccruedMonotone(fillRate, 1, if k < 1 then 1 else k);
    AccruedMonotone(fillRate, if k < 1 then k else 0, 0);
  }

  lemma FastRateLimitsWindows(cfg: Config, r: int)
    requires Sane(cfg) && (CleanupIsHarmless(cfg) || CleanupIsIdle(cfg, r)) && cfg.fillRate >= NANOS_PER_SECOND
    ensures WindowLimited(cfg, r)
  {
    forall start: int, past: seq<Stamped<Op>>, t0: int, ops: seq<Stamped<Op>>
      | Timed(start, past) && End(start, past) <= t0 && Timed(t0, ops) && Ticking(r, start, past + ops)
      ensures |GrantTimes(cfg, State(cfg, None, past), ops)| as real
           <= cfg.capacity as real + Accrued(cfg.fillRate, End(t0, ops) - t0)
    {
      RunKeepsInv(cfg, None, start, past);
      WindowSweepsAreHarmless(cfg, r, start, past, t0, ops);
      FastRateHasNoSlack(cfg.fillRate);
      GrantBound(cfg, State(cfg, None, past), t0, cfg.capacity as real, ops);
    }
  }

  lemma SlowRateHides(fillRate: real)
    requires 0.0 < fillRate < NANOS_PER_SECOND
    ensures var k := LastIdle(fillRate);
      k >= 1 && Accrued(fillRate, k) < 1.0 <= Accrued(fillRate, k + 1)
    ensures Accrued(fillRate, 1) < 1.0
  {
    var k := LastIdle(fillRate);
    LastIdleIsLast(fillRate);
    assert Accrued(fillRate, 1) == fillRate / NANOS_PER_SECOND;
    if k < 1 {
      AccruedMonotone(fillRate, k + 1, 1);
    }
  }

  /** A Take at time 0, ticks r apart, one of them when the bucket has just become full again, and
      then until the next token is one nanosecond away. */
  function FullAndWaiting(cfg: Config, r: int, k: int): seq<Stamped<Op>>
    requires r > 0
  {
    [Stamped(0, Take)] + Refills(r, 0, k) + [Stamped(k + 1, Refill)] + Refills(r, k + 1, 2 * k + 1)
  }

  /** k is the longest wait that adds no token. */
  ghost predicate LongestWait(cfg: Config, k: int) {
    k >= 1 && Accrued(cfg.fillRate, k) < 1.0 <= Accrued(cfg.fillRate, k + 1)
  }

  lemma FullAndWaitingLeads(cfg: Config, r: int, k: int)
    requires Sane(cfg) && r > 0 && LongestWait(cfg, k)
    ensures Leads(cfg, None, 0, FullAndWaiting(cfg, r, k), Some(Bucket(cfg.capacity, k + 1)), 2 * k + 1, 1)
  {
    hide Run, Times, Leads;
    var c, take, fill := cfg.capacity, Stamped(0, Take), Stamped(k + 1, Refill);
    var taken, full := Some(Bucket(c - 1, 0)), Some(Bucket(c, k + 1));
    AccruedPositive(cfg.fillRate, 0);
    TakeSpends(cfg, None, 0);
    LeadsOne(cfg, None, take);
    RefillsLead(cfg, taken.value, r, 0, k);
    LeadsOn(cfg, None, 0, [take], taken, 0, 1, 0, Refills(r, 0, k), taken, k, 0);
    LeadsOne(cfg, taken, fill);
    LeadsOn(cfg, None, 0, [take] + Refills(r, 0, k), taken, k, 1, k + 1, [fill], full, k + 1, 0);
    RefillsLead(cfg, full.value, r, k + 1, 2 * k + 1);
    LeadsOn(cfg, None, 0, [take] + Refills(r, 0, k) + [fill], full, k + 1, 1,
            k + 1, Refills(r, k + 1, 2 * k + 1), full, 2 * k + 1, 0);
  }

  lemma FullAndWaitingTicks(cfg: Config, r: int, k: int)
    requires r > 0 && k >= 1
    ensures Ticking(r, 0, FullAndWaiting(cfg, r, k)) && LastRefill(0, FullAndWaiting(cfg, r, k)) == 2 * k + 1
  {
    var take, fill := Stamped(0, Take), Stamped(k + 1, Refill);
    assert [] + [take] == [take];
    TickingOneMore(r, 0, [], take);
    RefillsTick(r, 0, k);
    TickingAppend(r, 0, [take], Refills(r, 0, k));
    TickingOneMore(r, 0, [take] + Refills(r, 0, k), fill);
    RefillsTick(r, k + 1, 2 * k + 1);
    TickingAppend(r, 0, [take] + Refills(r, 0, k) + [fill], Refills(r, k + 1, 2 * k + 1));
  }

  /** The whole burst in the last nanosecond before the next token is added, and that token. */
  function BurstAndOne(cfg: Config, k: int): seq<Stamped<Op>>
    requires Sane(cfg)
  {
    Burst(cfg.capacity, 2 * k + 1) + [Stamped(2 * k + 2, Take)]
  }

  lemma BurstAndOneLeads(cfg: Config, r: int, k: int)
    requires Sane(cfg) && r > 0 && LongestWait(cfg, k)
    ensures var full, ops := Some(Bucket(cfg.capacity, k + 1)), BurstAndOne(cfg, k);
      && Timed(2 * k + 1, ops) && End(2 * k + 1, ops) == 2 * k + 2
      && |GrantTimes(cfg, full, ops)| == cfg.capacity + 1
      && Ticking(r, 2 * k + 1, ops)
  {
    var c, t, last := cfg.capacity, 2 * k + 1, Stamped(2 * k + 2, Take);
    var full, spent := Some(Bucket(c, k + 1)), Some(Bucket(0, k + 1));
    BurstLeads(cfg, full, c, t);
    assert Grants(cfg, spent, last);
    LeadsOne(cfg, spent, last);
    LeadsOn(cfg, full, t, Burst(c, t), spent, t, c, last.now, [last], Step(cfg, spent, last), last.now, 1);
    BurstTicks(r, t, c, t);
    TickingOneMore(r, t, Burst(c, t), last);
  }

  /** The extra token cannot be saved: at less than a token a nanosecond, a fraction that accrued
      before the window completes a token inside it. */
  lemma WindowNeedsOneMore(cfg: Config, r: int)
    requires Sane(cfg) && r > 0 && cfg.fillRate < NANOS_PER_SECOND
    ensures !WindowLimited(cfg, r)
  {
    var k := LastIdle(cfg.fillRate);
    SlowRateHides(cfg.fillRate);
    var past, t0, ops := FullAndWaiting(cfg, r, k), 2 * k + 1, BurstAndOne(cfg, k);
    FullAndWaitingLeads(cfg, r, k);
    FullAndWaitingTicks(cfg, r, k);
    BurstAndOneLeads(cfg, r, k);
    TickingAppend(r, 0, past, ops);
    assert Timed(0, past) && End(0, past) <= t0 && Timed(t0, ops) && Ticking(r, 0, past + ops);
    assert |GrantTimes(cfg, State(cfg, None, past), ops)| == cfg.capacity + 1;
  }

  /** Exactly when every window is limited to capacity plus accrual: when no fraction of a token can
      be hidden, at a token a nanosecond or more. */
  lemma WindowLimitedExactly(cfg: Config, r: int)
    requires Sane(cfg) && r > 0 && (CleanupIsHarmless(cfg) || CleanupIsIdle(cfg, r))
    ensures WindowLimited(cfg, r) <==> cfg.fillRate >= NANOS_PER_SECOND
  {
    if cfg.fillRate >= NANOS_PER_SECOND {
      FastRateLimitsWindows(cfg, r);
    } else {
      WindowNeedsOneMore(cfg, r);
    }
  }

  // ----- no starvation -----

  /** After a denial at time t and no grant since: the entry was swept, or holds a token,
      or is still empty and has not been touched after t. */
  ghost predicate EmptySince(e: Option<Bucket>, t: int) {
    e.Some? ==> e.value.tokens > 0 || (e.value.tokens == 0 && e.value.lastUpdate <= t)
  }

  lemma {:induction false} DenialPersistsQuietly(cfg: Config, e: Option<Bucket>, t: int, ops: seq<Stamped<Op>>)
    requires Sane(cfg) && Inv(cfg, e, t) && EmptySince(e, t)
    requires Timed(t, ops) && GrantTimes(cfg, e, ops) == []
    ensures EmptySince(State(cfg, e, ops), t)
  {
    if ops == [] {
    } else {
      var init := ops[..|ops| - 1];
      DenialPersistsQuietly(cfg, e, t, init);
      RunKeepsInv(cfg, e, t, init);
    }
  }

  /** No starvation by polling: after a denied Take, unless some Take of the key is granted in the
      meantime, a Take one token's worth of time later is granted, whatever else ran. */
  lemma NoStarvation(cfg: Config, e: Option<Bucket>, t: int, ops: seq<Stamped<Op>>, t': int)
    requires Sane(cfg) && Inv(cfg, e, t) && Timed(t, ops) && End(t, ops) <= t'
    requires !Grants(cfg, e, Stamped(t, Take))
    ensures var denied := Step(cfg, e, Stamped(t, Take));
      Accrued(cfg.fillRate, t' - t) >= 1.0 && GrantTimes(cfg, denied, ops) == []
      ==> Grants(cfg, State(cfg, denied, ops), Stamped(t', Take))
  {
    var denied := Step(cfg, e, Stamped(t, Take));
    StepKeepsInv(cfg, e, t, Stamped(t, Take));
    if GrantTimes(cfg, denied, ops) == [] {
      DenialPersistsQuietly(cfg, denied, t, ops);
      RunKeepsInv(cfg, denied, t, ops);
      var s := State(cfg, denied, ops);
      if s.Some? && s.value.tokens == 0 {
        AccruedMonotone(cfg.fillRate, t' - t, t' - s.value.lastUpdate);
      }
    }
  }

  // ----- exactly what a refill is worth -----

  /** What a bucket of k tokens, last updated at u, is good for at t: the tokens and every whole token
      accrued since, up to the capacity. */
  function Worth(cfg: Config, k: int, u: int, t: int): int {
    Min(k + ((t - u) as real / 1_000_000_000.0 * cfg.fillRate).Floor, cfg.capacity)
  }

  lemma WorthIsRefilled(cfg: Config, b: Bucket, t: int)
    requires Sane(cfg) && Inv(cfg, Some(b), t)
    ensures var r := Refilled(cfg, b, t);
      && r.tokens == Worth(cfg, b.tokens, b.lastUpdate, t) >= 0
      && Accrued(cfg.fillRate, t - r.lastUpdate) < 1.0
      && Refilled(cfg, r, t) == r
  {
    AccruedPositive(cfg.fillRate, 0);
    AccruedPositive(cfg.fillRate, t - b.lastUpdate);
  }

  /** The bucket after n Takes at t, some of which may have been refused. */
  function Drawn(cfg: Config, b: Bucket, n: nat, t: int): Bucket {
    var r := Refilled(cfg, b, t);
    if n == 0 then b else r.(tokens := if n < r.tokens then r.tokens - n else 0)
  }

  lemma DrawOne(cfg: Config, b: Bucket, n: nat, t: int)
    requires Sane(cfg) && Inv(cfg, Some(b), t)
    ensures Step(cfg, Some(Drawn(cfg, b, n, t)), Stamped(t, Take)) == Some(Drawn(cfg, b, n + 1, t))
    ensures Grants(cfg, Some(Drawn(cfg, b, n, t)), Stamped(t, Take)) <==> n < Refilled(cfg, b, t).tokens
  {
    WorthIsRefilled(cfg, b, t);
  }

  lemma DrawNone(cfg: Config, b: Bucket, t: int)
    requires Sane(cfg) && Inv(cfg, Some(b), t)
    ensures Drawn(cfg, b, 0, t) == b && Refilled(cfg, b, t).tokens >= 0
  {
    WorthIsRefilled(cfg, b, t);
  }

  lemma {:induction false} BurstDraws(cfg: Config, b: Bucket, n: nat, t: int)
    requires Sane(cfg) && Inv(cfg, Some(b), t)
    ensures State(cfg, Some(b), Burst(n, t)) == Some(Drawn(cfg, b, n, t))
    ensures |GrantTimes(cfg, Some(b), Burst(n, t))| == Min(n, Refilled(cfg, b, t).tokens)
  {
    hide Refilled, Grants, Step, Drawn;
    if n == 0 {
      DrawNone(cfg, b, t);
    } else {
      BurstDraws(cfg, b, n - 1, t);
      DrawOne(cfg, b, n - 1, t);
      OneMore(Stepper(cfg), Granter(cfg), Some(b), Burst(n - 1, t), Stamped(t, Take));
    }
  }

  /** Exactly how many of n Takes at the same instant are granted, on every reachable bucket: as many
      as it has tokens, counting every whole token accrued since its last update, up to capacity. */
  lemma BurstGrantsExactly(cfg: Config, b: Bucket, n: nat, t: int)
    requires Sane(cfg) && Inv(cfg, Some(b), t)
    ensures |GrantTimes(cfg, Some(b), Burst(n, t))| == Min(n, Worth(cfg, b.tokens, b.lastUpdate, t))
  {
    BurstDraws(cfg, b, n, t);
    WorthIsRefilled(cfg, b, t);
  }

  /** What a Take finds at t: the whole capacity on a first use, otherwise what the bucket is worth. */
  function Available(cfg: Config, e: Option<Bucket>, t: int): int {
    if e.None? then cfg.capacity else Worth(cfg, e.value.tokens, e.value.lastUpdate, t)
  }

  lemma TakeIsGrantedExactly(cfg: Config, e: Option<Bucket>, t: int)
    requires Sane(cfg) && Inv(cfg, e, t)
    ensures Grants(cfg, e, Stamped(t, Take)) <==> Available(cfg, e, t) >= 1
  {
    AccruedPositive(cfg.fillRate, 0);
    if e.Some? {
      WorthIsRefilled(cfg, e.value, t);
    }
  }

  lemma {:induction false} NoneIsFull(cfg: Config, n: nat, t: int)
    requires Sane(cfg)
    ensures GrantTimes(cfg, None, Burst(n, t)) == GrantTimes(cfg, Some(Bucket(cfg.capacity, t)), Burst(n, t))
    ensures n > 0 ==> State(cfg, None, Burst(n, t)) == State(cfg, Some(Bucket(cfg.capacity, t)), Burst(n, t))
  {
    if n == 0 {
    } else {
      var full := Some(Bucket(cfg.capacity, t));
      NoneIsFull(cfg, n - 1, t);
      OneMore(Stepper(cfg), Granter(cfg), None, Burst(n - 1, t), Stamped(t, Take));
      OneMore(Stepper(cfg), Granter(cfg), full, Burst(n - 1, t), Stamped(t, Take));
    }
  }

  /** A first use finds the whole capacity. */
  lemma FirstBurstGrantsExactly(cfg: Config, n: nat, t: int)
    requires Sane(cfg)
    ensures |GrantTimes(cfg, None, Burst(n, t))| == Min(n, cfg.capacity)
  {
    AccruedPositive(cfg.fillRate, 0);
    var full := Bucket(cfg.capacity, t);
    BurstDraws(cfg, full, n, t);
    NoneIsFull(cfg, n, t);
  }

  /** On every reachable entry. */
  lemma BurstGrantsAvailable(cfg: Config, e: Option<Bucket>, n: nat, t: int)
    requires Sane(cfg) && Inv(cfg, e, t)
    ensures |GrantTimes(cfg, e, Burst(n, t))| == Min(n, Available(cfg, e, t))
  {
    if e.None? {
      FirstBurstGrantsExactly(cfg, n, t);
    } else {
      BurstGrantsExactly(cfg, e.value, n, t);
    }
  }

  /** A refill of b at t to r leaves b alone until a whole token has accrued, and then adds all that
      accrued but less than one token, unless the capacity is reached. */
  ghost predicate LosesLessThanOne(cfg: Config, b: Bucket, t: int, r: Bucket) {
    var accrued := (t - b.lastUpdate) as real / 1_000_000_000.0 * cfg.fillRate;
    if accrued < 1.0 then r == b
    else
      && r.lastUpdate == t && r.tokens <= cfg.capacity
      && r.tokens as real <= b.tokens as real + accrued
      && (r.tokens < cfg.capacity ==> b.tokens as real + accrued - 1.0 < r.tokens as real)
  }

  lemma RefillLaw(cfg: Config, b: Bucket, t: int)
    requires Sane(cfg) && Inv(cfg, Some(b), t)
    ensures LosesLessThanOne(cfg, b, t, Refilled(cfg, b, t))
  {
    var accrued := Accrued(cfg.fillRate, t - b.lastUpdate);
    assert accrued == (t - b.lastUpdate) as real / 1_000_000_000.0 * cfg.fillRate;
    AccruedPositive(cfg.fillRate, t - b.lastUpdate);
    assert Truncate(accrued) as real <= accrued < Truncate(accrued) as real + 1.0;
    assert (b.tokens + Truncate(accrued)) as real == b.tokens as real + Truncate(accrued) as real;
  }

  /** Between requests, after any run: refillAll and GetTokens lose less than one token. */
  lemma RefillLosesLessThanOne(cfg: Config, start: int, past: seq<Stamped<Op>>, op: Stamped<Op>)
    requires Sane(cfg) && Timed(start, past) && End(start, past) <= op.now && (op.act.Refill? || op.act.Peek?)
    requires State(cfg, None, past).Some?
    ensures var later := State(cfg, None, past + [op]);
      later.Some? && LosesLessThanOne(cfg, State(cfg, None, past).value, op.now, later.value)
  {
    hide LosesLessThanOne, Run;
    var b := State(cfg, None, past).value;
    RunKeepsInv(cfg, None, start, past);
    OneMore(Stepper(cfg), Granter(cfg), None, past, op);
    RefillLaw(cfg, b, op.now);
    assert State(cfg, None, past + [op]) == Some(Refilled(cfg, b, op.now));
  }

  /** A Take is a refill that spends a token if there is one. */
  lemma TakeRefillsAndSpends(cfg: Config, b: Bucket, t: int)
    ensures var taken, refilled := Step(cfg, Some(b), Stamped(t, Take)), Step(cfg, Some(b), Stamped(t, Refill));
      && taken.Some? && refilled.Some? && taken.value.lastUpdate == refilled.value.lastUpdate
      && (Grants(cfg, Some(b), Stamped(t, Take)) <==> refilled.value.tokens > 0)
      && refilled.value.tokens
         == taken.value.tokens + if Grants(cfg, Some(b), Stamped(t, Take)) then 1 else 0
  {
  }

  // ----- guaranteed service -----

  lemma HalfSurvivesRounding(x: real)
    requires x >= 1.0
    ensures x.Floor as real >= x / 2.0
  {
  }

  lemma AccruedHalf(fillRate: real, dt: int)
    ensures Accrued(fillRate / 2.0, dt) == Accrued(fillRate, dt) / 2.0
  {
    var x := dt as real / NANOS_PER_SECOND;
    assert x * (fillRate / 2.0) == (x * fillRate) / 2.0;
  }

  /** Entry content measured at half the fill rate. */
  ghost function HalfCredit(cfg: Config, e: Option<Bucket>, now: int): real {
    if e.None? then cfg.capacity as real
    else e.value.tokens as real + Accrued(cfg.fillRate, now - e.value.lastUpdate) / 2.0
  }

  /** A refill loses at most half of what accrued, except at the cap. */
  lemma RefillKeepsHalf(cfg: Config, b: Bucket, now: int)
    requires Sane(cfg) && Inv(cfg, Some(b), now)
    ensures var r := Refilled(cfg, b, now);
      && (r.tokens == cfg.capacity || HalfCredit(cfg, Some(r), now) >= HalfCredit(cfg, Some(b), now))
      && HalfCredit(cfg, Some(r), now) >= r.tokens as real
      && (r.tokens == 0 ==> HalfCredit(cfg, Some(r), now) < 1.0)
  {
    var x := Accrued(cfg.fillRate, now - b.lastUpdate);
    AccruedPositive(cfg.fillRate, now - b.lastUpdate);
    AccruedPositive(cfg.fillRate, 0);
    if x >= 1.0 {
      HalfSurvivesRounding(x);
    }
  }

  /** The code has handed out at least as much as the half-rate ideal bucket, and what it still
      holds makes up for any lead it does not have. */
  ghost predicate KeepsUp(cfg: Config, e: Option<Bucket>, now: int, l: Level, granted: nat, offered: nat) {
    && granted >= offered
    && granted as real + HalfCredit(cfg, e, now)
       >= offered as real + LevelAt(cfg.capacity as real, cfg.fillRate / 2.0, l, now)
  }

  lemma StepKeepsUp(cfg: Config, e: Option<Bucket>, op: Stamped<Op>, l: Level, granted: nat, offered: nat)
    requires Sane(cfg) && Inv(cfg, e, op.now) && l.at <= op.now && KeepsUp(cfg, e, op.now, l, granted, offered)
    ensures var level := LevelAt(cfg.capacity as real, cfg.fillRate / 2.0, l, op.now);
      var serves := op.act.Take? && level >= 1.0;
      KeepsUp(cfg, Step(cfg, e, op), op.now, if serves then Level(level - 1.0, op.now) else l,
              if Grants(cfg, e, op) then granted + 1 else granted, if serves then offered + 1 else offered)
  {
    AccruedPositive(cfg.fillRate, 0);
    AccruedPositive(cfg.fillRate / 2.0, 0);
    var b := if e.Some? then e.value else Bucket(cfg.capacity, op.now);
    RefillKeepsHalf(cfg, b, op.now);
  }

  lemma WaitingKeepsUp(cfg: Config, e: Option<Bucket>, t: int, u: int, l: Level, granted: nat, offered: nat)
    requires Sane(cfg) && t <= u && KeepsUp(cfg, e, t, l, granted, offered)
    ensures KeepsUp(cfg, e, u, l, granted, offered)
  {
    AccruedAdd(cfg.fillRate / 2.0, t - l.at, u - t);
    AccruedPositive(cfg.fillRate / 2.0, u - t);
    AccruedHalf(cfg.fillRate, u - t);
    if e.Some? {
      AccruedAdd(cfg.fillRate, t - e.value.lastUpdate, u - t);
    }
  }

  /** Guaranteed service: on every run the code hands out at least as many tokens as an ideal
      bucket of the same capacity and half the fill rate would, offered the same Takes. */
  lemma {:induction false} HalfRateGuaranteed(cfg: Config, t0: int, ops: seq<Stamped<Op>>)
    requires Sane(cfg) && Timed(t0, ops)
    ensures var (l, offered) := Offer(cfg.capacity as real, cfg.fillRate / 2.0, Level(cfg.capacity as real, t0), ops);
      var granted := |GrantTimes(cfg, None, ops)|;
      && granted >= offered
      && l.at <= End(t0, ops) && KeepsUp(cfg, State(cfg, None, ops), End(t0, ops), l, granted, offered)
  {
    if ops == [] {
      AccruedPositive(cfg.fillRate / 2.0, 0);
    } else {
      var init, op := ops[..|ops| - 1], ops[|ops| - 1];
      HalfRateGuaranteed(cfg, t0, init);
      RunKeepsInv(cfg, None, t0, init);
      var s, granted := State(cfg, None, init), |GrantTimes(cfg, None, init)|;
      var (l, offered) := Offer(cfg.capacity as real, cfg.fillRate / 2.0, Level(cfg.capacity as real, t0), init);
      WaitingKeepsUp(cfg, s, End(t0, init), op.now, l, granted, offered);
      StepKeepsUp(cfg, s, op, l, granted, offered);
    }
  }
}
