/** The per-IP window limiter with its block latch, as a step function. */
module RateLimiterModel {
  import opened Keyed

  /** ttl in nanoseconds.  The source's rate field is never read. */
  datatype Config = Config(burst: int, ttl: int)

  datatype Bucket = Bucket(tokens: int, lastReset: int, blocked: bool, attempts: int)

  /** Ask is AllowConnection, Clean the periodic cleanup. */
  datatype Op = Ask | Clean

  const MINUTE := 60_000_000_000

  ghost predicate Sane(cfg: Config) {
    cfg.burst >= 0 && cfg.ttl >= 0
  }

  /** The bucket AllowConnection decides on: found or new; refilled once its minute is over,
      unless it is blocked. */
  function Current(cfg: Config, e: Option<Bucket>, now: int): Bucket {
    var b := if e.Some? then e.value else Bucket(cfg.burst, now, false, 0);
    if !b.blocked && now - b.lastReset > MINUTE then b.(tokens := cfg.burst, lastReset := now) else b
  }

  predicate Grants(cfg: Config, e: Option<Bucket>, op: Stamped<Op>) {
    op.act.Ask? && !Current(cfg, e, op.now).blocked && Current(cfg, e, op.now).tokens > 0
  }

  function Step(cfg: Config, e: Option<Bucket>, op: Stamped<Op>): Option<Bucket> {
    match op.act
    case Ask =>
      var b := Current(cfg, e, op.now);
      if b.blocked then Some(b)
      else if b.tokens > 0 then Some(b.(tokens := b.tokens - 1))
      else Some(b.(attempts := b.attempts + 1, blocked := b.attempts + 1 > cfg.burst * 2))
    case Clean => if e.Some? && op.now - e.value.lastReset > cfg.ttl then None else e
  }

  function Stepper(cfg: Config): (Option<Bucket>, Stamped<Op>) -> Option<Bucket> {
    (e, op) => Step(cfg, e, op)
  }

  function Granter(cfg: Config): (Option<Bucket>, Stamped<Op>) -> bool {
    (e, op) => Grants(cfg, e, op)
  }

  function State(cfg: Config, e: Option<Bucket>, ops: seq<Stamped<Op>>): Option<Bucket> {
    Run(Stepper(cfg), e, ops)
  }

  function GrantTimes(cfg: Config, e: Option<Bucket>, ops: seq<Stamped<Op>>): seq<int> {
    Times(Stepper(cfg), Granter(cfg), e, ops)
  }
}

/** What the window limiter guarantees over whole runs of one IP. */
module RateLimiterTheory {
  import opened Arithmetic
  import opened Keyed
  import opened RateLimiterModel

  ghost predicate Inv(cfg: Config, e: Option<Bucket>, now: int) {
    e.Some? ==>
      && 0 <= e.value.tokens <= cfg.burst && e.value.lastReset <= now
      && 0 <= e.value.attempts
      && (e.value.blocked <==> e.value.attempts > cfg.burst * 2)
      && (e.value.blocked ==> e.value.tokens == 0)
  }

  lemma {:induction false} RunKeepsInv(cfg: Config, e: Option<Bucket>, t0: int, ops: seq<Stamped<Op>>)
    requires Sane(cfg) && Inv(cfg, e, t0) && Timed(t0, ops)
    ensures Inv(cfg, State(cfg, e, ops), End(t0, ops))
  {
    if ops == [] {
    } else {
      RunKeepsInv(cfg, e, t0, ops[..|ops| - 1]);
    }
  }

  /** A new allowance begins: the minute's reset inside AllowConnection, or a sweep. */
  predicate Renews(cfg: Config, e: Option<Bucket>, op: Stamped<Op>) {
    e.Some? && match op.act
      case Ask => !e.value.blocked && op.now - e.value.lastReset > MINUTE
      case Clean => op.now - e.value.lastReset > cfg.ttl
  }

  /** The least time between two renewals. */
  function Period(cfg: Config): int {
    if cfg.ttl < MINUTE then cfg.ttl + 1 else MINUTE + 1
  }

  function Renewals(cfg: Config, e: Option<Bucket>, ops: seq<Stamped<Op>>): nat {
    if ops == [] then 0
    else
      var init, op := ops[..|ops| - 1], ops[|ops| - 1];
      Renewals(cfg, e, init) + if Renews(cfg, State(cfg, e, init), op) then 1 else 0
  }

  function Left(cfg: Config, e: Option<Bucket>): int {
    if e.Some? then e.value.tokens else cfg.burst
  }

  /** A grant uses up one of the tokens left; only a renewal brings new ones, at most burst. */
  lemma {:induction false} GrantsPerRenewal(cfg: Config, e: Option<Bucket>, t0: int, ops: seq<Stamped<Op>>)
    requires Sane(cfg) && Inv(cfg, e, t0) && Timed(t0, ops)
    ensures |GrantTimes(cfg, e, ops)| + Left(cfg, State(cfg, e, ops))
         <= Left(cfg, e) + Renewals(cfg, e, ops) * cfg.burst
  {
    if ops == [] {
    } else {
      var init := ops[..|ops| - 1];
      GrantsPerRenewal(cfg, e, t0, init);
      RunKeepsInv(cfg, e, t0, init);
      NextMultiple(Renewals(cfg, e, init), cfg.burst);
    }
  }

  /** After d renewals at least d periods have passed since base, for the clock and the entry. */
  ghost predicate Paced(cfg: Config, e: Option<Bucket>, now: int, base: int, d: int) {
    && base + d * Period(cfg) <= now
    && (e.Some? ==> base + d * Period(cfg) <= e.value.lastReset)
  }

  lemma StepPaced(cfg: Config, e: Option<Bucket>, before: int, op: Stamped<Op>, base: int, d: int)
    requires Sane(cfg) && Inv(cfg, e, before) && before <= op.now && Paced(cfg, e, before, base, d)
    ensures Paced(cfg, Step(cfg, e, op), op.now, base, d + if Renews(cfg, e, op) then 1 else 0)
  {
    NextMultiple(d, Period(cfg));
  }

  /** d renewals since t0: the first may have come at once, unless there was no entry yet; each later
      one is a full period after the one before. */
  ghost predicate RenewalsPaced(cfg: Config, unused: bool, t0: int, s: Option<Bucket>, now: int, d: int) {
    && (d > 0 ==> Paced(cfg, s, now, t0 - Period(cfg), d))
    && (unused ==> Paced(cfg, s, now, t0, d))
  }

  lemma StepRenews(cfg: Config, unused: bool, t0: int, s: Option<Bucket>, before: int, d: nat, op: Stamped<Op>)
    requires Sane(cfg) && Inv(cfg, s, before) && t0 <= before <= op.now
    requires RenewalsPaced(cfg, unused, t0, s, before, d)
    ensures RenewalsPaced(cfg, unused, t0, Step(cfg, s, op), op.now, d + if Renews(cfg, s, op) then 1 else 0)
  {
    if d > 0 {
      StepPaced(cfg, s, before, op, t0 - Period(cfg), d);
    }
    if unused {
      StepPaced(cfg, s, before, op, t0, d);
    }
  }

  lemma {:induction false} RenewalsArePaced(cfg: Config, e: Option<Bucket>, t0: int, ops: seq<Stamped<Op>>)
    requires Sane(cfg) && Inv(cfg, e, t0) && Timed(t0, ops)
    ensures RenewalsPaced(cfg, e.None?, t0, State(cfg, e, ops), End(t0, ops), Renewals(cfg, e, ops))
  {
    if ops == [] {
    } else {
      var init, op := ops[..|ops| - 1], ops[|ops| - 1];
      RenewalsArePaced(cfg, e, t0, init);
      RunKeepsInv(cfg, e, t0, init);
      TimedStart(t0, init);
      StepRenews(cfg, e.None?, t0, State(cfg, e, init), End(t0, init), Renewals(cfg, e, init), op);
    }
  }

  /** AllowConnection creates or resets a bucket and spends a token in the same locked section, so
      no run leaves a full bucket behind: what an entry holds is at most burst - 1. */
  function Spare(cfg: Config): int {
    if cfg.burst > 0 then cfg.burst - 1 else 0
  }

  lemma {:induction false} NeverLeftFull(cfg: Config, past: seq<Stamped<Op>>)
    requires Sane(cfg)
    ensures var e := State(cfg, None, past);
      e.Some? ==> 0 <= e.value.tokens <= Spare(cfg)
  {
    if past == [] {
    } else {
      NeverLeftFull(cfg, past[..|past| - 1]);
    }
  }

  lemma LaterUseBound(cfg: Config, e: Option<Bucket>, t0: int, ops: seq<Stamped<Op>>)
    requires Sane(cfg) && Inv(cfg, e, t0) && e.Some? && Timed(t0, ops)
    ensures |GrantTimes(cfg, e, ops)| <= e.value.tokens + Allowance(cfg.burst, Period(cfg), End(t0, ops) - t0)
  {
    var d, elapsed := Renewals(cfg, e, ops), End(t0, ops) - t0;
    GrantsPerRenewal(cfg, e, t0, ops);
    RenewalsArePaced(cfg, e, t0, ops);
    RunKeepsInv(cfg, e, t0, ops);
    TimedStart(t0, ops);
    if d == 0 {
      PacedSum(0, Period(cfg), elapsed, cfg.burst);
    } else {
      NextMultiple(d - 1, Period(cfg));
      NextMultiple(d - 1, cfg.burst);
      PacedSum(d - 1, Period(cfg), elapsed, cfg.burst);
    }
  }

  /** From an IP's first connection on: one burst, and one more for each full period. */
  lemma FirstUseBound(cfg: Config, t0: int, ops: seq<Stamped<Op>>)
    requires Sane(cfg) && Timed(t0, ops)
    ensures |GrantTimes(cfg, None, ops)| <= Allowance(cfg.burst, Period(cfg), End(t0, ops) - t0)
  {
    GrantsPerRenewal(cfg, None, t0, ops);
    RenewalsArePaced(cfg, None, t0, ops);
    RunKeepsInv(cfg, None, t0, ops);
    PacedSum(Renewals(cfg, None, ops), Period(cfg), End(t0, ops) - t0, cfg.burst);
  }

  /** From whatever entry a past run has left: at most one burst less one token, and one burst for
      the window and one more for each full period it lasts. */
  lemma WindowBound(cfg: Config, start: int, past: seq<Stamped<Op>>, t0: int, ops: seq<Stamped<Op>>)
    requires Sane(cfg) && Timed(start, past) && End(start, past) <= t0 && Timed(t0, ops)
    ensures |GrantTimes(cfg, State(cfg, None, past), ops)|
         <= Spare(cfg) + Allowance(cfg.burst, Period(cfg), End(t0, ops) - t0)
  {
    var e := State(cfg, None, past);
    RunKeepsInv(cfg, None, start, past);
    NeverLeftFull(cfg, past);
    if e.None? {
      FirstUseBound(cfg, t0, ops);
    } else {
      LaterUseBound(cfg, e, t0, ops);
    }
  }

  /** Provided entries live at least a minute, no minute contains twice the burst. */
  lemma AnyMinute(cfg: Config, start: int, past: seq<Stamped<Op>>, t0: int, ops: seq<Stamped<Op>>)
    requires Sane(cfg) && Timed(start, past) && End(start, past) <= t0 && Timed(t0, ops)
    requires cfg.ttl >= MINUTE && End(t0, ops) - t0 <= MINUTE
    ensures |GrantTimes(cfg, State(cfg, None, past), ops)| <= Spare(cfg) + cfg.burst
  {
    TimedStart(t0, ops);
    WindowBound(cfg, start, past, t0, ops);
    AllowanceWithin(cfg.burst, Period(cfg), End(t0, ops) - t0);
  }

  // ----- exactly what is allowed -----

  /** n connections at the same instant. */
  function Asks(n: nat, t: int): seq<Stamped<Op>> {
    Repeated(Stamped(t, Ask), n)
  }

  /** How many connections an entry has left at t: a burst when there is none yet or its minute is over,
      none while it is blocked. */
  function Allowed(cfg: Config, e: Option<Bucket>, t: int): int {
    if e.None? then cfg.burst
    else if e.value.blocked then 0
    else if t - e.value.lastReset > 60_000_000_000 then cfg.burst
    else e.value.tokens
  }

  /** When the minute that a connection at s counts in began. */
  function MinuteStart(e: Option<Bucket>, s: int): int {
    if e.None? || s - e.value.lastReset > 60_000_000_000 then s else e.value.lastReset
  }

  /** A connection is allowed exactly when one is left, and uses it up until its minute is over. */
  lemma AskLaw(cfg: Config, e: Option<Bucket>, s: int, t: int)
    requires Sane(cfg) && Inv(cfg, e, s) && s <= t
    ensures var e', granted := Step(cfg, e, Stamped(s, Ask)), Grants(cfg, e, Stamped(s, Ask));
      && (granted <==> Allowed(cfg, e, s) >= 1)
      && (granted ==> Allowed(cfg, e', t)
                      == if t - MinuteStart(e, s) > 60_000_000_000 then cfg.burst else Allowed(cfg, e, s) - 1)
  {
  }

  /** A refused connection changes nothing, unless it is one too many: then the IP is blocked. */
  lemma RefusalLaw(cfg: Config, e: Option<Bucket>, s: int, t: int)
    requires Sane(cfg) && Inv(cfg, e, s) && s <= t && !Grants(cfg, e, Stamped(s, Ask))
    ensures var e' := Step(cfg, e, Stamped(s, Ask));
      e'.Some? && Allowed(cfg, e', t) == if e'.value.blocked then 0 else Allowed(cfg, e, t)
  {
  }

  /** A sweep changes nothing, unless it finds the entry older than the TTL: then it starts afresh. */
  lemma SweepLaw(cfg: Config, e: Option<Bucket>, s: int, t: int)
    ensures Allowed(cfg, Step(cfg, e, Stamped(s, Clean)), t)
         == if e.Some? && s - e.value.lastReset > cfg.ttl then cfg.burst else Allowed(cfg, e, t)
  {
  }

  lemma AllowedIsNatural(cfg: Config, e: Option<Bucket>, t: int)
    requires Sane(cfg) && Inv(cfg, e, t)
    ensures Allowed(cfg, e, t) >= 0
  {
  }

  lemma OneAsk(cfg: Config, e: Option<Bucket>, t: int)
    requires Sane(cfg) && Inv(cfg, e, t)
    ensures var e', granted := Step(cfg, e, Stamped(t, Ask)), Grants(cfg, e, Stamped(t, Ask));
      && Inv(cfg, e', t) && (granted <==> Allowed(cfg, e, t) >= 1)
      && Allowed(cfg, e', t) == Allowed(cfg, e, t) - if granted then 1 else 0
  {
  }

  /** Exactly how many of n connections at the same instant are allowed, on every reachable entry. */
  lemma {:induction false} AsksGrantExactly(cfg: Config, e: Option<Bucket>, n: nat, t: int)
    requires Sane(cfg) && Inv(cfg, e, t)
    ensures |GrantTimes(cfg, e, Asks(n, t))| == Min(n, Allowed(cfg, e, t))
    ensures Inv(cfg, State(cfg, e, Asks(n, t)), t)
    ensures Allowed(cfg, State(cfg, e, Asks(n, t)), t) == Allowed(cfg, e, t) - Min(n, Allowed(cfg, e, t))
  {
    hide Step, Grants, Allowed, Inv;
    AllowedIsNatural(cfg, e, t);
    if n == 0 {
    } else {
      AsksGrantExactly(cfg, e, n - 1, t);
      var s := State(cfg, e, Asks(n - 1, t));
      OneAsk(cfg, s, t);
      OneMore(Stepper(cfg), Granter(cfg), e, Asks(n - 1, t), Stamped(t, Ask));
    }
  }

  /** More than a minute after its last reset an IP that is not blocked has its whole burst again and no
      more, however often it was refused. */
  lemma MinuteRestoresBurst(cfg: Config, start: int, past: seq<Stamped<Op>>, n: nat, t: int)
    requires Sane(cfg) && Timed(start, past) && End(start, past) <= t
    requires var e := State(cfg, None, past);
      e.Some? && !e.value.blocked && t - e.value.lastReset > 60_000_000_000
    ensures |GrantTimes(cfg, State(cfg, None, past), Asks(n, t))| == Min(n, cfg.burst)
  {
    RunKeepsInv(cfg, None, start, past);
    AsksGrantExactly(cfg, State(cfg, None, past), n, t);
  }

  // ----- the bound is reached -----

  lemma AskSpends(cfg: Config, b: Bucket, t: int)
    requires !b.blocked && b.tokens > 0 && t - b.lastReset <= MINUTE
    ensures Grants(cfg, Some(b), Stamped(t, Ask))
    ensures Step(cfg, Some(b), Stamped(t, Ask)) == Some(b.(tokens := b.tokens - 1))
  {
  }

  /** The buckets that the connections of one instant leave, one after the other. */
  function Trail(b: Bucket): nat -> Option<Bucket> {
    (n: nat) => Some(b.(tokens := b.tokens - n))
  }

  lemma AsksAdvance(cfg: Config, b: Bucket, n: nat, t: int)
    requires !b.blocked && n <= b.tokens && t - b.lastReset <= MINUTE
    ensures forall i: nat :: i < n ==> Advances(Stepper(cfg), Granter(cfg), Trail(b), Stamped(t, Ask), i)
  {
    forall i: nat | i < n
      ensures Advances(Stepper(cfg), Granter(cfg), Trail(b), Stamped(t, Ask), i)
    {
      AskSpends(cfg, Trail(b)(i).value, t);
    }
  }

  lemma AsksSpend(cfg: Config, b: Bucket, n: nat, t: int)
    requires !b.blocked && n <= b.tokens && t - b.lastReset <= MINUTE
    ensures |GrantTimes(cfg, Some(b), Asks(n, t))| == n
    ensures State(cfg, Some(b), Asks(n, t)) == Some(b.(tokens := b.tokens - n))
  {
    assert Trail(b)(0) == Some(b) && Trail(b)(n) == Some(b.(tokens := b.tokens - n));
    AsksAdvance(cfg, b, n, t);
    RepeatedRuns(Stepper(cfg), Granter(cfg), Trail(b), Stamped(t, Ask), n);
  }

  /** A sweep, and a whole burst right behind it. */
  function Wave(cfg: Config, t: int): seq<Stamped<Op>>
    requires cfg.burst > 0
  {
    [Stamped(t, Clean)] + [Stamped(t, Ask)] + Asks(cfg.burst - 1, t)
  }

  /** The entry a full burst at time t leaves. */
  function Spent(t: int): Bucket {
    Bucket(0, t, false, 0)
  }

  lemma WaveStarts(cfg: Config, last: int, t: int)
    requires Sane(cfg) && cfg.burst > 0 && t - last >= Period(cfg)
    ensures var first := [Stamped(t, Clean)] + [Stamped(t, Ask)];
      && State(cfg, Some(Spent(last)), first) == Some(Bucket(cfg.burst - 1, t, false, 0))
      && |GrantTimes(cfg, Some(Spent(last)), first)| == 1
  {
    var e, sweep, ask := Some(Spent(last)), Stamped(t, Clean), Stamped(t, Ask);
    assert [] + [sweep] == [sweep];
    OneMore(Stepper(cfg), Granter(cfg), e, [], sweep);
    OneMore(Stepper(cfg), Granter(cfg), e, [sweep], ask);
  }

  lemma WaveIsTimed(cfg: Config, t: int)
    requires cfg.burst > 0
    ensures Timed(t, Wave(cfg, t)) && End(t, Wave(cfg, t)) == t
  {
    var sweep, ask := Stamped(t, Clean), Stamped(t, Ask);
    assert [] + [sweep] == [sweep];
    TimedOneMore(t, [], sweep);
    TimedOneMore(t, [sweep], ask);
    RepeatedIsTimed(ask, cfg.burst - 1);
    TimedAppend(t, [sweep] + [ask], Asks(cfg.burst - 1, t));
  }

  /** A period after a burst, sweep or minute make room for a whole new one. */
  lemma WaveSpends(cfg: Config, last: int, t: int)
    requires Sane(cfg) && cfg.burst > 0 && t - last >= Period(cfg)
    ensures State(cfg, Some(Spent(last)), Wave(cfg, t)) == Some(Spent(t))
    ensures |GrantTimes(cfg, Some(Spent(last)), Wave(cfg, t))| == cfg.burst
  {
    hide Step, Grants, Run, Times;
    var e, first, others := Some(Spent(last)), [Stamped(t, Clean)] + [Stamped(t, Ask)], Asks(cfg.burst - 1, t);
    WaveStarts(cfg, last, t);
    AsksSpend(cfg, Bucket(cfg.burst - 1, t, false, 0), cfg.burst - 1, t);
    RunAppend(Stepper(cfg), e, first, others);
    TimesAppend(Stepper(cfg), Granter(cfg), e, first, others);
  }

  /** The last reading at which a first bucket, created at time 0, is still in force and after which
      the next clock reading may bring a new one. */
  function LastCall(cfg: Config): int {
    if cfg.ttl < MINUTE then Period(cfg) else Period(cfg) - 1
  }

  /** What is left of the first burst as late as possible, and then k waves, a period apart. */
  function Waves(cfg: Config, k: nat): seq<Stamped<Op>>
    requires cfg.burst > 0
  {
    if k == 0 then Asks(cfg.burst - 1, LastCall(cfg)) else Waves(cfg, k - 1) + Wave(cfg, Multiple(k, Period(cfg)))
  }

  /** The entry the very first connection leaves. */
  function Opened(cfg: Config): Option<Bucket> {
    Some(Bucket(cfg.burst - 1, 0, false, 0))
  }

  /** Time last of the latest wave, and n grants so far. */
  ghost predicate WaveArrived(cfg: Config, ops: seq<Stamped<Op>>, last: int, n: int) {
    && Timed(LastCall(cfg), ops)
    && End(LastCall(cfg), ops) == (if last == 0 then LastCall(cfg) else last)
    && State(cfg, Opened(cfg), ops) == Some(Spent(last))
    && |GrantTimes(cfg, Opened(cfg), ops)| == n
  }

  ghost predicate WavesArrived(cfg: Config, ops: seq<Stamped<Op>>, k: nat) {
    WaveArrived(cfg, ops, Multiple(k, Period(cfg)), cfg.burst - 1 + Multiple(k, cfg.burst))
  }

  lemma FirstBurstSpent(cfg: Config)
    requires Sane(cfg) && cfg.burst > 0
    ensures WaveArrived(cfg, Asks(cfg.burst - 1, LastCall(cfg)), 0, cfg.burst - 1)
  {
    AsksSpend(cfg, Opened(cfg).value, cfg.burst - 1, LastCall(cfg));
    RepeatedIsTimed(Stamped(LastCall(cfg), Ask), cfg.burst - 1);
  }

  lemma NextWave(cfg: Config, before: seq<Stamped<Op>>, last: int, n: int)
    requires Sane(cfg) && cfg.burst > 0 && last >= 0 && WaveArrived(cfg, before, last, n)
    ensures WaveArrived(cfg, before + Wave(cfg, last + Period(cfg)), last + Period(cfg), n + cfg.burst)
  {
    var t, e := last + Period(cfg), Opened(cfg);
    var wave := Wave(cfg, t);
    WaveSpends(cfg, last, t);
    WaveIsTimed(cfg, t);
    RunAppend(Stepper(cfg), e, before, wave);
    TimesAppend(Stepper(cfg), Granter(cfg), e, before, wave);
    TimedLater(End(LastCall(cfg), before), t, wave);
    TimedAppend(LastCall(cfg), before, wave);
  }

  lemma {:induction false} WavesArrive(cfg: Config, k: nat)
    requires Sane(cfg) && cfg.burst > 0
    ensures WavesArrived(cfg, Waves(cfg, k), k)
  {
    if k == 0 {
      FirstBurstSpent(cfg);
    } else {
      WavesArrive(cfg, k - 1);
      NextWave(cfg, Waves(cfg, k - 1), Multiple(k - 1, Period(cfg)), cfg.burst - 1 + Multiple(k - 1, cfg.burst));
    }
  }

  lemma FirstConnection(cfg: Config)
    requires Sane(cfg) && cfg.burst > 0
    ensures State(cfg, None, [Stamped(0, Ask)]) == Opened(cfg) && Timed(0, [Stamped(0, Ask)])
  {
    assert [] + [Stamped(0, Ask)] == [Stamped(0, Ask)];
    OneMore(Stepper(cfg), Granter(cfg), None, [], Stamped(0, Ask));
    TimedOneMore(0, [], Stamped(0, Ask));
  }

  lemma WavesTakePeriods(cfg: Config, k: nat)
    requires Sane(cfg)
    ensures var elapsed := Multiple(k + 1, Period(cfg)) - LastCall(cfg);
      elapsed / Period(cfg) == k && Allowance(cfg.burst, Period(cfg), elapsed) == Multiple(k + 1, cfg.burst)
  {
    MultipleIsProduct(k + 1, Period(cfg));
    MultipleIsProduct(k + 1, cfg.burst);
    NextMultiple(k, Period(cfg));
    DivModUnique(Multiple(k + 1, Period(cfg)) - LastCall(cfg), Period(cfg), k, Period(cfg) - LastCall(cfg));
  }

  /** The bound of WindowBound is reached, for every number of full periods, by windows that follow
      a single first connection. */
  lemma WindowBoundIsReached(cfg: Config, k: nat)
    requires Sane(cfg) && cfg.burst > 0
    ensures var past, t0, ops := [Stamped(0, Ask)], LastCall(cfg), Waves(cfg, k + 1);
      && Timed(0, past) && End(0, past) <= t0 && Timed(t0, ops)
      && (End(t0, ops) - t0) / Period(cfg) == k
      && |GrantTimes(cfg, State(cfg, None, past), ops)|
         == Spare(cfg) + Allowance(cfg.burst, Period(cfg), End(t0, ops) - t0)
  {
    FirstConnection(cfg);
    WavesArrive(cfg, k + 1);
    WavesTakePeriods(cfg, k);
  }

  /** In particular two nanoseconds can contain the whole allowance of AnyMinute. */
  lemma NearlyTwiceTheBurst(cfg: Config)
    requires Sane(cfg) && cfg.burst > 0 && cfg.ttl >= MINUTE
    ensures var past, ops := [Stamped(0, Ask)], Waves(cfg, 1);
      && Timed(0, past) && Timed(MINUTE, ops) && End(MINUTE, ops) == MINUTE + 1
      && |GrantTimes(cfg, State(cfg, None, past), ops)| == 2 * cfg.burst - 1
  {
    FirstConnection(cfg);
    WavesArrive(cfg, 1);
    assert Multiple(1, Period(cfg)) == Multiple(0, Period(cfg)) + Period(cfg);
    assert Multiple(1, cfg.burst) == Multiple(0, cfg.burst) + cfg.burst;
  }

  // ----- the latch -----

  /** Connections refused since the entry was last created. */
  function Refused(cfg: Config, ops: seq<Stamped<Op>>): nat {
    if ops == [] then 0
    else
      var init, op := ops[..|ops| - 1], ops[|ops| - 1];
      var s := State(cfg, None, init);
      if op.act.Ask? then Refused(cfg, init) + (if Grants(cfg, s, op) then 0 else 1)
      else if Step(cfg, s, op).None? then 0
      else Refused(cfg, init)
  }

  /** attempts counts refusals up to the limit, and the latch closes exactly beyond twice the burst. */
  lemma {:induction false} LatchCountsRefusals(cfg: Config, ops: seq<Stamped<Op>>)
    requires Sane(cfg)
    ensures var s, n := State(cfg, None, ops), Refused(cfg, ops);
      if s.None? then n == 0
      else
        && s.value.attempts == (if n <= 2 * cfg.burst then n else 2 * cfg.burst + 1)
        && (s.value.blocked <==> n > 2 * cfg.burst)
  {
    if ops == [] {
    } else {
      LatchCountsRefusals(cfg, ops[..|ops| - 1]);
    }
  }

  /** A blocked entry is frozen, and nothing is allowed, until a sweep finds it older than the TTL. */
  lemma {:induction false} BlockedUntilSwept(cfg: Config, b: Bucket, ops: seq<Stamped<Op>>)
    requires b.blocked
    requires forall i :: 0 <= i < |ops| && ops[i].act.Clean? ==> ops[i].now - b.lastReset <= cfg.ttl
    ensures State(cfg, Some(b), ops) == Some(b) && GrantTimes(cfg, Some(b), ops) == []
  {
    if ops == [] {
    } else {
      BlockedUntilSwept(cfg, b, ops[..|ops| - 1]);
    }
  }

  /** That sweep lifts the block: the next connection starts afresh. */
  lemma SweepLiftsBlock(cfg: Config, b: Bucket, ops: seq<Stamped<Op>>, sweep: int, ask: int)
    requires Sane(cfg) && cfg.burst > 0 && b.blocked
    requires forall i :: 0 <= i < |ops| && ops[i].act.Clean? ==> ops[i].now - b.lastReset <= cfg.ttl
    requires sweep - b.lastReset > cfg.ttl
    ensures GrantTimes(cfg, Some(b), ops + [Stamped(sweep, Clean)] + [Stamped(ask, Ask)]) == [ask]
  {
    var swept := ops + [Stamped(sweep, Clean)];
    BlockedUntilSwept(cfg, b, ops);
    assert swept[..|ops|] == ops;
    assert State(cfg, Some(b), swept) == None && GrantTimes(cfg, Some(b), swept) == [];
    assert (swept + [Stamped(ask, Ask)])[..|swept|] == swept;
    assert Grants(cfg, None, Stamped(ask, Ask));
  }

  lemma {:induction false} TimesUpToEnd(t: int, ops: seq<Stamped<Op>>)
    requires Timed(t, ops)
    ensures forall i :: 0 <= i < |ops| ==> ops[i].now <= End(t, ops)
  {
    if ops == [] {
    } else {
      TimesUpToEnd(t, ops[..|ops| - 1]);
    }
  }

  /** An IP that becomes blocked at time t is refused at every time up to t + ttl - 1 minute. */
  lemma BlockLasts(cfg: Config, e: Option<Bucket>, t: int, ops: seq<Stamped<Op>>)
    requires Sane(cfg) && Inv(cfg, e, t) && (e.Some? ==> !e.value.blocked)
    requires var s := Step(cfg, e, Stamped(t, Ask)); s.value.blocked
    requires Timed(t, ops) && End(t, ops) <= t + cfg.ttl - MINUTE
    ensures GrantTimes(cfg, Step(cfg, e, Stamped(t, Ask)), ops) == []
  {
    TimesUpToEnd(t, ops);
    BlockedUntilSwept(cfg, Step(cfg, e, Stamped(t, Ask)).value, ops);
  }
}

/** The IPRateLimiter object: a map of buckets, written back and deleted in place. */
module RateLimiterStore {
  import opened Arithmetic
  import opened Keyed
  import Model = RateLimiterModel
  import Theory = RateLimiterTheory

  class IPRateLimiter {
    var limits: map<string, Model.Bucket>
    const rate: int
    const burst: int
    const ttl: int

    /** Every locked step so far, and the (IP, time) of every connection allowed. */
    ghost var log: seq<Event<string, Stamped<Model.Op>>>
    ghost var granted: seq<(string, int)>
    ghost const startedAt: int

    ghost function Cfg(): Model.Config {
      Model.Config(burst, ttl)
    }

    ghost function Clock(): int
      reads this
    {
      LastReading(startedAt, log)
    }

    ghost predicate Valid()
      reads this
    {
      && TimedEvents(startedAt, log)
      && Recorded(Model.Stepper(Cfg()), Model.Granter(Cfg()), limits, log, granted)
    }

    constructor (rate: int, burst: int, ttl: int, ghost now: int)
      ensures Valid() && log == [] && granted == [] && startedAt == now
      ensures Cfg() == Model.Config(burst, ttl)
    {
      limits := map[];
      this.rate, this.burst, this.ttl := rate, burst, ttl;
      log, granted, startedAt := [], [], now;
    }

    ghost method Record(before: map<string, Model.Bucket>, ev: Event<string, Stamped<Model.Op>>)
      requires Clock() <= ev.op.now && TimedEvents(startedAt, log)
      requires Recorded(Model.Stepper(Cfg()), Model.Granter(Cfg()), before, log, granted)
      requires ev.Sweep? ==> ev.op.act.Clean?
      modifies this`log, this`granted
      ensures log == old(log) + [ev] && TimedEvents(startedAt, log)
      ensures granted == if ev.At? && Model.Grants(Cfg(), Get(before, ev.key), ev.op)
                         then old(granted) + [(ev.key, ev.op.now)] else old(granted)
      ensures Recorded(Model.Stepper(Cfg()), Model.Granter(Cfg()),
                       Apply(Model.Stepper(Cfg()), before, ev), log, granted)
    {
      RecordStep(Model.Stepper(Cfg()), Model.Granter(Cfg()), before, log, granted, ev);
      if ev.At? && Model.Grants(Cfg(), Get(before, ev.key), ev.op) {
        granted := granted + [(ev.key, ev.op.now)];
      }
      log := log + [ev];
      assert log[..|log| - 1] == old(log);
    }

    method AllowConnection(ip: string, now: int) returns (ok: bool)
      requires Valid() && Clock() <= now
      modifies this
      ensures Valid() && log == old(log) + [At(ip, Stamped(now, Model.Ask))]
      ensures ok == Model.Grants(Cfg(), Get(old(limits), ip), Stamped(now, Model.Ask))
      ensures ok <==> Theory.Allowed(Cfg(), Get(old(limits), ip), now) >= 1
      ensures granted == if ok then old(granted) + [(ip, now)] else old(granted)
      ensures limits == Apply(Model.Stepper(Cfg()), old(limits), At(ip, Stamped(now, Model.Ask)))
    {
      ghost var before := limits;
      var b := if ip in limits then limits[ip] else Model.Bucket(burst, now, false, 0);
      ok := false;
      if !b.blocked {
        if now - b.lastReset > Model.MINUTE {
          b := b.(tokens := burst, lastReset := now);
        }
        if b.tokens > 0 {
          b := b.(tokens := b.tokens - 1);
          ok := true;
        } else {
          b := b.(attempts := b.attempts + 1);
          if b.attempts > burst * 2 {
            b := b.(blocked := true);
          }
        }
      }
      limits := limits[ip := b];
      assert limits == Put(before, ip, Model.Step(Cfg(), Get(before, ip), Stamped(now, Model.Ask)));
      Record(before, At(ip, Stamped(now, Model.Ask)));
    }

    method Cleanup(now: int)
      requires Valid() && Clock() <= now
      modifies this
      ensures Valid() && log == old(log) + [Sweep(Stamped(now, Model.Clean))] && granted == old(granted)
      ensures limits == Apply(Model.Stepper(Cfg()), old(limits), Sweep(Stamped(now, Model.Clean)))
    {
      ghost var before := limits;
      var left := limits.Keys;
      while left != {}
        invariant left <= limits.Keys <= before.Keys
        invariant forall ip | ip in limits :: limits[ip] == before[ip]
        invariant forall ip | ip in before :: ip in limits <==> ip in left || now - before[ip].lastReset <= ttl
        invariant log == old(log) && granted == old(granted)
        decreases left
      {
        var ip :| ip in left;
        if now - limits[ip].lastReset > ttl {
          limits := limits - {ip};
        }
        left := left - {ip};
      }
      assert limits == Swept(Model.Stepper(Cfg()), before, Stamped(now, Model.Clean));
      Record(before, Sweep(Stamped(now, Model.Clean)));
    }

    /** Over the whole life of the object: the connections of one IP that were allowed. */
    lemma LifetimeBound(ip: string)
      requires Valid() && Model.Sane(Cfg())
      ensures |HitsOf(granted, ip)| <= Allowance(burst, Theory.Period(Cfg()), Clock() - startedAt)
    {
      var ops := Project(log, ip);
      ProjectionIsTimed(startedAt, log, ip);
      Theory.FirstUseBound(Cfg(), startedAt, ops);
      AllowanceGrows(burst, Theory.Period(Cfg()), End(startedAt, ops) - startedAt, Clock() - startedAt);
    }
  }
}
