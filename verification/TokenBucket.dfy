/** The per-key token bucket of the protection layer, as a step function. */
module TokenBucketModel {
  import opened Arithmetic
  import opened Keyed

  /** capacity in tokens, fillRate in tokens per second, cleanupInterval in nanoseconds. */
  datatype Config = Config(capacity: int, fillRate: real, cleanupInterval: int)

  datatype Bucket = Bucket(tokens: int, lastUpdate: int)

  /** Peek is GetTokens, Refill the periodic refillAll, Clean the periodic cleanup. */
  datatype Op = Take | Peek | Refill | Clean

  const NANOS_PER_SECOND := 1_000_000_000.0

  ghost predicate Sane(cfg: Config) {
    cfg.capacity >= 1 && cfg.fillRate > 0.0 && cfg.cleanupInterval >= 0
  }

  function MinReal(a: real, b: real): real { if a < b then a else b }

  /** Conversion of a floating-point number to an integer: toward zero. */
  function Truncate(x: real): int {
    if x >= 0.0 then x.Floor else -(-x).Floor
  }

  /** Tokens accrued, fraction included, over dt nanoseconds. */
  function Accrued(fillRate: real, dt: int): real {
    dt as real / NANOS_PER_SECOND * fillRate
  }

  /** refillBucket: lastUpdate moves only when a whole token is added. */
  function Refilled(cfg: Config, b: Bucket, now: int): Bucket {
    var newTokens := Truncate(Accrued(cfg.fillRate, now - b.lastUpdate));
    if newTokens > 0 then Bucket(Min(b.tokens + newTokens, cfg.capacity), now) else b
  }

  /** The bucket a Take works on: found or created, then refilled. */
  function Opened(cfg: Config, e: Option<Bucket>, now: int): Bucket {
    Refilled(cfg, if e.Some? then e.value else Bucket(cfg.capacity, now), now)
  }

  /** Does this operation, performed in this state, hand out a token? */
  predicate Grants(cfg: Config, e: Option<Bucket>, op: Stamped<Op>) {
    op.act.Take? && Opened(cfg, e, op.now).tokens > 0
  }

  function Step(cfg: Config, e: Option<Bucket>, op: Stamped<Op>): Option<Bucket> {
    match op.act
    case Take =>
      var b := Opened(cfg, e, op.now);
      if b.tokens > 0 then Some(b.(tokens := b.tokens - 1)) else Some(b)
    case Peek => if e.Some? then Some(Refilled(cfg, e.value, op.now)) else None
    case Refill => if e.Some? then Some(Refilled(cfg, e.value, op.now)) else None
    case Clean =>
      if e.Some? && op.now - e.value.lastUpdate > cfg.cleanupInterval then None else e
  }

  function Stepper(cfg: Config): (Option<Bucket>, Stamped<Op>) -> Option<Bucket> {
    (e, op) => Step(cfg, e, op)
  }

  /** The entry of one key after a run of operations. */
  function State(cfg: Config, e: Option<Bucket>, ops: seq<Stamped<Op>>): Option<Bucket> {
    Run(Stepper(cfg), e, ops)
  }

  function Granter(cfg: Config): (Option<Bucket>, Stamped<Op>) -> bool {
    (e, op) => Grants(cfg, e, op)
  }

  /** The times at which a run hands out a token. */
  function GrantTimes(cfg: Config, e: Option<Bucket>, ops: seq<Stamped<Op>>): seq<int> {
    Times(Stepper(cfg), Granter(cfg), e, ops)
  }
}

/** The ideal, continuous token bucket: the reference the code is compared with. */
module IdealBucket {
  import opened TokenBucketModel
  import opened Keyed

  datatype Level = Level(level: real, at: int)

  /** The exact content at a later time: no rounding, capped at capacity. */
  function LevelAt(capacity: real, fillRate: real, l: Level, now: int): real {
    MinReal(l.level + Accrued(fillRate, now - l.at), capacity)
  }

  /** Taking a token at each of the given times; None as soon as one is refused. */
  function Serve(capacity: real, fillRate: real, start: Level, times: seq<int>): Option<Level> {
    if times == [] then Some(start)
    else
      var before := Serve(capacity, fillRate, start, times[..|times| - 1]);
      var t := times[|times| - 1];
      if before.Some? && LevelAt(capacity, fillRate, before.value, t) >= 1.0
      then Some(Level(LevelAt(capacity, fillRate, before.value, t) - 1.0, t))
      else None
  }

  /** Offering every Take of a run to the ideal bucket, which refuses when it must. */
  function Offer(capacity: real, fillRate: real, start: Level, ops: seq<Stamped<Op>>): (Level, nat) {
    if ops == [] then (start, 0)
    else
      var (l, n) := Offer(capacity, fillRate, start, ops[..|ops| - 1]);
      var op := ops[|ops| - 1];
      var level := LevelAt(capacity, fillRate, l, op.now);
      if op.act.Take? && level >= 1.0 then (Level(level - 1.0, op.now), n + 1) else (l, n)
  }

  lemma AccruedAdd(fillRate: real, a: int, b: int)
    ensures Accrued(fillRate, a + b) == Accrued(fillRate, a) + Accrued(fillRate, b)
  {
    assert (a + b) as real / NANOS_PER_SECOND == a as real / NANOS_PER_SECOND + b as real / NANOS_PER_SECOND;
  }

  lemma AccruedPositive(fillRate: real, dt: int)
    requires fillRate > 0.0
    ensures dt > 0 ==> Accrued(fillRate, dt) > 0.0
    ensures dt == 0 ==> Accrued(fillRate, dt) == 0.0
    ensures dt < 0 ==> Accrued(fillRate, dt) < 0.0
  {
    var x := dt as real / NANOS_PER_SECOND;
    if dt > 0 {
      assert x > 0.0;
      assert x * fillRate > 0.0;
    } else if dt < 0 {
      assert x < 0.0;
      assert x * fillRate < 0.0;
    }
  }

  lemma AccruedMonotone(fillRate: real, a: int, b: int)
    requires fillRate > 0.0 && a <= b
    ensures Accrued(fillRate, a) <= Accrued(fillRate, b)
  {
    AccruedAdd(fillRate, a, b - a);
    AccruedPositive(fillRate, b - a);
  }

  /** Conservation: what the ideal bucket hands out, it held at the start or accrued since. */
  lemma {:induction false} ServeConserves(capacity: real, fillRate: real, start: Level, times: seq<int>)
    requires fillRate > 0.0 && start.level >= 0.0
    requires Serve(capacity, fillRate, start, times).Some?
    ensures var l := Serve(capacity, fillRate, start, times).value;
      && l.level >= 0.0
      && |times| as real + l.level <= start.level + Accrued(fillRate, l.at - start.at)
  {
    if times == [] {
      AccruedPositive(fillRate, 0);
    } else {
      ServeConserves(capacity, fillRate, start, times[..|times| - 1]);
      var before := Serve(capacity, fillRate, start, times[..|times| - 1]).value;
      var t := times[|times| - 1];
      AccruedAdd(fillRate, before.at - start.at, t - before.at);
    }
  }
}
