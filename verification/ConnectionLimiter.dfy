/** The per-IP connection limiter, as a step function. */
module ConnectionLimiterModel {
  import opened Keyed

  /** ttl in nanoseconds. */
  datatype Config = Config(maxPerIP: int, ttl: int)

  datatype Stats = Stats(count: int, lastReset: int)

  /** Open is AllowConnection, Close is RemoveConnection, Clean the periodic cleanup. */
  datatype Op = Open | Close | Clean

  ghost predicate Sane(cfg: Config) {
    cfg.maxPerIP >= 1 && cfg.ttl >= 0
  }

  /** The record AllowConnection decides on: found or fresh, and zeroed once its TTL is over. */
  function Current(cfg: Config, e: Option<Stats>, now: int): Stats {
    var stats := if e.Some? then e.value else Stats(0, now);
    if now - stats.lastReset > cfg.ttl then Stats(0, now) else stats
  }

  predicate Admits(cfg: Config, e: Option<Stats>, op: Stamped<Op>) {
    op.act.Open? && Current(cfg, e, op.now).count < cfg.maxPerIP
  }

  function Step(cfg: Config, e: Option<Stats>, op: Stamped<Op>): Option<Stats> {
    match op.act
    case Open =>
      var stats := Current(cfg, e, op.now);
      if stats.count >= cfg.maxPerIP then e else Some(stats.(count := stats.count + 1))
    case Close =>
      if e.Some? && e.value.count - 1 > 0 then Some(e.value.(count := e.value.count - 1)) else None
    case Clean => if e.Some? && op.now - e.value.lastReset > cfg.ttl then None else e
  }

  function Stepper(cfg: Config): (Option<Stats>, Stamped<Op>) -> Option<Stats> {
    (e, op) => Step(cfg, e, op)
  }

  function Admitter(cfg: Config): (Option<Stats>, Stamped<Op>) -> bool {
    (e, op) => Admits(cfg, e, op)
  }

  function State(cfg: Config, ops: seq<Stamped<Op>>): Option<Stats> {
    Run(Stepper(cfg), None, ops)
  }

  function AdmitTimes(cfg: Config, ops: seq<Stamped<Op>>): seq<int> {
    Times(Stepper(cfg), Admitter(cfg), None, ops)
  }
}

/** What the connection limiter guarantees over whole runs of one IP. */
module ConnectionLimiterTheory {
  import opened Arithmetic
  import opened Keyed
  import opened ConnectionLimiterModel

  function Closes(ops: seq<Stamped<Op>>): nat {
    if ops == [] then 0 else Closes(ops[..|ops| - 1]) + if ops[|ops| - 1].act.Close? then 1 else 0
  }

  /** Connections admitted and not yet released. */
  function Live(cfg: Config, ops: seq<Stamped<Op>>): int {
    |AdmitTimes(cfg, ops)| - Closes(ops)
  }

  /** Each release belongs to an earlier admission. */
  ghost predicate Matched(cfg: Config, ops: seq<Stamped<Op>>) {
    forall i :: 0 <= i <= |ops| ==> Live(cfg, ops[..i]) >= 0
  }

  function Count(e: Option<Stats>): int {
    if e.Some? then e.value.count else 0
  }

  /** Does this step forget a count: a TTL reset inside AllowConnection, or a sweep? */
  predicate Drops(cfg: Config, e: Option<Stats>, op: Stamped<Op>) {
    (op.act.Open? || op.act.Clean?) && e.Some? && op.now - e.value.lastReset > cfg.ttl
  }

  function DropCount(cfg: Config, ops: seq<Stamped<Op>>): nat {
    if ops == [] then 0
    else
      var init, op := ops[..|ops| - 1], ops[|ops| - 1];
      DropCount(cfg, init) + if Drops(cfg, State(cfg, init), op) then 1 else 0
  }

  /** After d drops at least d TTLs have passed since t0, for the clock and for the entry, and at most
      d * maxPerIP live connections are forgotten. */
  ghost predicate Paced(cfg: Config, t0: int, e: Option<Stats>, now: int, live: int, d: int) {
    && (e.Some? ==> 1 <= e.value.count <= cfg.maxPerIP && t0 + d * (cfg.ttl + 1) <= e.value.lastReset <= now)
    && t0 + d * (cfg.ttl + 1) <= now
    && live <= Count(e) + d * cfg.maxPerIP
  }

  lemma StepPaced(cfg: Config, t0: int, e: Option<Stats>, now: int, live: int, d: int, op: Stamped<Op>)
    requires Sane(cfg) && Paced(cfg, t0, e, now, live, d) && now <= op.now
    ensures Paced(cfg, t0, Step(cfg, e, op), op.now,
                  live + (if Admits(cfg, e, op) then 1 else 0) - (if op.act.Close? then 1 else 0),
                  d + if Drops(cfg, e, op) then 1 else 0)
  {
    NextMultiple(d, cfg.ttl + 1);
    NextMultiple(d, cfg.maxPerIP);
  }

  /** Drops are more than ttl apart, and each forgets at most maxPerIP live connections. */
  lemma {:induction false} DropsArePaced(cfg: Config, t0: int, ops: seq<Stamped<Op>>)
    requires Sane(cfg) && Timed(t0, ops)
    ensures Paced(cfg, t0, State(cfg, ops), End(t0, ops), Live(cfg, ops), DropCount(cfg, ops))
  {
    if ops == [] {
    } else {
      var init, op := ops[..|ops| - 1], ops[|ops| - 1];
      DropsArePaced(cfg, t0, init);
      StepPaced(cfg, t0, State(cfg, init), End(t0, init), Live(cfg, init), DropCount(cfg, init), op);
    }
  }

  /** On every run, the live connections of an IP at elapsed time T since the run began are at
      most maxPerIP * (1 + T / (ttl + 1)). */
  lemma LiveBound(cfg: Config, t0: int, ops: seq<Stamped<Op>>)
    requires Sane(cfg) && Timed(t0, ops)
    ensures Live(cfg, ops) <= Allowance(cfg.maxPerIP, cfg.ttl + 1, End(t0, ops) - t0)
  {
    DropsArePaced(cfg, t0, ops);
    PacedSum(DropCount(cfg, ops), cfg.ttl + 1, End(t0, ops) - t0, cfg.maxPerIP);
  }

  /** As long as nothing was dropped, the stored count is the number of live connections. */
  lemma {:induction false} CountIsLive(cfg: Config, t0: int, ops: seq<Stamped<Op>>)
    requires Sane(cfg) && Timed(t0, ops) && Matched(cfg, ops) && DropCount(cfg, ops) == 0
    ensures Count(State(cfg, ops)) == Live(cfg, ops) <= cfg.maxPerIP
  {
    if ops == [] {
    } else {
      var init := ops[..|ops| - 1];
      assert forall i :: 0 <= i <= |init| ==> init[..i] == ops[..i];
      CountIsLive(cfg, t0, init);
      DropsArePaced(cfg, t0, init);
      assert ops[..|ops|] == ops;
    }
  }

  /** ... and then AllowConnection answers true exactly when fewer than maxPerIP are live. */
  lemma AdmitsExactlyBelowLimit(cfg: Config, t0: int, ops: seq<Stamped<Op>>, now: int)
    requires Sane(cfg) && Timed(t0, ops) && Matched(cfg, ops) && DropCount(cfg, ops) == 0
    requires !Drops(cfg, State(cfg, ops), Stamped(now, Open))
    ensures Admits(cfg, State(cfg, ops), Stamped(now, Open)) <==> Live(cfg, ops) < cfg.maxPerIP
  {
    CountIsLive(cfg, t0, ops);
  }

  // ----- exactly what is admitted -----

  /** How many connections an entry has room for at t. */
  function Room(cfg: Config, e: Option<Stats>, t: int): int {
    if e.None? || t - e.value.lastReset > cfg.ttl then cfg.maxPerIP else cfg.maxPerIP - e.value.count
  }

  /** The count an entry of a reachable state holds. */
  ghost predicate Counted(cfg: Config, e: Option<Stats>, now: int) {
    e.Some? ==> 1 <= e.value.count <= cfg.maxPerIP && e.value.lastReset <= now
  }

  /** A connection is admitted exactly when there is room, and takes up some of it until the TTL that it
      counts in is over; a refused one changes nothing. */
  lemma OpenLaw(cfg: Config, e: Option<Stats>, s: int, t: int)
    requires Sane(cfg) && Counted(cfg, e, s) && s <= t
    ensures var e', admitted := Step(cfg, e, Stamped(s, Open)), Admits(cfg, e, Stamped(s, Open));
      var began := if e.None? || s - e.value.lastReset > cfg.ttl then s else e.value.lastReset;
      && (admitted <==> Room(cfg, e, s) >= 1)
      && Room(cfg, e', t) == if !admitted then Room(cfg, e, t)
                             else if t - began > cfg.ttl then cfg.maxPerIP
                             else Room(cfg, e, s) - 1
  {
  }

  /** A released connection makes room for one more, at every later time. */
  lemma CloseLaw(cfg: Config, e: Option<Stats>, s: int, t: int)
    requires Sane(cfg) && Counted(cfg, e, s) && s <= t
    ensures Room(cfg, Step(cfg, e, Stamped(s, Close)), t)
         == if Room(cfg, e, t) < cfg.maxPerIP then Room(cfg, e, t) + 1 else cfg.maxPerIP
  {
  }

  /** Sweeps cannot be noticed: at every later time there is as much room as without them. */
  lemma SweepLaw(cfg: Config, e: Option<Stats>, s: int, t: int)
    requires s <= t
    ensures Room(cfg, Step(cfg, e, Stamped(s, Clean)), t) == Room(cfg, e, t)
  {
  }

  lemma OneOpen(cfg: Config, e: Option<Stats>, t: int)
    requires Sane(cfg) && Counted(cfg, e, t)
    ensures var e', admitted := Step(cfg, e, Stamped(t, Open)), Admits(cfg, e, Stamped(t, Open));
      && Counted(cfg, e', t) && (admitted <==> Room(cfg, e, t) >= 1) && Room(cfg, e, t) >= 0
      && Room(cfg, e', t) == Room(cfg, e, t) - if admitted then 1 else 0
  {
  }

  /** n connections at the same instant. */
  function Opens(n: nat, t: int): seq<Stamped<Op>> {
    Repeated(Stamped(t, Open), n)
  }

  /** Exactly how many of n connections at the same instant are admitted, on every reachable entry. */
  lemma {:induction false} OpensAdmitExactly(cfg: Config, e: Option<Stats>, n: nat, t: int)
    requires Sane(cfg) && Counted(cfg, e, t)
    ensures |Times(Stepper(cfg), Admitter(cfg), e, Opens(n, t))| == Min(n, Room(cfg, e, t))
    ensures var s := Run(Stepper(cfg), e, Opens(n, t));
      Counted(cfg, s, t) && Room(cfg, s, t) == Room(cfg, e, t) - Min(n, Room(cfg, e, t))
  {
    hide Step, Admits, Room, Counted;
    OneOpen(cfg, e, t);
    if n == 0 {
    } else {
      OpensAdmitExactly(cfg, e, n - 1, t);
      OneOpen(cfg, Run(Stepper(cfg), e, Opens(n - 1, t)), t);
      Keyed.OneMore(Stepper(cfg), Admitter(cfg), e, Opens(n - 1, t), Stamped(t, Open));
    }
  }

  /** After a sweep that finds the entry stale, a whole maxPerIP is admitted and no more. */
  lemma SweepLetsIn(cfg: Config, t0: int, past: seq<Stamped<Op>>, sweep: int, n: nat, t: int)
    requires Sane(cfg) && Timed(t0, past) && End(t0, past) <= sweep <= t
    requires State(cfg, past).Some? && sweep - State(cfg, past).value.lastReset > cfg.ttl
    ensures var swept := State(cfg, past + [Stamped(sweep, Clean)]);
      |Times(Stepper(cfg), Admitter(cfg), swept, Opens(n, t))| == Min(n, cfg.maxPerIP)
  {
    Keyed.OneMore(Stepper(cfg), Admitter(cfg), None, past, Stamped(sweep, Clean));
    OpensAdmitExactly(cfg, State(cfg, past + [Stamped(sweep, Clean)]), n, t);
  }

  // ----- how far the limit can be exceeded -----

  /** maxPerIP connections, then maxPerIP more each time the TTL has just run out. */
  function Waves(cfg: Config, k: nat): seq<Stamped<Op>>
    requires Sane(cfg)
  {
    (if k == 0 then [] else Waves(cfg, k - 1)) + Opens(cfg.maxPerIP, k * (cfg.ttl + 1))
  }

  lemma OpenAdmitted(cfg: Config, e: Option<Stats>, n: nat, t: int)
    requires Sane(cfg) && n < cfg.maxPerIP
    requires if n == 0 then e.Some? ==> t - e.value.lastReset > cfg.ttl else e == Some(Stats(n, t))
    ensures Admits(cfg, e, Stamped(t, Open))
    ensures Step(cfg, e, Stamped(t, Open)) == Some(Stats(n + 1, t))
  {
  }

  /** The entry after n connections at time t on one that was stale or absent. */
  function Filled(e: Option<Stats>, n: nat, t: int): Option<Stats> {
    if n == 0 then e else Some(Stats(n, t))
  }

  lemma OpensFill(cfg: Config, e: Option<Stats>, n: nat, t: int)
    requires Sane(cfg) && n <= cfg.maxPerIP && (e.Some? ==> t - e.value.lastReset > cfg.ttl)
    ensures Run(Stepper(cfg), e, Opens(n, t)) == Filled(e, n, t)
    ensures |Times(Stepper(cfg), Admitter(cfg), e, Opens(n, t))| == n
  {
    var state := (i: nat) => Filled(e, i, t);
    forall i: nat | i < n
      ensures Advances(Stepper(cfg), Admitter(cfg), state, Stamped(t, Open), i)
    {
      OpenAdmitted(cfg, state(i), i, t);
    }
    RepeatedRuns(Stepper(cfg), Admitter(cfg), state, Stamped(t, Open), n);
  }

  lemma {:induction false} OpensCloseNothing(before: seq<Stamped<Op>>, n: nat, t: int)
    ensures Closes(before + Opens(n, t)) == Closes(before)
  {
    if n == 0 {
      assert before + [] == before;
    } else {
      OpensCloseNothing(before, n - 1, t);
      assert before + Opens(n, t) == (before + Opens(n - 1, t)) + [Stamped(t, Open)];
    }
  }

  lemma OpensJoin(cfg: Config, before: seq<Stamped<Op>>, n: nat, t: int)
    requires Sane(cfg) && n <= cfg.maxPerIP
    requires State(cfg, before).Some? ==> t - State(cfg, before).value.lastReset > cfg.ttl
    ensures State(cfg, before + Opens(n, t)) == Filled(State(cfg, before), n, t)
    ensures Live(cfg, before + Opens(n, t)) == Live(cfg, before) + n
  {
    OpensFill(cfg, State(cfg, before), n, t);
    RunAppend(Stepper(cfg), None, before, Opens(n, t));
    TimesAppend(Stepper(cfg), Admitter(cfg), None, before, Opens(n, t));
    OpensCloseNothing(before, n, t);
  }

  ghost predicate WavesArrived(cfg: Config, ops: seq<Stamped<Op>>, k: nat) {
    && Timed(0, ops) && End(0, ops) == k * (cfg.ttl + 1)
    && State(cfg, ops) == Some(Stats(cfg.maxPerIP, k * (cfg.ttl + 1)))
    && Live(cfg, ops) == (1 + k) * cfg.maxPerIP
  }

  lemma FirstWave(cfg: Config)
    requires Sane(cfg)
    ensures WavesArrived(cfg, Waves(cfg, 0), 0)
  {
    assert [] + Opens(cfg.maxPerIP, 0) == Opens(cfg.maxPerIP, 0);
    assert 0 * (cfg.ttl + 1) == 0;
    RepeatedIsTimed(Stamped(0, Open), cfg.maxPerIP);
    OpensJoin(cfg, [], cfg.maxPerIP, 0);
  }

  lemma NextWave(cfg: Config, before: seq<Stamped<Op>>, k: nat)
    requires Sane(cfg) && WavesArrived(cfg, before, k)
    ensures WavesArrived(cfg, before + Opens(cfg.maxPerIP, (k + 1) * (cfg.ttl + 1)), k + 1)
  {
    var t := (k + 1) * (cfg.ttl + 1);
    NextMultiple(k, cfg.ttl + 1);
    NextMultiple(1 + k, cfg.maxPerIP);
    RepeatedIsTimed(Stamped(t, Open), cfg.maxPerIP);
    TimedLater(End(0, before), t, Opens(cfg.maxPerIP, t));
    TimedAppend(0, before, Opens(cfg.maxPerIP, t));
    OpensJoin(cfg, before, cfg.maxPerIP, t);
  }

  /** The bound of LiveBound is reached, for every number of elapsed TTLs. */
  lemma {:induction false} LiveBoundIsReached(cfg: Config, k: nat)
    requires Sane(cfg)
    ensures WavesArrived(cfg, Waves(cfg, k), k)
  {
    if k == 0 {
      FirstWave(cfg);
    } else {
      LiveBoundIsReached(cfg, k - 1);
      NextWave(cfg, Waves(cfg, k - 1), k - 1);
    }
  }

  /** "At most maxPerIP concurrent connections" over all runs that last at most span. */
  ghost predicate ConcurrencyLimited(cfg: Config, span: int) {
    forall t0: int, ops: seq<Stamped<Op>> :: Timed(t0, ops) && End(t0, ops) - t0 <= span ==>
      Live(cfg, ops) <= cfg.maxPerIP
  }

  lemma LimitedWithinTtl(cfg: Config, t0: int, ops: seq<Stamped<Op>>)
    requires Sane(cfg) && Timed(t0, ops) && End(t0, ops) - t0 <= cfg.ttl
    ensures Live(cfg, ops) <= cfg.maxPerIP
  {
    TimedStart(t0, ops);
    LiveBound(cfg, t0, ops);
    AllowanceWithin(cfg.maxPerIP, cfg.ttl + 1, End(t0, ops) - t0);
  }

  lemma ExceededAfterTtl(cfg: Config, span: nat)
    requires Sane(cfg) && span > cfg.ttl
    ensures !ConcurrencyLimited(cfg, span)
  {
    var ops := Waves(cfg, 1);
    LiveBoundIsReached(cfg, 1);
    var live, end := Live(cfg, ops), End(0, ops);
    assert end == cfg.ttl + 1 && live == 2 * cfg.maxPerIP;
    assert Timed(0, ops);
  }

  /** Exactly when the documented limit holds: on runs no longer than the TTL. */
  lemma ConcurrencyLimitedExactly(cfg: Config, span: nat)
    requires Sane(cfg)
    ensures ConcurrencyLimited(cfg, span) <==> span <= cfg.ttl
  {
    if span <= cfg.ttl {
      forall t0: int, ops: seq<Stamped<Op>> | Timed(t0, ops) && End(t0, ops) - t0 <= span
        ensures Live(cfg, ops) <= cfg.maxPerIP
      {
        LimitedWithinTtl(cfg, t0, ops);
      }
    } else {
      ExceededAfterTtl(cfg, span);
    }
  }
}

/** The ConnectionLimiter object: a map of records, written back and deleted in place. */
module ConnectionLimiterStore {
  import opened Arithmetic
  import opened Keyed
  import Model = ConnectionLimiterModel
  import Theory = ConnectionLimiterTheory

  class ConnectionLimiter {
    var connections: map<string, Model.Stats>
    const maxPerIP: int
    const ttl: int

    /** Every locked step so far, and the (IP, time) of every admission. */
    ghost var log: seq<Event<string, Stamped<Model.Op>>>
    ghost var admitted: seq<(string, int)>
    ghost const startedAt: int

    ghost function Cfg(): Model.Config {
      Model.Config(maxPerIP, ttl)
    }

    ghost function Clock(): int
      reads this
    {
      LastReading(startedAt, log)
    }

    ghost predicate Valid()
      reads this
    {
      && TimedEvents(startedAt, log)
      && Recorded(Model.Stepper(Cfg()), Model.Admitter(Cfg()), connections, log, admitted)
    }

    constructor (maxPerIP: int, ttl: int, ghost now: int)
      ensures Valid() && log == [] && admitted == [] && startedAt == now
      ensures Cfg() == Model.Config(maxPerIP, ttl)
    {
      connections := map[];
      this.maxPerIP, this.ttl := maxPerIP, ttl;
      log, admitted, startedAt := [], [], now;
    }

    ghost method Record(before: map<string, Model.Stats>, ev: Event<string, Stamped<Model.Op>>)
      requires Clock() <= ev.op.now && TimedEvents(startedAt, log)
      requires Recorded(Model.Stepper(Cfg()), Model.Admitter(Cfg()), before, log, admitted)
      requires ev.Sweep? ==> ev.op.act.Clean?
      modifies this`log, this`admitted
      ensures log == old(log) + [ev] && TimedEvents(startedAt, log)
      ensures admitted == if ev.At? && Model.Admits(Cfg(), Get(before, ev.key), ev.op)
                          then old(admitted) + [(ev.key, ev.op.now)] else old(admitted)
      ensures Recorded(Model.Stepper(Cfg()), Model.Admitter(Cfg()),
                       Apply(Model.Stepper(Cfg()), before, ev), log, admitted)
    {
      RecordStep(Model.Stepper(Cfg()), Model.Admitter(Cfg()), before, log, admitted, ev);
      if ev.At? && Model.Admits(Cfg(), Get(before, ev.key), ev.op) {
        admitted := admitted + [(ev.key, ev.op.now)];
      }
      log := log + [ev];
      assert log[..|log| - 1] == old(log);
    }

    method AllowConnection(ip: string, now: int) returns (ok: bool)
      requires Valid() && Clock() <= now
      modifies this
      ensures Valid() && log == old(log) + [At(ip, Stamped(now, Model.Open))]
      ensures ok == Model.Admits(Cfg(), Get(old(connections), ip), Stamped(now, Model.Open))
      ensures ok <==> Theory.Room(Cfg(), Get(old(connections), ip), now) >= 1
      ensures admitted == if ok then old(admitted) + [(ip, now)] else old(admitted)
      ensures connections == Apply(Model.Stepper(Cfg()), old(connections), At(ip, Stamped(now, Model.Open)))
    {
      ghost var before := connections;
      var stats := if ip in connections then connections[ip] else Model.Stats(0, now);
      if now - stats.lastReset > ttl {
        stats := Model.Stats(0, now);
      }
      ok := stats.count < maxPerIP;
      if ok {
        stats := stats.(count := stats.count + 1);
        connections := connections[ip := stats];
      }
      assert connections == Put(before, ip, Model.Step(Cfg(), Get(before, ip), Stamped(now, Model.Open)));
      Record(before, At(ip, Stamped(now, Model.Open)));
    }

    method RemoveConnection(ip: string, ghost now: int)
      requires Valid() && Clock() <= now
      modifies this
      ensures Valid() && log == old(log) + [At(ip, Stamped(now, Model.Close))] && admitted == old(admitted)
      ensures connections == Apply(Model.Stepper(Cfg()), old(connections), At(ip, Stamped(now, Model.Close)))
    {
      ghost var before := connections;
      if ip in connections {
        var stats := connections[ip];
        stats := stats.(count := stats.count - 1);
        if stats.count <= 0 {
          connections := connections - {ip};
        } else {
          connections := connections[ip := stats];
        }
      }
      assert connections == Put(before, ip, Model.Step(Cfg(), Get(before, ip), Stamped(now, Model.Close)));
      Record(before, At(ip, Stamped(now, Model.Close)));
    }

    method Cleanup(now: int)
      requires Valid() && Clock() <= now
      modifies this
      ensures Valid() && log == old(log) + [Sweep(Stamped(now, Model.Clean))] && admitted == old(admitted)
      ensures connections == Apply(Model.Stepper(Cfg()), old(connections), Sweep(Stamped(now, Model.Clean)))
    {
      ghost var before := connections;
      var left := connections.Keys;
      while left != {}
        invariant left <= connections.Keys <= before.Keys
        invariant forall ip | ip in connections :: connections[ip] == before[ip]
        invariant forall ip | ip in before :: ip in connections <==> ip in left || now - before[ip].lastReset <= ttl
        invariant log == old(log) && admitted == old(admitted)
        decreases left
      {
        var ip :| ip in left;
        if now - connections[ip].lastReset > ttl {
          connections := connections - {ip};
        }
        left := left - {ip};
      }
      assert connections == Swept(Model.Stepper(Cfg()), before, Stamped(now, Model.Clean));
      Record(before, Sweep(Stamped(now, Model.Clean)));
    }

    /** Over the whole life of the object: admissions minus releases of one IP. */
    lemma LifetimeBound(ip: string)
      requires Valid() && Model.Sane(Cfg())
      ensures |HitsOf(admitted, ip)| - Theory.Closes(Project(log, ip))
           <= Allowance(maxPerIP, ttl + 1, Clock() - startedAt)
    {
      var ops := Project(log, ip);
      ProjectionIsTimed(startedAt, log, ip);
      Theory.LiveBound(Cfg(), startedAt, ops);
      AllowanceGrows(maxPerIP, ttl + 1, End(startedAt, ops) - startedAt, Clock() - startedAt);
    }
  }
}
