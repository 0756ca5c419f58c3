/** The per-key failure tracker, as a step function. */
module FailedAttemptsModel {
  import opened Keyed

  /** blockTime in nanoseconds. */
  datatype Config = Config(maxAttempts: int, blockTime: int)

  datatype Info = Info(count: int, lastFail: int, blockedAt: int)

  /** Query is IsBlocked, which may delete the entry; Clean is the periodic cleanup. */
  datatype Op = Fail | Query | Reset | Clean

  function Failed(cfg: Config, e: Option<Info>, now: int): Info {
    // A new record holds zero times.
    var info := if e.Some? then e.value else Info(0, ZERO_TIME, ZERO_TIME);
    Info(info.count + 1, now, if info.count + 1 >= cfg.maxAttempts then now else info.blockedAt)
  }

  predicate Blocked(cfg: Config, e: Option<Info>, now: int) {
    e.Some? && e.value.count >= cfg.maxAttempts && now - e.value.blockedAt < cfg.blockTime
  }

  predicate Expired(cfg: Config, info: Info, now: int) {
    || (info.count >= cfg.maxAttempts && now - info.blockedAt > cfg.blockTime)
    || now - info.lastFail > cfg.blockTime
  }

  function Step(cfg: Config, e: Option<Info>, op: Stamped<Op>): Option<Info> {
    match op.act
    case Fail => Some(Failed(cfg, e, op.now))
    case Query =>
      if e.Some? && !Blocked(cfg, e, op.now) && op.now - e.value.lastFail > cfg.blockTime then None else e
    case Reset => None
    case Clean => if e.Some? && Expired(cfg, e.value, op.now) then None else e
  }

  function Stepper(cfg: Config): (Option<Info>, Stamped<Op>) -> Option<Info> {
    (e, op) => Step(cfg, e, op)
  }

  /** The IsBlocked calls that answer true. */
  function Blocker(cfg: Config): (Option<Info>, Stamped<Op>) -> bool {
    (e: Option<Info>, op: Stamped<Op>) => op.act.Query? && Blocked(cfg, e, op.now)
  }

  function State(cfg: Config, e: Option<Info>, ops: seq<Stamped<Op>>): Option<Info> {
    Run(Stepper(cfg), e, ops)
  }

  /** GetBlockTimeRemaining. */
  function Remaining(cfg: Config, e: Option<Info>, now: int): int {
    if e.Some? && e.value.count >= cfg.maxAttempts && cfg.blockTime - (now - e.value.blockedAt) > 0
    then cfg.blockTime - (now - e.value.blockedAt) else 0
  }

  /** The same tracker without deletions: only ResetFailures forgets. */
  function Keeper(cfg: Config): (Option<Info>, Stamped<Op>) -> Option<Info> {
    (e: Option<Info>, op: Stamped<Op>) => if op.act.Fail? || op.act.Reset? then Step(cfg, e, op) else e
  }
}

/** What the failure tracker guarantees over whole runs of one key. */
module FailedAttemptsTheory {
  import opened Keyed
  import opened FailedAttemptsModel

  /** The history the tracker is judged by: times of the failures since the last reset. */
  function Failures(ops: seq<Stamped<Op>>): seq<int> {
    if ops == [] then []
    else
      var before, op := Failures(ops[..|ops| - 1]), ops[|ops| - 1];
      match op.act
      case Fail => before + [op.now]
      case Reset => []
      case _ => before
  }

  /** At least maxAttempts failures, the latest less than blockTime ago. */
  ghost predicate Offends(cfg: Config, failures: seq<int>, t: int) {
    failures != [] && |failures| >= cfg.maxAttempts && t - failures[|failures| - 1] < cfg.blockTime
  }

  /** The last n failures follow each other with gaps of at most gap. */
  ghost predicate CloseSuffix(failures: seq<int>, n: nat, gap: int) {
    n <= |failures| && forall i :: |failures| - n < i < |failures| ==> failures[i] - failures[i - 1] <= gap
  }

  ghost predicate Inv(cfg: Config, e: Option<Info>, failures: seq<int>, now: int) {
    match e
    case None => failures == [] || now - failures[|failures| - 1] > cfg.blockTime
    case Some(info) =>
      && failures != []
      && info.lastFail == failures[|failures| - 1] <= now
      && 1 <= info.count <= |failures|
      && (info.count >= cfg.maxAttempts ==> info.blockedAt == info.lastFail)
      && forall n: nat :: CloseSuffix(failures, n, cfg.blockTime) ==> n <= info.count
  }

  lemma FailureKeepsInv(cfg: Config, e: Option<Info>, failures: seq<int>, now: int)
    requires Inv(cfg, e, failures, now)
    ensures Inv(cfg, Some(Failed(cfg, e, now)), failures + [now], now)
  {
    var failures' := failures + [now];
    forall n: nat | CloseSuffix(failures', n, cfg.blockTime)
      ensures n <= Failed(cfg, e, now).count
    {
      if n >= 2 {
        assert failures'[|failures'| - 1] - failures'[|failures'| - 2] <= cfg.blockTime;
        forall i | |failures| - (n - 1) < i < |failures|
          ensures failures[i] - failures[i - 1] <= cfg.blockTime
        {
          assert failures'[i] - failures'[i - 1] <= cfg.blockTime;
        }
        assert CloseSuffix(failures, n - 1, cfg.blockTime);
      }
    }
  }

  lemma {:induction false} RunKeepsInv(cfg: Config, t0: int, ops: seq<Stamped<Op>>)
    requires Timed(t0, ops)
    ensures Inv(cfg, State(cfg, None, ops), Failures(ops), End(t0, ops))
  {
    if ops == [] {
    } else {
      var init, op := ops[..|ops| - 1], ops[|ops| - 1];
      RunKeepsInv(cfg, t0, init);
      if op.act.Fail? {
        FailureKeepsInv(cfg, State(cfg, None, init), Failures(init), op.now);
      }
    }
  }

  /** Completeness: maxAttempts failures in a row with gaps of at most blockTime, not reset since,
      block the key until blockTime after the latest, whatever deletions ran in between. */
  lemma RepeatOffendersAreBlocked(cfg: Config, t0: int, ops: seq<Stamped<Op>>, t: int)
    requires Timed(t0, ops) && End(t0, ops) <= t && cfg.maxAttempts >= 1
    requires var f := Failures(ops);
      CloseSuffix(f, cfg.maxAttempts, cfg.blockTime) && t - f[|f| - 1] < cfg.blockTime
    ensures Blocked(cfg, State(cfg, None, ops), t)
  {
    RunKeepsInv(cfg, t0, ops);
  }

  /** Soundness: a blocked key has failed at least maxAttempts times since its last reset, the
      latest less than blockTime ago. */
  lemma OnlyRepeatOffendersAreBlocked(cfg: Config, t0: int, ops: seq<Stamped<Op>>, t: int)
    requires Timed(t0, ops) && End(t0, ops) <= t
    requires Blocked(cfg, State(cfg, None, ops), t)
    ensures Offends(cfg, Failures(ops), t)
  {
    RunKeepsInv(cfg, t0, ops);
  }

  lemma {:induction false} KeeperCountsAll(cfg: Config, ops: seq<Stamped<Op>>)
    ensures var f, e := Failures(ops), Run(Keeper(cfg), None, ops);
      if f == [] then e.None?
      else
        && e.Some? && e.value.count == |f| && e.value.lastFail == f[|f| - 1]
        && (|f| >= cfg.maxAttempts ==> e.value.blockedAt == f[|f| - 1])
  {
    if ops == [] {
    } else {
      KeeperCountsAll(cfg, ops[..|ops| - 1]);
    }
  }

  /** Refinement: with its deletions the tracker blocks only when the one that never deletes would. */
  lemma DeletionsNeverBlock(cfg: Config, t0: int, ops: seq<Stamped<Op>>, t: int)
    requires Timed(t0, ops) && End(t0, ops) <= t
    ensures Blocked(cfg, State(cfg, None, ops), t) ==> Blocked(cfg, Run(Keeper(cfg), None, ops), t)
  {
    if Blocked(cfg, State(cfg, None, ops), t) {
      OnlyRepeatOffendersAreBlocked(cfg, t0, ops, t);
      KeeperCountsAll(cfg, ops);
    }
  }

  // ----- exactly what is remembered -----

  /** The failures the tracker still counts: those since the last reset, and since the last IsBlocked
      or cleanup that came more than blockTime after the latest of them. */
  function Remembered(cfg: Config, ops: seq<Stamped<Op>>): seq<int> {
    if ops == [] then []
    else
      var before, op := Remembered(cfg, ops[..|ops| - 1]), ops[|ops| - 1];
      match op.act
      case Fail => before + [op.now]
      case Reset => []
      case _ => if before != [] && op.now - before[|before| - 1] > cfg.blockTime then [] else before
  }

  /** The stored record is determined by the remembered failures. */
  function RecordOf(cfg: Config, f: seq<int>): Option<Info> {
    if f == [] then None
    else Some(Info(|f|, f[|f| - 1], if |f| >= cfg.maxAttempts then f[|f| - 1] else ZERO_TIME))
  }

  lemma {:induction false} EntryIsRemembered(cfg: Config, ops: seq<Stamped<Op>>)
    ensures State(cfg, None, ops) == RecordOf(cfg, Remembered(cfg, ops))
  {
    if ops == [] {
    } else {
      EntryIsRemembered(cfg, ops[..|ops| - 1]);
    }
  }

  /** Exactly when a key is blocked, on every run and for all settings. */
  lemma BlockedExactly(cfg: Config, ops: seq<Stamped<Op>>, t: int)
    ensures Blocked(cfg, State(cfg, None, ops), t) <==> Offends(cfg, Remembered(cfg, ops), t)
  {
    EntryIsRemembered(cfg, ops);
  }

  lemma KeeperBlocksExactly(cfg: Config, ops: seq<Stamped<Op>>, t: int)
    ensures Blocked(cfg, Run(Keeper(cfg), None, ops), t) <==> Offends(cfg, Failures(ops), t)
  {
    KeeperCountsAll(cfg, ops);
  }

  /** What is remembered are the latest failures since the last reset, and everything is forgotten
      only once the latest of them is out of date. */
  ghost predicate Recent(cfg: Config, remembered: seq<int>, failures: seq<int>, now: int) {
    && |remembered| <= |failures|
    && remembered == failures[|failures| - |remembered|..]
    && (failures != [] && remembered == [] ==> now - failures[|failures| - 1] > cfg.blockTime)
  }

  lemma {:induction false} RememberedIsRecent(cfg: Config, t0: int, ops: seq<Stamped<Op>>)
    requires Timed(t0, ops)
    ensures Recent(cfg, Remembered(cfg, ops), Failures(ops), End(t0, ops))
  {
    if ops == [] {
    } else {
      RememberedIsRecent(cfg, t0, ops[..|ops| - 1]);
    }
  }

  /** Exactly when the deletions make no difference: the never-deleting tracker would not block
      either, or enough failures are still remembered. */
  lemma AgreeExactly(cfg: Config, t0: int, ops: seq<Stamped<Op>>, t: int)
    requires Timed(t0, ops) && End(t0, ops) <= t
    ensures Blocked(cfg, State(cfg, None, ops), t) == Blocked(cfg, Run(Keeper(cfg), None, ops), t)
       <==> !Offends(cfg, Failures(ops), t) || |Remembered(cfg, ops)| >= cfg.maxAttempts
  {
    RememberedIsRecent(cfg, t0, ops);
    BlockedExactly(cfg, ops, t);
    KeeperBlocksExactly(cfg, ops, t);
  }

  /** The deletions never make a difference, on any run. */
  ghost predicate DeletionsAreHarmless(cfg: Config) {
    forall t0: int, ops: seq<Stamped<Op>>, t: int :: Timed(t0, ops) && End(t0, ops) <= t ==>
      Blocked(cfg, State(cfg, None, ops), t) == Blocked(cfg, Run(Keeper(cfg), None, ops), t)
  }

  /** A failure, a cleanup once it is out of date, and n failures at that moment. */
  function ForgottenFailure(cfg: Config, n: nat): seq<Stamped<Op>> {
    if n == 0 then [Stamped(0, Fail)] + [Stamped(cfg.blockTime + 1, Clean)]
    else ForgottenFailure(cfg, n - 1) + [Stamped(cfg.blockTime + 1, Fail)]
  }

  lemma {:induction false} OneIsForgotten(cfg: Config, n: nat)
    requires cfg.blockTime >= 0
    ensures var ops := ForgottenFailure(cfg, n);
      && Timed(0, ops) && End(0, ops) == cfg.blockTime + 1
      && |Remembered(cfg, ops)| == n && |Failures(ops)| == n + 1
      && (n > 0 ==> Failures(ops)[n] == cfg.blockTime + 1)
  {
    if n == 0 {
      var first := [Stamped(0, Fail)];
      assert first[..0] == [] && Timed(0, first) && Remembered(cfg, first) == [0] && Failures(first) == [0];
      assert (first + [Stamped(cfg.blockTime + 1, Clean)])[..1] == first;
    } else {
      var before := ForgottenFailure(cfg, n - 1);
      OneIsForgotten(cfg, n - 1);
      assert ForgottenFailure(cfg, n)[..|before|] == before;
    }
  }

  /** Forgetting can unblock a key exactly when more than one failure is asked for and blocks last
      at all: one failure forgotten by cleanup, then maxAttempts - 1 more. */
  lemma DeletionsCanUnblock(cfg: Config)
    ensures DeletionsAreHarmless(cfg) <==> cfg.maxAttempts <= 1 || cfg.blockTime <= 0
  {
    if cfg.maxAttempts <= 1 || cfg.blockTime <= 0 {
      forall t0: int, ops: seq<Stamped<Op>>, t: int | Timed(t0, ops) && End(t0, ops) <= t
        ensures Blocked(cfg, State(cfg, None, ops), t) == Blocked(cfg, Run(Keeper(cfg), None, ops), t)
      {
        RememberedIsRecent(cfg, t0, ops);
        AgreeExactly(cfg, t0, ops, t);
        FailuresArePast(t0, ops);
      }
    } else {
      var n := cfg.maxAttempts - 1;
      OneIsForgotten(cfg, n);
      AgreeExactly(cfg, 0, ForgottenFailure(cfg, n), cfg.blockTime + 1);
    }
  }

  lemma {:induction false} FailuresArePast(t0: int, ops: seq<Stamped<Op>>)
    requires Timed(t0, ops)
    ensures Failures(ops) != [] ==> Failures(ops)[|Failures(ops)| - 1] <= End(t0, ops)
  {
    if ops == [] {
    } else {
      FailuresArePast(t0, ops[..|ops| - 1]);
    }
  }

  /** While the remaining time has not passed, nothing but a reset lifts the block. */
  lemma {:induction false} BlockLasts(cfg: Config, e: Option<Info>, t: int, ops: seq<Stamped<Op>>, u: int)
    requires Timed(t, ops) && End(t, ops) <= u < t + Remaining(cfg, e, t)
    requires forall i :: 0 <= i < |ops| ==> !ops[i].act.Reset?
    requires e.Some? && e.value.blockedAt <= e.value.lastFail <= t
    ensures var s := State(cfg, e, ops);
      && Blocked(cfg, s, u)
      && s.value.blockedAt >= e.value.blockedAt && s.value.blockedAt <= s.value.lastFail
  {
    if ops == [] {
    } else {
      var init := ops[..|ops| - 1];
      TimedStart(t, ops);
      TimedStart(t, init);
      BlockLasts(cfg, e, t, init, ops[|ops| - 1].now);
      BlockLasts(cfg, e, t, init, u);
    }
  }

  /** Without failures an entry is kept as it is or deleted. */
  lemma {:induction false} EntryKeptOrDeleted(cfg: Config, e: Option<Info>, ops: seq<Stamped<Op>>)
    requires forall i :: 0 <= i < |ops| ==> !ops[i].act.Fail?
    ensures State(cfg, e, ops).None? || State(cfg, e, ops) == e
  {
    if ops == [] {
    } else {
      EntryKeptOrDeleted(cfg, e, ops[..|ops| - 1]);
    }
  }

  /** GetBlockTimeRemaining is exact: on any reachable entry, the key stays blocked for exactly
      that long from now on, as long as it neither fails again nor is reset. */
  lemma RemainingIsExact(cfg: Config, t0: int, past: seq<Stamped<Op>>, t: int, ops: seq<Stamped<Op>>, u: int)
    requires Timed(t0, past) && End(t0, past) <= t && Timed(t, ops) && End(t, ops) <= u
    requires forall i :: 0 <= i < |ops| ==> !ops[i].act.Fail? && !ops[i].act.Reset?
    ensures var e := State(cfg, None, past);
      Blocked(cfg, State(cfg, e, ops), u) <==> u < t + Remaining(cfg, e, t)
  {
    var e := State(cfg, None, past);
    RunKeepsInv(cfg, t0, past);
    if u < t + Remaining(cfg, e, t) {
      TimedStart(t, ops);
      BlockLasts(cfg, e, t, ops, u);
    } else {
      EntryKeptOrDeleted(cfg, e, ops);
    }
  }
}
