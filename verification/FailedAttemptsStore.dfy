/** The FailedAttempts object: a map of mutable records, counted, deleted and swept in place. */
module FailedAttemptsStore {
  import opened Keyed
  import Model = FailedAttemptsModel
  import Theory = FailedAttemptsTheory

  class AttemptInfo {
    var count: int
    var lastFail: int
    var blockedAt: int

    constructor ()
      ensures Value() == Model.Info(0, ZERO_TIME, ZERO_TIME)
    {
      count, lastFail, blockedAt := 0, ZERO_TIME, ZERO_TIME;
    }

    function Value(): Model.Info
      reads this
    {
      Model.Info(count, lastFail, blockedAt)
    }
  }

  class FailedAttempts {
    var attempts: map<string, AttemptInfo>
    const maxAttempts: int
    const blockTime: int

    /** Every locked step so far, and the (key, time) of every IsBlocked that returned true. */
    ghost var log: seq<Event<string, Stamped<Model.Op>>>
    ghost var refused: seq<(string, int)>
    ghost const startedAt: int

    ghost function Cfg(): Model.Config {
      Model.Config(maxAttempts, blockTime)
    }

    ghost function View(): map<string, Model.Info>
      reads this, attempts.Values
    {
      map ip | ip in attempts :: attempts[ip].Value()
    }

    ghost function Clock(): int
      reads this
    {
      LastReading(startedAt, log)
    }

    ghost predicate Unshared()
      reads this
    {
      forall i, j | i in attempts && j in attempts && i != j :: attempts[i] != attempts[j]
    }

    ghost predicate Valid()
      reads this, attempts.Values
    {
      && Unshared()
      && TimedEvents(startedAt, log)
      && Recorded(Model.Stepper(Cfg()), Model.Blocker(Cfg()), View(), log, refused)
    }

    constructor (maxAttempts: int, blockTime: int, ghost now: int)
      ensures Valid() && fresh(attempts.Values) && log == [] && refused == [] && startedAt == now
      ensures Cfg() == Model.Config(maxAttempts, blockTime)
    {
      attempts := map[];
      this.maxAttempts, this.blockTime := maxAttempts, blockTime;
      log, refused, startedAt := [], [], now;
    }

    ghost method Record(before: map<string, Model.Info>, ev: Event<string, Stamped<Model.Op>>)
      requires Clock() <= ev.op.now && TimedEvents(startedAt, log)
      requires Recorded(Model.Stepper(Cfg()), Model.Blocker(Cfg()), before, log, refused)
      requires ev.Sweep? ==> ev.op.act.Clean?
      modifies this`log, this`refused
      ensures log == old(log) + [ev] && TimedEvents(startedAt, log)
      ensures refused == if ev.At? && ev.op.act.Query? && Model.Blocked(Cfg(), Get(before, ev.key), ev.op.now)
                         then old(refused) + [(ev.key, ev.op.now)] else old(refused)
      ensures Recorded(Model.Stepper(Cfg()), Model.Blocker(Cfg()),
                       Apply(Model.Stepper(Cfg()), before, ev), log, refused)
    {
      RecordStep(Model.Stepper(Cfg()), Model.Blocker(Cfg()), before, log, refused, ev);
      if ev.At? && ev.op.act.Query? && Model.Blocked(Cfg(), Get(before, ev.key), ev.op.now) {
        refused := refused + [(ev.key, ev.op.now)];
      }
      log := log + [ev];
      assert log[..|log| - 1] == old(log);
    }

    /** The locked section of RegisterFailure, on the records alone. */
    method CountFailure(ip: string, now: int)
      requires Unshared()
      modifies this`attempts, attempts.Values
      ensures Unshared() && fresh(attempts.Values - old(attempts.Values))
      ensures View() == old(View())[ip := Model.Failed(Cfg(), Get(old(View()), ip), now)]
    {
      ghost var before := View();
      var info: AttemptInfo;
      if ip in attempts {
        info := attempts[ip];
      } else {
        info := new AttemptInfo();
        attempts := attempts[ip := info];
      }
      info.count := info.count + 1;
      info.lastFail := now;
      if info.count >= maxAttempts {
        info.blockedAt := now;
      }
      assert View() == before[ip := info.Value()];
    }

    method RegisterFailure(ip: string, now: int)
      requires Valid() && Clock() <= now
      modifies this, attempts.Values
      ensures Valid() && fresh(attempts.Values - old(attempts.Values))
      ensures log == old(log) + [At(ip, Stamped(now, Model.Fail))] && refused == old(refused)
      ensures View() == Apply(Model.Stepper(Cfg()), old(View()), At(ip, Stamped(now, Model.Fail)))
    {
      ghost var before := View();
      CountFailure(ip, now);
      Record(before, At(ip, Stamped(now, Model.Fail)));
    }

    /** The locked section of IsBlocked, on the records alone. */
    method Answer(ip: string, now: int) returns (blocked: bool)
      requires Unshared()
      modifies this`attempts
      ensures Unshared() && attempts.Values <= old(attempts.Values)
      ensures blocked == Model.Blocked(Cfg(), Get(old(View()), ip), now)
      ensures View() == Put(old(View()), ip, Model.Step(Cfg(), Get(old(View()), ip), Stamped(now, Model.Query)))
    {
      ghost var before := View();
      blocked := false;
      if ip in attempts {
        var info := attempts[ip];
        if info.count >= maxAttempts && now - info.blockedAt < blockTime {
          blocked := true;
        } else if now - info.lastFail > blockTime {
          attempts := attempts - {ip};
        }
      }
      assert View() == if ip in attempts then before else before - {ip};
    }

    method IsBlocked(ip: string, now: int) returns (blocked: bool)
      requires Valid() && Clock() <= now
      modifies this
      ensures Valid() && attempts.Values <= old(attempts.Values)
      ensures log == old(log) + [At(ip, Stamped(now, Model.Query))]
      ensures blocked == Model.Blocked(Cfg(), Get(old(View()), ip), now)
      ensures refused == if blocked then old(refused) + [(ip, now)] else old(refused)
      ensures View() == Apply(Model.Stepper(Cfg()), old(View()), At(ip, Stamped(now, Model.Query)))
    {
      ghost var before := View();
      blocked := Answer(ip, now);
      Record(before, At(ip, Stamped(now, Model.Query)));
    }

    method ResetFailures(ip: string, now: int)
      requires Valid() && Clock() <= now
      modifies this
      ensures Valid() && attempts.Values <= old(attempts.Values)
      ensures log == old(log) + [At(ip, Stamped(now, Model.Reset))] && refused == old(refused)
      ensures View() == Apply(Model.Stepper(Cfg()), old(View()), At(ip, Stamped(now, Model.Reset)))
    {
      ghost var before := View();
      attempts := attempts - {ip};
      assert View() == before - {ip};
      Record(before, At(ip, Stamped(now, Model.Reset)));
    }

    /** The loop of one cleanup tick: exactly the expired records go. */
    method DropExpired(now: int)
      modifies this`attempts
      ensures attempts.Keys <= old(attempts.Keys)
      ensures forall ip | ip in old(attempts) ::
          ip in attempts <==> !Model.Expired(Cfg(), old(attempts)[ip].Value(), now)
      ensures forall ip | ip in attempts :: attempts[ip] == old(attempts)[ip]
    {
      ghost var was := attempts;
      var left := attempts.Keys;
      while left != {}
        invariant left <= attempts.Keys <= was.Keys
        invariant forall ip | ip in attempts :: attempts[ip] == was[ip]
        invariant forall ip | ip in was ::
            ip in attempts <==> ip in left || !Model.Expired(Cfg(), was[ip].Value(), now)
        decreases left
      {
        var ip :| ip in left;
        var info := attempts[ip];
        if (info.count >= maxAttempts && now - info.blockedAt > blockTime) || now - info.lastFail > blockTime {
          attempts := attempts - {ip};
        }
        left := left - {ip};
      }
    }

    /** One cleanup tick's effect on the whole map. */
    method SweepExpired(now: int)
      modifies this`attempts
      ensures View() == Swept(Model.Stepper(Cfg()), old(View()), Stamped(now, Model.Clean))
      ensures forall ip | ip in attempts :: ip in old(attempts) && attempts[ip] == old(attempts)[ip]
    {
      ghost var before := View();
      DropExpired(now);
      assert View() == Swept(Model.Stepper(Cfg()), before, Stamped(now, Model.Clean));
    }

    method Cleanup(now: int)
      requires Valid() && Clock() <= now
      modifies this`attempts, this`log, this`refused
      ensures Valid() && attempts.Values <= old(attempts.Values)
      ensures log == old(log) + [Sweep(Stamped(now, Model.Clean))] && refused == old(refused)
      ensures View() == Apply(Model.Stepper(Cfg()), old(View()), Sweep(Stamped(now, Model.Clean)))
    {
      ghost var before := View();
      SweepExpired(now);
      Record(before, Sweep(Stamped(now, Model.Clean)));
    }

    /** The remembered failures, never more than the failures since the last reset. */
    method GetFailureCount(ip: string) returns (n: int)
      requires Valid()
      ensures n == if ip in View() then View()[ip].count else 0
      ensures n == |Theory.Remembered(Cfg(), Project(log, ip))| <= |Theory.Failures(Project(log, ip))|
    {
      CurrentEntry(ip);
      n := if ip in attempts then attempts[ip].count else 0;
    }

    /** The caller may rely on it: positive exactly while the key is blocked. */
    method GetBlockTimeRemaining(ip: string, now: int) returns (d: int)
      requires Valid()
      ensures d == Model.Remaining(Cfg(), Get(View(), ip), now)
      ensures d > 0 <==> Model.Blocked(Cfg(), Get(View(), ip), now)
      ensures d >= 0
    {
      d := 0;
      if ip in attempts && attempts[ip].count >= maxAttempts {
        var remaining := blockTime - (now - attempts[ip].blockedAt);
        if remaining > 0 {
          d := remaining;
        }
      }
    }

    lemma CurrentEntry(ip: string)
      requires Valid()
      ensures var ops := Project(log, ip);
        && Get(View(), ip) == Theory.RecordOf(Cfg(), Theory.Remembered(Cfg(), ops))
        && Theory.Recent(Cfg(), Theory.Remembered(Cfg(), ops), Theory.Failures(ops), End(startedAt, ops))
    {
      ProjectionIsTimed(startedAt, log, ip);
      KeysAreIsolated(Model.Stepper(Cfg()), log, ip);
      Theory.EntryIsRemembered(Cfg(), Project(log, ip));
      Theory.RememberedIsRecent(Cfg(), startedAt, Project(log, ip));
    }

    /** What the next IsBlocked(ip) will answer, exactly, and how it relates to all the failures
        registered for ip since its last reset. */
    lemma LifetimeBounds(ip: string, now: int)
      requires Valid() && Clock() <= now && maxAttempts >= 1
      ensures var ops := Project(log, ip);
        var f := Theory.Failures(ops);
        var blocked := Model.Blocked(Cfg(), Get(View(), ip), now);
        && (blocked <==> Theory.Offends(Cfg(), Theory.Remembered(Cfg(), ops), now))
        && (blocked ==> Theory.Offends(Cfg(), f, now))
        && (Theory.CloseSuffix(f, maxAttempts, blockTime) && now - f[|f| - 1] < blockTime ==> blocked)
    {
      ProjectionIsTimed(startedAt, log, ip);
      KeysAreIsolated(Model.Stepper(Cfg()), log, ip);
      var ops, f := Project(log, ip), Theory.Failures(Project(log, ip));
      Theory.BlockedExactly(Cfg(), ops, now);
      if Model.Blocked(Cfg(), Get(View(), ip), now) {
        Theory.OnlyRepeatOffendersAreBlocked(Cfg(), startedAt, ops, now);
      }
      if Theory.CloseSuffix(f, maxAttempts, blockTime) && now - f[|f| - 1] < blockTime {
        Theory.RepeatOffendersAreBlocked(Cfg(), startedAt, ops, now);
      }
    }
  }
}
