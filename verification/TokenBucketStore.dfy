/** The TokenBucket object: a map of mutable buckets, refilled and swept in place. */
module TokenBucketStore {
  import opened Arithmetic
  import opened Keyed
  import Model = TokenBucketModel
  import Theory = TokenBucketTheory
  import Ideal = IdealBucket

  class Bucket {
    var tokens: int
    var lastUpdate: int

    constructor (tokens: int, lastUpdate: int)
      ensures Value() == Model.Bucket(tokens, lastUpdate)
    {
      this.tokens, this.lastUpdate := tokens, lastUpdate;
    }

    function Value(): Model.Bucket
      reads this
    {
      Model.Bucket(tokens, lastUpdate)
    }
  }

  class TokenBucket {
    var tokens: map<string, Bucket>
    const capacity: int
    const fillRate: real
    const cleanupInterval: int

    /** Every locked step so far, and the (key, time) of every Take that returned true. */
    ghost var log: seq<Event<string, Stamped<Model.Op>>>
    ghost var granted: seq<(string, int)>
    ghost const startedAt: int

    ghost function Cfg(): Model.Config {
      Model.Config(capacity, fillRate, cleanupInterval)
    }

    ghost function View(): map<string, Model.Bucket>
      reads this, tokens.Values
    {
      map ip | ip in tokens :: tokens[ip].Value()
    }

    /** The last clock reading. */
    ghost function Clock(): int
      reads this
    {
      LastReading(startedAt, log)
    }

    /** No two keys share a bucket object, and the whole past of the object is on record. */
    ghost predicate Valid()
      reads this, tokens.Values
    {
      && Unshared()
      && TimedEvents(startedAt, log)
      && Recorded(Model.Stepper(Cfg()), Model.Granter(Cfg()), View(), log, granted)
    }

    constructor (capacity: int, fillRate: real, ghost now: int)
      ensures Valid() && fresh(tokens.Values) && log == [] && granted == [] && startedAt == now
      ensures Cfg() == Model.Config(capacity, fillRate, 300_000_000_000)
    {
      tokens := map[];
      this.capacity, this.fillRate := capacity, fillRate;
      cleanupInterval := 300_000_000_000;
      log, granted, startedAt := [], [], now;
    }

    /** refillBucket */
    method RefillBucket(b: Bucket, now: int)
      modifies b
      ensures b.Value() == Model.Refilled(Cfg(), old(b.Value()), now)
    {
      var newTokens := Model.Truncate(Model.Accrued(fillRate, now - b.lastUpdate));
      if newTokens > 0 {
        b.tokens := Min(b.tokens + newTokens, capacity);
        b.lastUpdate := now;
      }
    }

    /** Records a step whose effect on the view has just been established. */
    ghost method Record(before: map<string, Model.Bucket>, ev: Event<string, Stamped<Model.Op>>)
      requires Clock() <= ev.op.now && TimedEvents(startedAt, log)
      requires Recorded(Model.Stepper(Cfg()), Model.Granter(Cfg()), before, log, granted)
      requires ev.Sweep? ==> ev.op.act.Refill? || ev.op.act.Clean?
      modifies this`log, this`granted
      ensures log == old(log) + [ev] && TimedEvents(startedAt, log)
      ensures granted == if ev.At? && Model.Grants(Cfg(), Get(before, ev.key), ev.op)
                         then old(granted) + [(ev.key, ev.op.now)] else old(granted)
      ensures Recorded(Model.Stepper(Cfg()), Model.Granter(Cfg()),
                       Apply(Model.Stepper(Cfg()), before, ev), log, granted)
    {
      RecordStep(Model.Stepper(Cfg()), Model.Granter(Cfg()), before, log, granted, ev);
      if ev.At? && Model.Grants(Cfg(), Get(before, ev.key), ev.op) {
        granted := granted + [(ev.key, ev.op.now)];
      }
      log := log + [ev];
      assert log[..|log| - 1] == old(log);
    }

    ghost predicate Unshared()
      reads this
    {
      forall i, j | i in tokens && j in tokens && i != j :: tokens[i] != tokens[j]
    }

    /** The locked section of Take, on the buckets alone. */
    method OpenAndSpend(ip: string, now: int) returns (ok: bool)
      requires Unshared()
      modifies this`tokens, tokens.Values
      ensures Unshared() && fresh(tokens.Values - old(tokens.Values))
      ensures var b := Model.Opened(Cfg(), Get(old(View()), ip), now);
        && ok == (b.tokens > 0)
        && View() == old(View())[ip := if ok then b.(tokens := b.tokens - 1) else b]
    {
      ghost var before := View();
      var b: Bucket;
      if ip in tokens {
        b := tokens[ip];
      } else {
        b := new Bucket(capacity, now);
        tokens := tokens[ip := b];
      }
      RefillBucket(b, now);
      ok := b.tokens > 0;
      if ok {
        b.tokens := b.tokens - 1;
      }
      assert View() == before[ip := b.Value()];
    }

    /** Every entry of the object satisfies the invariant of the runs. */
    lemma EntryInv(ip: string, now: int)
      requires Valid() && Clock() <= now && Model.Sane(Cfg())
      ensures Theory.Inv(Cfg(), Get(View(), ip), now)
    {
      ProjectionIsTimed(startedAt, log, ip);
      KeysAreIsolated(Model.Stepper(Cfg()), log, ip);
      Theory.RunKeepsInv(Cfg(), None, startedAt, Project(log, ip));
    }

    /** What a Take will find. */
    lemma TakeForetold(ip: string, now: int)
      requires Valid() && Clock() <= now && Model.Sane(Cfg())
      ensures Model.Grants(Cfg(), Get(View(), ip), Stamped(now, Model.Take))
         <==> Theory.Available(Cfg(), Get(View(), ip), now) >= 1
      ensures Get(View(), ip).Some? ==>
        Theory.Available(Cfg(), Get(View(), ip), now) == Model.Refilled(Cfg(), View()[ip], now).tokens
    {
      EntryInv(ip, now);
      Theory.TakeIsGrantedExactly(Cfg(), Get(View(), ip), now);
      if ip in View() {
        Theory.WorthIsRefilled(Cfg(), View()[ip], now);
      }
    }

    method Take(ip: string, now: int) returns (ok: bool)
      requires Valid() && Clock() <= now
      modifies this, tokens.Values
      ensures Valid() && fresh(tokens.Values - old(tokens.Values))
      ensures log == old(log) + [At(ip, Stamped(now, Model.Take))]
      ensures ok == Model.Grants(Cfg(), Get(old(View()), ip), Stamped(now, Model.Take))
      ensures Model.Sane(Cfg()) ==> (ok <==> Theory.Available(Cfg(), Get(old(View()), ip), now) >= 1)
      ensures granted == if ok then old(granted) + [(ip, now)] else old(granted)
      ensures View() == Apply(Model.Stepper(Cfg()), old(View()), At(ip, Stamped(now, Model.Take)))
    {
      ghost var before := View();
      if Model.Sane(Cfg()) {
        TakeForetold(ip, now);
      }
      ok := OpenAndSpend(ip, now);
      Record(before, At(ip, Stamped(now, Model.Take)));
    }

    method GetTokens(ip: string, now: int) returns (n: int)
      requires Valid() && Clock() <= now
      modifies this`log, this`granted, tokens.Values
      ensures Valid() && granted == old(granted)
      ensures log == old(log) + [At(ip, Stamped(now, Model.Peek))]
      ensures View() == Apply(Model.Stepper(Cfg()), old(View()), At(ip, Stamped(now, Model.Peek)))
      ensures n == if ip in View() then View()[ip].tokens else capacity
      ensures Model.Sane(Cfg()) ==> n == Theory.Available(Cfg(), Get(old(View()), ip), now)
    {
      ghost var before := View();
      if Model.Sane(Cfg()) {
        TakeForetold(ip, now);
      }
      n := capacity;
      if ip in tokens {
        RefillBucket(tokens[ip], now);
        n := tokens[ip].tokens;
      }
      Record(before, At(ip, Stamped(now, Model.Peek)));
      assert View() == Apply(Model.Stepper(Cfg()), before, At(ip, Stamped(now, Model.Peek)));
    }

    /** The loop of refillAll: every bucket is refilled in place, none twice. */
    method RefillEach(now: int)
      requires Unshared()
      modifies tokens.Values
      ensures View() == Swept(Model.Stepper(Cfg()), old(View()), Stamped(now, Model.Refill))
    {
      ghost var before := View();
      var left := tokens.Keys;
      while left != {}
        invariant left <= tokens.Keys
        invariant forall ip | ip in tokens ::
            tokens[ip].Value() == if ip in left then before[ip] else Model.Refilled(Cfg(), before[ip], now)
        decreases left
      {
        var ip :| ip in left;
        RefillBucket(tokens[ip], now);
        left := left - {ip};
      }
    }

    /** Each bucket keeps all that accrued but less than one token. */
    ghost predicate RefilledFrom(before: map<string, Model.Bucket>, after: map<string, Model.Bucket>, now: int) {
      && before.Keys == after.Keys
      && forall ip | ip in before :: Theory.LosesLessThanOne(Cfg(), before[ip], now, after[ip])
    }

    lemma SweptIsRefilled(now: int)
      requires Valid() && Clock() <= now && Model.Sane(Cfg())
      ensures RefilledFrom(View(), Swept(Model.Stepper(Cfg()), View(), Stamped(now, Model.Refill)), now)
    {
      forall ip | ip in View()
        ensures Theory.LosesLessThanOne(Cfg(), View()[ip], now, Model.Refilled(Cfg(), View()[ip], now))
      {
        EntryInv(ip, now);
        Theory.RefillLaw(Cfg(), View()[ip], now);
      }
    }

    method RefillAll(now: int)
      requires Valid() && Clock() <= now
      modifies this`log, this`granted, tokens.Values
      ensures Valid() && granted == old(granted)
      ensures log == old(log) + [Sweep(Stamped(now, Model.Refill))]
      ensures View() == Apply(Model.Stepper(Cfg()), old(View()), Sweep(Stamped(now, Model.Refill)))
      ensures Model.Sane(Cfg()) ==> RefilledFrom(old(View()), View(), now)
    {
      ghost var before := View();
      if Model.Sane(Cfg()) {
        SweptIsRefilled(now);
      }
      RefillEach(now);
      Record(before, Sweep(Stamped(now, Model.Refill)));
    }

    /** The loop of cleanup: exactly the buckets not touched for longer than the interval go. */
    method DropStale(now: int)
      modifies this`tokens
      ensures tokens.Keys <= old(tokens.Keys)
      ensures forall ip | ip in old(tokens) ::
          ip in tokens <==> now - old(tokens)[ip].lastUpdate <= cleanupInterval
      ensures forall ip | ip in tokens :: tokens[ip] == old(tokens)[ip]
    {
      ghost var was := tokens;
      var left := tokens.Keys;
      while left != {}
        invariant left <= tokens.Keys <= was.Keys
        invariant forall ip | ip in tokens :: tokens[ip] == was[ip]
        invariant forall ip | ip in was ::
            ip in tokens <==> ip in left || now - was[ip].lastUpdate <= cleanupInterval
        decreases left
      {
        var ip :| ip in left;
        if now - tokens[ip].lastUpdate > cleanupInterval {
          tokens := tokens - {ip};
        }
        left := left - {ip};
      }
    }

    /** cleanup's effect on the whole map. */
    method SweepStale(now: int)
      modifies this`tokens
      ensures View() == Swept(Model.Stepper(Cfg()), old(View()), Stamped(now, Model.Clean))
      ensures forall ip | ip in tokens :: ip in old(tokens) && tokens[ip] == old(tokens)[ip]
    {
      ghost var before := View();
      DropStale(now);
      assert View() == Swept(Model.Stepper(Cfg()), before, Stamped(now, Model.Clean));
    }

    method Cleanup(now: int)
      requires Valid() && Clock() <= now
      modifies this`tokens, this`log, this`granted
      ensures Valid() && granted == old(granted) && tokens.Values <= old(tokens.Values)
      ensures log == old(log) + [Sweep(Stamped(now, Model.Clean))]
      ensures View() == Apply(Model.Stepper(Cfg()), old(View()), Sweep(Stamped(now, Model.Clean)))
    {
      ghost var before := View();
      SweepStale(now);
      Record(before, Sweep(Stamped(now, Model.Clean)));
    }

    /** Over the whole life of the object, whatever the other keys did: the Takes of one key that
        returned true stay within its burst plus what accrued. */
    lemma LifetimeBound(ip: string)
      requires Valid() && Model.Sane(Cfg()) && Theory.SweepsAreHarmless(Cfg(), None, Project(log, ip))
      ensures |HitsOf(granted, ip)| as real
           <= capacity as real + Model.Accrued(fillRate, Clock() - startedAt)
    {
      var ops := Project(log, ip);
      ProjectionIsTimed(startedAt, log, ip);
      Theory.SlackIsFraction(fillRate);
      Theory.GrantBound(Cfg(), None, startedAt, capacity as real, ops);
      Ideal.AccruedMonotone(fillRate, End(startedAt, ops) - startedAt, Clock() - startedAt);
    }

    /** ... and, with no condition on the sweeps, never fall short of an ideal bucket of half the
        fill rate that is offered the same Takes. */
    lemma LifetimeService(ip: string)
      requires Valid() && Model.Sane(Cfg())
      ensures var full := Ideal.Level(capacity as real, startedAt);
        |HitsOf(granted, ip)| >= Ideal.Offer(capacity as real, fillRate / 2.0, full, Project(log, ip)).1
    {
      ProjectionIsTimed(startedAt, log, ip);
      Theory.HalfRateGuaranteed(Cfg(), startedAt, Project(log, ip));
    }

    /** The last refillAll on the log, or the start. */
    ghost function LastRefillAll(): int
      reads this
    {
      LastSweep(startedAt, log)
    }

    /** While refillAll comes at most r after the one before, and a token accrues within the interval
        less r, the next cleanup deletes nothing. */
    lemma CleanupDeletesNothing(r: int, now: int)
      requires Valid() && Model.Sane(Cfg()) && Theory.CleanupIsIdle(Cfg(), r)
      requires Clock() <= now && now - LastRefillAll() <= r
      ensures Swept(Model.Stepper(Cfg()), View(), Stamped(now, Model.Clean)) == View()
    {
      forall ip | ip in View()
        ensures Model.Step(Cfg(), Some(View()[ip]), Stamped(now, Model.Clean)) == Some(View()[ip])
      {
        var ops := Project(log, ip);
        KeysAreIsolated(Model.Stepper(Cfg()), log, ip);
        ProjectionIsTimed(startedAt, log, ip);
        ProjectionIsRefilled(startedAt, log, ip);
        Theory.RunRefilled(Cfg(), startedAt, ops);
        Theory.RefilledIsKept(Cfg(), Get(View(), ip), Stamped(now, Model.Clean), Theory.LastRefill(startedAt, ops), r);
      }
    }
  }

  function LastSweep<K>(start: int, evs: seq<Event<K, Stamped<Model.Op>>>): int {
    if evs == [] then start
    else
      var ev := evs[|evs| - 1];
      if ev.Sweep? && ev.op.act.Refill? then ev.op.now else LastSweep(start, evs[..|evs| - 1])
  }

  lemma {:induction false} ProjectionIsRefilled<K>(start: int, evs: seq<Event<K, Stamped<Model.Op>>>, k: K)
    requires TimedEvents(start, evs)
    ensures LastSweep(start, evs) <= Theory.LastRefill(start, Project(evs, k))
    ensures LastSweep(start, evs) <= LastReading(start, evs)
  {
    if evs == [] {
    } else {
      var init, ev := evs[..|evs| - 1], evs[|evs| - 1];
      ProjectionIsRefilled(start, init, k);
      Theory.TickingOneMore(0, start, Project(init, k), ev.op);
    }
  }
}
