/** Keyed stores.

    Every admission controller of the server is a map from a client key to a small
    record, changed by two kinds of locked step: an operation on one key and a sweep
    over all entries.  This module describes such a store once, for any per-key step
    function, and proves that what happens to one key is the run of the operations
    addressed to that key together with the sweeps: keys never influence each other.
 */
module Keyed {
  datatype Option<+T> = None | Some(value: T)

  /** One locked step of a store: an operation on one key, or a sweep over the entries. */
  datatype Event<+K, +Op> = At(key: K, op: Op) | Sweep(op: Op)

  function Get<K, E>(m: map<K, E>, k: K): Option<E> {
    if k in m then Some(m[k]) else None
  }

  function Put<K, E>(m: map<K, E>, k: K, e: Option<E>): map<K, E> {
    match e
    case Some(v) => m[k := v]
    case None => m - {k}
  }

  /** A sweep applies the per-key step to each entry; entries stepped to None are dropped. */
  function Swept<K, E, Op>(step: (Option<E>, Op) -> Option<E>, m: map<K, E>, op: Op): map<K, E> {
    map k | k in m && step(Some(m[k]), op).Some? :: step(Some(m[k]), op).value
  }

  function Apply<K, E, Op>(step: (Option<E>, Op) -> Option<E>, m: map<K, E>, ev: Event<K, Op>): map<K, E> {
    match ev
    case At(k, op) => Put(m, k, step(Get(m, k), op))
    case Sweep(op) => Swept(step, m, op)
  }

  /** The store after a sequence of steps, starting empty. */
  function RunAll<K, E, Op>(step: (Option<E>, Op) -> Option<E>, evs: seq<Event<K, Op>>): map<K, E> {
    if evs == [] then map[] else Apply(step, RunAll(step, evs[..|evs| - 1]), evs[|evs| - 1])
  }

  /** One key's entry after a sequence of operations on it. */
  function Run<E, Op>(step: (Option<E>, Op) -> Option<E>, e: Option<E>, ops: seq<Op>): Option<E> {
    if ops == [] then e else step(Run(step, e, ops[..|ops| - 1]), ops[|ops| - 1])
  }

  /** The operations of a run that concern key k: its own and every sweep. */
  function Project<K(==), Op>(evs: seq<Event<K, Op>>, k: K): seq<Op> {
    if evs == [] then []
    else
      var init := Project(evs[..|evs| - 1], k);
      var ev := evs[|evs| - 1];
      if ev.Sweep? || ev.key == k then init + [ev.op] else init
  }

  /** The zero time value: year 1, in nanoseconds from 1970. */
  const ZERO_TIME := -62_135_596_800_000_000_000

  /** An operation together with the clock reading of its critical section. */
  datatype Stamped<+Op> = Stamped(now: int, act: Op)

  /** The clock after a run that began at start: the reading of its last operation. */
  function End<Op>(start: int, ops: seq<Stamped<Op>>): int {
    if ops == [] then start else ops[|ops| - 1].now
  }

  /** Clock readings never go backwards along a run that began at start. */
  ghost predicate Timed<Op>(start: int, ops: seq<Stamped<Op>>) {
    ops == [] || (Timed(start, ops[..|ops| - 1]) && End(start, ops[..|ops| - 1]) <= ops[|ops| - 1].now)
  }

  /** The clock readings of the operations of a run that pass a test in the state they meet. */
  function Times<E, Op>(step: (Option<E>, Stamped<Op>) -> Option<E>, test: (Option<E>, Stamped<Op>) -> bool,
                        e: Option<E>, ops: seq<Stamped<Op>>): seq<int> {
    if ops == [] then []
    else
      var init, op := ops[..|ops| - 1], ops[|ops| - 1];
      var before := Times(step, test, e, init);
      if test(Run(step, e, init), op) then before + [op.now] else before
  }

  /** A sweep finds nothing to do at an absent key. */
  ghost predicate SweepsIgnoreAbsent<K, E, Op>(step: (Option<E>, Op) -> Option<E>, evs: seq<Event<K, Op>>) {
    forall i | 0 <= i < |evs| && evs[i].Sweep? :: step(None, evs[i].op) == None
  }

  /** Isolation of keys: the entry of k after any run of the whole store is the result of
      running k's own operations and the sweeps alone. */
  lemma {:induction false} KeysAreIsolated<K, E, Op>(step: (Option<E>, Op) -> Option<E>, evs: seq<Event<K, Op>>, k: K)
    requires SweepsIgnoreAbsent(step, evs)
    ensures Get(RunAll(step, evs), k) == Run(step, None, Project(evs, k))
  {
    if evs == [] {
    } else {
      var init, ev := evs[..|evs| - 1], evs[|evs| - 1];
      KeysAreIsolated(step, init, k);
      if ev.Sweep? || ev.key == k {
        var ops := Project(init, k);
        assert (ops + [ev.op])[..|ops|] == ops;
      }
    }
  }

  /** A run split in two: the second part starts from the entry the first one left. */
  lemma {:induction false} RunAppend<E, Op>(step: (Option<E>, Op) -> Option<E>, e: Option<E>, a: seq<Op>, b: seq<Op>)
    ensures Run(step, e, a + b) == Run(step, Run(step, e, a), b)
  {
    if b == [] {
      assert a + b == a;
    } else {
      var init := b[..|b| - 1];
      RunAppend(step, e, a, init);
      assert (a + b)[..|a + b| - 1] == a + init;
    }
  }

  /** A run one operation longer. */
  lemma OneMore<E, Op>(step: (Option<E>, Stamped<Op>) -> Option<E>, test: (Option<E>, Stamped<Op>) -> bool,
                       e: Option<E>, ops: seq<Stamped<Op>>, op: Stamped<Op>)
    ensures Run(step, e, ops + [op]) == step(Run(step, e, ops), op)
    ensures Times(step, test, e, ops + [op])
         == Times(step, test, e, ops) + if test(Run(step, e, ops), op) then [op.now] else []
  {
    assert (ops + [op])[..|ops|] == ops;
  }

  lemma TimedOneMore<Op>(start: int, ops: seq<Stamped<Op>>, op: Stamped<Op>)
    ensures Timed(start, ops + [op]) <==> Timed(start, ops) && End(start, ops) <= op.now
  {
    assert (ops + [op])[..|ops|] == ops;
  }

  lemma {:induction false} TimedStart<Op>(start: int, ops: seq<Stamped<Op>>)
    requires Timed(start, ops)
    ensures start <= End(start, ops)
  {
    if ops == [] {
    } else {
      TimedStart(start, ops[..|ops| - 1]);
    }
  }

  lemma {:induction false} TimedLater<Op>(start: int, later: int, ops: seq<Stamped<Op>>)
    requires start <= later && Timed(later, ops)
    ensures Timed(start, ops) && (ops != [] ==> End(start, ops) == End(later, ops))
  {
    if ops == [] {
    } else {
      TimedLater(start, later, ops[..|ops| - 1]);
    }
  }

  lemma {:induction false} TimedAppend<Op>(start: int, a: seq<Stamped<Op>>, b: seq<Stamped<Op>>)
    requires Timed(start, a) && Timed(End(start, a), b)
    ensures Timed(start, a + b) && End(start, a + b) == End(End(start, a), b)
  {
    if b == [] {
      assert a + b == a;
    } else {
      var init := b[..|b| - 1];
      TimedAppend(start, a, init);
      assert (a + b)[..|a + b| - 1] == a + init;
    }
  }

  lemma {:induction false} TimesAppend<E, Op>(step: (Option<E>, Stamped<Op>) -> Option<E>,
                                              test: (Option<E>, Stamped<Op>) -> bool,
                                              e: Option<E>, a: seq<Stamped<Op>>, b: seq<Stamped<Op>>)
    ensures Times(step, test, e, a + b) == Times(step, test, e, a) + Times(step, test, Run(step, e, a), b)
  {
    if b == [] {
      assert a + b == a;
    } else {
      var init := b[..|b| - 1];
      TimesAppend(step, test, e, a, init);
      assert (a + b)[..|a + b| - 1] == a + init;
      RunAppend(step, e, a, init);
    }
  }

  // ----- the same operation several times -----

  function Repeated<Op>(op: Op, n: nat): (ops: seq<Op>)
    ensures |ops| == n
  {
    if n == 0 then [] else Repeated(op, n - 1) + [op]
  }

  /** The operation passes the test in state i and leads to the next. */
  ghost predicate Advances<E, Op>(step: (Option<E>, Stamped<Op>) -> Option<E>,
                                  test: (Option<E>, Stamped<Op>) -> bool,
                                  state: nat -> Option<E>, op: Stamped<Op>, i: nat) {
    test(state(i), op) && step(state(i), op) == state(i + 1)
  }

  lemma OneHit<E, Op>(step: (Option<E>, Stamped<Op>) -> Option<E>, test: (Option<E>, Stamped<Op>) -> bool,
                      e: Option<E>, ops: seq<Stamped<Op>>, op: Stamped<Op>, s: Option<E>, hits: nat)
    requires Run(step, e, ops) == s && |Times(step, test, e, ops)| == hits && test(s, op)
    ensures Run(step, e, ops + [op]) == step(s, op)
    ensures |Times(step, test, e, ops + [op])| == hits + 1
  {
    OneMore(step, test, e, ops, op);
  }

  /** n operations that all pass the test lead through n + 1 states. */
  lemma {:induction false} RepeatedRuns<E, Op>(step: (Option<E>, Stamped<Op>) -> Option<E>,
                                               test: (Option<E>, Stamped<Op>) -> bool,
                                               state: nat -> Option<E>, op: Stamped<Op>, n: nat)
    requires forall i: nat :: i < n ==> Advances(step, test, state, op, i)
    ensures Run(step, state(0), Repeated(op, n)) == state(n)
    ensures |Times(step, test, state(0), Repeated(op, n))| == n
  {
    if n == 0 {
    } else {
      RepeatedRuns(step, test, state, op, n - 1);
      assert Advances(step, test, state, op, n - 1);
      OneHit(step, test, state(0), Repeated(op, n - 1), op, state(n - 1), n - 1);
    }
  }

  lemma {:induction false} RepeatedIsTimed<Op>(op: Stamped<Op>, n: nat)
    ensures Timed(op.now, Repeated(op, n)) && End(op.now, Repeated(op, n)) == op.now
  {
    if n == 0 {
    } else {
      RepeatedIsTimed(op, n - 1);
      TimedOneMore(op.now, Repeated(op, n - 1), op);
    }
  }

  // ----- histories of a store object -----

  ghost predicate TimedEvents<K, Op>(start: int, evs: seq<Event<K, Stamped<Op>>>) {
    evs == []
    || (TimedEvents(start, evs[..|evs| - 1]) && LastReading(start, evs[..|evs| - 1]) <= evs[|evs| - 1].op.now)
  }

  function LastReading<K, Op>(start: int, evs: seq<Event<K, Stamped<Op>>>): int {
    if evs == [] then start else evs[|evs| - 1].op.now
  }

  lemma ProjectOneMore<K, Op>(evs: seq<Event<K, Op>>, ev: Event<K, Op>, k: K)
    ensures Project(evs + [ev], k) == if ev.Sweep? || ev.key == k then Project(evs, k) + [ev.op] else Project(evs, k)
  {
    assert (evs + [ev])[..|evs|] == evs;
  }

  /** A map at clock reading now and the history that led to it, from time 0 on. */
  ghost predicate Tracks<K, E, Op>(step: (Option<E>, Stamped<Op>) -> Option<E>, view: map<K, E>,
                                   evs: seq<Event<K, Stamped<Op>>>, now: int) {
    && view == RunAll(step, evs)
    && SweepsIgnoreAbsent(step, evs)
    && TimedEvents(0, evs) && LastReading(0, evs) <= now
  }

  lemma TracksOneMore<K, E, Op>(step: (Option<E>, Stamped<Op>) -> Option<E>, view: map<K, E>,
                                evs: seq<Event<K, Stamped<Op>>>, now: int, ev: Event<K, Stamped<Op>>)
    requires Tracks(step, view, evs, now) && ev.op.now == now && (ev.Sweep? ==> step(None, ev.op) == None)
    ensures Tracks(step, Apply(step, view, ev), evs + [ev], now)
  {
    assert (evs + [ev])[..|evs|] == evs;
  }

  lemma TracksOn<K, E, Op>(step: (Option<E>, Stamped<Op>) -> Option<E>, view: map<K, E>,
                           evs: seq<Event<K, Stamped<Op>>>, now: int, later: int)
    requires Tracks(step, view, evs, now) && now <= later
    ensures Tracks(step, view, evs + [], later)
  {
    assert evs + [] == evs;
  }

  lemma {:induction false} ProjectionIsTimed<K, Op>(start: int, evs: seq<Event<K, Stamped<Op>>>, k: K)
    requires TimedEvents(start, evs)
    ensures Timed(start, Project(evs, k))
    ensures End(start, Project(evs, k)) <= LastReading(start, evs)
  {
    if evs == [] {
    } else {
      var init, ev := evs[..|evs| - 1], evs[|evs| - 1];
      ProjectionIsTimed(start, init, k);
      TimedOneMore(start, Project(init, k), ev.op);
    }
  }

  /** The recorded clock readings that belong to key k. */
  function HitsOf<K(==)>(hits: seq<(K, int)>, k: K): seq<int> {
    if hits == [] then []
    else
      var before := HitsOf(hits[..|hits| - 1], k);
      if hits[|hits| - 1].0 == k then before + [hits[|hits| - 1].1] else before
  }

  /** A store object's history: its content is the run of its log, and the recorded hits of
      each key are the operations of that key's own run that pass the test. */
  ghost predicate Recorded<K(!new), E, Op>(
    step: (Option<E>, Stamped<Op>) -> Option<E>, test: (Option<E>, Stamped<Op>) -> bool,
    view: map<K, E>, log: seq<Event<K, Stamped<Op>>>, hits: seq<(K, int)>)
  {
    && view == RunAll(step, log)
    && SweepsIgnoreAbsent(step, log)
    && forall k :: HitsOf(hits, k) == Times(step, test, None, Project(log, k))
  }

  /** Recording one more step. */
  lemma RecordStep<K(!new), E(!new), Op>(
    step: (Option<E>, Stamped<Op>) -> Option<E>, test: (Option<E>, Stamped<Op>) -> bool,
    view: map<K, E>, log: seq<Event<K, Stamped<Op>>>, hits: seq<(K, int)>, ev: Event<K, Stamped<Op>>)
    requires Recorded(step, test, view, log, hits)
    requires ev.Sweep? ==> step(None, ev.op) == None && forall e :: !test(e, ev.op)
    ensures var hit := ev.At? && test(Get(view, ev.key), ev.op);
      Recorded(step, test, Apply(step, view, ev), log + [ev], if hit then hits + [(ev.key, ev.op.now)] else hits)
  {
    var log' := log + [ev];
    assert log'[..|log'| - 1] == log;
    var hit := ev.At? && test(Get(view, ev.key), ev.op);
    var hits' := if hit then hits + [(ev.key, ev.op.now)] else hits;
    forall k ensures HitsOf(hits', k) == Times(step, test, None, Project(log', k)) {
      KeysAreIsolated(step, log, k);
      var ops := Project(log, k);
      assert (ops + [ev.op])[..|ops|] == ops;
      if hit {
        assert hits'[..|hits'| - 1] == hits;
      }
    }
  }
}
