/** SolvePoW: n workers searching the natural numbers by residue class, one result channel. */
module SolvePowModel {
  import opened Keyed

  /** Where a worker is.  Polling is about to look at the context, Testing about to hash j,
      Found waits to send j, Sent and the Stopped ones have returned. */
  datatype Worker =
    | Polling(j: nat)
    | Testing(j: nat)
    | Found(j: nat)
    | Sent(j: nat)
    | Stopped(j: nat)
    | StoppedFound(j: nat)

  /** What SolvePoW returns.  EmptyNil is the empty string with a nil error. */
  datatype Outcome = Solution(j: nat) | EmptyNil | NoSolution | ContextError

  datatype State = State(
    workers: seq<Worker>,
    buffer: Option<nat>,        // resultCh, capacity 1
    cancelled: bool,            // the context
    resultClosed: bool,
    errorClosed: bool,
    outcome: Option<Outcome>,
    tested: seq<nat>)           // every number hashed, in order

  datatype Action =
    | Poll(i: nat) | Test(i: nat) | Send(i: nat) | GiveUp(i: nat)
    | Cancel
    | CloseResults | CloseErrors
    | ReceiveResult | ReceiveError | ReceiveDone

  predicate Done(w: Worker) {
    w.Sent? || w.Stopped? || w.StoppedFound?
  }

  predicate AllDone(ws: seq<Worker>) {
    forall i :: 0 <= i < |ws| ==> Done(ws[i])
  }

  /** One atomic step of a worker; a step that is not enabled changes nothing. */
  function WorkerStep(ok: nat -> bool, n: nat, s: State, i: nat, a: Action): State
    requires i < |s.workers|
  {
    var w := s.workers[i];
    match a
    case Poll(_) =>
      if w.Polling? then s.(workers := s.workers[i := if s.cancelled then Stopped(w.j) else Testing(w.j)]) else s
    case Test(_) =>
      if w.Testing?
      then s.(workers := s.workers[i := if ok(w.j) then Found(w.j) else Polling(w.j + n)], tested := s.tested + [w.j])
      else s
    case Send(_) =>
      if w.Found? && s.buffer.None? then s.(workers := s.workers[i := Sent(w.j)], buffer := Some(w.j)) else s
    case GiveUp(_) =>
      if w.Found? && s.cancelled then s.(workers := s.workers[i := StoppedFound(w.j)]) else s
    case _ => s
  }

  function Step(ok: nat -> bool, n: nat, s: State, a: Action): State {
    match a
    case Cancel => s.(cancelled := true)
    case CloseResults => if AllDone(s.workers) then s.(resultClosed := true) else s
    case CloseErrors => if s.resultClosed then s.(errorClosed := true) else s
    case ReceiveResult =>
      if s.outcome.Some? then s
      else if s.buffer.Some? then s.(outcome := Some(Solution(s.buffer.value)), buffer := None)
      else if s.resultClosed then s.(outcome := Some(NoSolution))
      else s
    case ReceiveError => if s.outcome.None? && s.errorClosed then s.(outcome := Some(EmptyNil)) else s
    case ReceiveDone => if s.outcome.None? && s.cancelled then s.(outcome := Some(ContextError)) else s
    case _ => if a.i < |s.workers| then WorkerStep(ok, n, s, a.i, a) else s
  }

  function Start(n: nat): State {
    State(seq(n, i requires 0 <= i < n => Polling(i)), None, false, false, false, None, [])
  }

  /** Any schedule: any sequence of actions, with the disabled ones skipped. */
  function Exec(ok: nat -> bool, n: nat, schedule: seq<Action>): State {
    if schedule == [] then Start(n)
    else Step(ok, n, Exec(ok, n, schedule[..|schedule| - 1]), schedule[|schedule| - 1])
  }
}

/** What holds under every schedule of the search. */
module SolvePowTheory {
  import opened Arithmetic
  import opened Keyed
  import opened SolvePowModel

  predicate HasFound(w: Worker) {
    w.Found? || w.Sent? || w.StoppedFound?
  }

  /** The first number of its class a worker has not hashed. */
  function Frontier(n: nat, w: Worker): nat {
    if HasFound(w) then w.j + n else w.j
  }

  /** Worker i works on its own residue class, has met no solution before j, and j is one if it
      says so. */
  ghost predicate WorkerInv(ok: nat -> bool, n: nat, i: nat, w: Worker)
    requires n > 0
  {
    && w.j % n == i
    && (forall k: nat :: k < w.j && k % n == i ==> !ok(k))
    && (HasFound(w) ==> ok(w.j))
  }

  function SentCount(ws: seq<Worker>): nat {
    if ws == [] then 0 else SentCount(ws[..|ws| - 1]) + if ws[|ws| - 1].Sent? then 1 else 0
  }

  ghost predicate ChannelInv(n: nat, s: State) {
    && |s.workers| == n
    && (forall i :: 0 <= i < n && (s.workers[i].Stopped? || s.workers[i].StoppedFound?) ==> s.cancelled)
    && (s.buffer.Some? ==> Sent(s.buffer.value) in s.workers)
    && (s.outcome.Some? && s.outcome.value.Solution? ==> Sent(s.outcome.value.j) in s.workers)
    && SentCount(s.workers)
       == (if s.buffer.Some? then 1 else 0) + (if s.outcome.Some? && s.outcome.value.Solution? then 1 else 0)
    && (s.resultClosed ==> AllDone(s.workers))
    && (s.errorClosed ==> s.resultClosed)
    && (s.outcome == Some(NoSolution) ==> s.cancelled)
    && (s.outcome == Some(ContextError) ==> s.cancelled)
    && (s.outcome == Some(EmptyNil) ==> s.errorClosed && (s.cancelled || n == 1))
  }

  ghost predicate SearchInv(ok: nat -> bool, n: nat, s: State)
    requires n > 0
  {
    && |s.workers| == n
    && forall i :: 0 <= i < n ==> WorkerInv(ok, n, i, s.workers[i])
  }

  /** Exactly the numbers below its worker's frontier have been hashed, each once. */
  ghost predicate TestedInv(n: nat, s: State)
    requires n > 0 && |s.workers| == n
  {
    && (forall k: nat :: k in s.tested <==> k < Frontier(n, s.workers[k % n]))
    && (forall a, b :: 0 <= a < b < |s.tested| ==> s.tested[a] != s.tested[b])
  }

  lemma {:induction false} SentCountUpdate(ws: seq<Worker>, i: nat, w: Worker)
    requires i < |ws|
    ensures SentCount(ws[i := w])
         == SentCount(ws) - (if ws[i].Sent? then 1 else 0) + (if w.Sent? then 1 else 0)
  {
    var init := ws[..|ws| - 1];
    if i < |init| {
      SentCountUpdate(init, i, w);
      assert ws[i := w][..|ws| - 1] == init[i := w];
    } else {
      assert ws[i := w][..|ws| - 1] == init;
    }
  }

  lemma {:induction false} NoneSent(ws: seq<Worker>)
    ensures (forall i :: 0 <= i < |ws| ==> !ws[i].Sent?) ==> SentCount(ws) == 0
    ensures (forall i :: 0 <= i < |ws| ==> ws[i].Sent?) ==> SentCount(ws) == |ws|
  {
    if ws == [] {
    } else {
      NoneSent(ws[..|ws| - 1]);
    }
  }

  lemma WorkerChannelStep(ok: nat -> bool, n: nat, s: State, i: nat, a: Action)
    requires i < n && ChannelInv(n, s) && (a.Poll? || a.Test? || a.Send? || a.GiveUp?)
    ensures ChannelInv(n, WorkerStep(ok, n, s, i, a))
  {
    var s' := WorkerStep(ok, n, s, i, a);
    var w, w' := s.workers[i], s'.workers[i];
    if w != w' {
      SentCountUpdate(s.workers, i, w');
      assert !Done(w);
      forall j: nat | Sent(j) in s.workers
        ensures Sent(j) in s'.workers
      {
        var p :| 0 <= p < n && s.workers[p] == Sent(j);
        assert s'.workers[p] == Sent(j);
      }
      assert w' in s'.workers;
    }
  }

  lemma ChannelStep(ok: nat -> bool, n: nat, s: State, a: Action)
    requires n > 0 && ChannelInv(n, s)
    ensures ChannelInv(n, Step(ok, n, s, a))
  {
    if a.Poll? || a.Test? || a.Send? || a.GiveUp? {
      if a.i < n {
        WorkerChannelStep(ok, n, s, a.i, a);
      }
    } else {
      NoneSent(s.workers);
    }
  }

  lemma SearchStep(ok: nat -> bool, n: nat, s: State, a: Action)
    requires n > 0 && SearchInv(ok, n, s)
    ensures SearchInv(ok, n, Step(ok, n, s, a))
  {
    if a.Test? && a.i < n && s.workers[a.i].Testing? && !ok(s.workers[a.i].j) {
      var i, j := a.i, s.workers[a.i].j;
      NextInClass(n, j, j);
      forall k: nat | k < j + n && k % n == i
        ensures !ok(k)
      {
        NextInClass(n, j, k);
      }
    }
  }

  lemma TestAdvancesFrontier(ok: nat -> bool, n: nat, s: State, i: nat, k: nat)
    requires i < n && SearchInv(ok, n, s) && TestedInv(n, s) && s.workers[i].Testing?
    ensures var s' := WorkerStep(ok, n, s, i, Test(i));
      |s'.workers| == n && (k in s'.tested <==> k < Frontier(n, s'.workers[k % n]))
  {
    var j := s.workers[i].j;
    assert WorkerInv(ok, n, i, s.workers[i]);
    if k % n == i {
      NextInClass(n, j, k);
    }
  }

  lemma TestedStep(ok: nat -> bool, n: nat, s: State, a: Action)
    requires n > 0 && SearchInv(ok, n, s) && TestedInv(n, s)
    ensures TestedInv(n, Step(ok, n, s, a))
  {
    var s' := Step(ok, n, s, a);
    if a.Test? && a.i < n && s.workers[a.i].Testing? {
      assert WorkerInv(ok, n, a.i, s.workers[a.i]);
      assert s.workers[a.i].j !in s.tested;
      forall k: nat
        ensures k in s'.tested <==> k < Frontier(n, s'.workers[k % n])
      {
        TestAdvancesFrontier(ok, n, s, a.i, k);
      }
    } else {
      OthersKeepFrontiers(ok, n, s, a);
    }
  }

  lemma OthersKeepFrontiers(ok: nat -> bool, n: nat, s: State, a: Action)
    requires |s.workers| == n && !(a.Test? && a.i < n && s.workers[a.i].Testing?)
    ensures var s' := Step(ok, n, s, a);
      && |s'.workers| == n && s'.tested == s.tested
      && forall i :: 0 <= i < n ==> Frontier(n, s'.workers[i]) == Frontier(n, s.workers[i])
  {
  }

  lemma {:induction false} Invariants(ok: nat -> bool, n: nat, schedule: seq<Action>)
    requires n > 0
    ensures var s := Exec(ok, n, schedule);
      ChannelInv(n, s) && SearchInv(ok, n, s) && TestedInv(n, s)
  {
    if schedule == [] {
      StartInv(ok, n);
    } else {
      var s, a := Exec(ok, n, schedule[..|schedule| - 1]), schedule[|schedule| - 1];
      Invariants(ok, n, schedule[..|schedule| - 1]);
      ChannelStep(ok, n, s, a);
      SearchStep(ok, n, s, a);
      TestedStep(ok, n, s, a);
    }
  }

  lemma StartInv(ok: nat -> bool, n: nat)
    requires n > 0
    ensures ChannelInv(n, Start(n)) && SearchInv(ok, n, Start(n)) && TestedInv(n, Start(n))
  {
    var s := Start(n);
    NoneSent(s.workers);
    forall i | 0 <= i < n
      ensures WorkerInv(ok, n, i, s.workers[i])
    {
      DivModUnique(i, n, 0, i);
      forall k: nat | k < i
        ensures k % n == i ==> !ok(k)
      {
        LeastInClass(n, k);
      }
    }
    forall k: nat
      ensures !(k < Frontier(n, s.workers[k % n]))
    {
      LeastInClass(n, k);
    }
  }

  /** No number is hashed twice, whatever the schedule, and what has been hashed of a residue
      class is an initial segment of it. */
  lemma NothingTestedTwice(ok: nat -> bool, n: nat, schedule: seq<Action>)
    requires n > 0
    ensures var tested := Exec(ok, n, schedule).tested;
      && (forall a, b :: 0 <= a < b < |tested| ==> tested[a] != tested[b])
      && (forall k: nat, m: nat :: m in tested && k < m && k % n == m % n ==> k in tested)
  {
    Invariants(ok, n, schedule);
  }

  /** A returned solution solves the puzzle, and is the least that does in its residue class. */
  lemma SolutionIsSoundAndLeast(ok: nat -> bool, n: nat, schedule: seq<Action>, j: nat)
    requires n > 0 && Exec(ok, n, schedule).outcome == Some(Solution(j))
    ensures ok(j)
    ensures forall k: nat :: k < j && k % n == j % n ==> !ok(k)
  {
    Invariants(ok, n, schedule);
    var s := Exec(ok, n, schedule);
    var i :| 0 <= i < n && s.workers[i] == Sent(j);
    assert WorkerInv(ok, n, i, s.workers[i]);
  }

  /** Hashes spent on one residue class. */
  function TestsOf(tested: seq<nat>, n: nat, i: nat): nat
    requires n > 0
  {
    if tested == [] then 0
    else TestsOf(tested[..|tested| - 1], n, i) + if tested[|tested| - 1] % n == i then 1 else 0
  }

  ghost predicate AdvancedBy(n: nat, s: State, i: nat)
    requires i < n
  {
    |s.workers| == n && Frontier(n, s.workers[i]) == i + Multiple(TestsOf(s.tested, n, i), n)
  }

  lemma TestAdvances(ok: nat -> bool, n: nat, s: State, w: nat, i: nat)
    requires i < n && w < n && SearchInv(ok, n, s) && AdvancedBy(n, s, i) && s.workers[w].Testing?
    ensures AdvancedBy(n, WorkerStep(ok, n, s, w, Test(w)), i)
  {
    var s' := WorkerStep(ok, n, s, w, Test(w));
    var c := TestsOf(s.tested, n, i);
    assert WorkerInv(ok, n, w, s.workers[w]);
    assert s'.tested[..|s.tested|] == s.tested;
    assert Multiple(c + 1, n) == Multiple(c, n) + n;
  }

  lemma TestsStep(ok: nat -> bool, n: nat, s: State, a: Action, i: nat)
    requires i < n && SearchInv(ok, n, s) && AdvancedBy(n, s, i)
    ensures AdvancedBy(n, Step(ok, n, s, a), i)
  {
    if a.Test? && a.i < n && s.workers[a.i].Testing? {
      TestAdvances(ok, n, s, a.i, i);
    } else {
      assert Step(ok, n, s, a).tested == s.tested;
    }
  }

  lemma {:induction false} TestsAdvance(ok: nat -> bool, n: nat, schedule: seq<Action>, i: nat)
    requires i < n
    ensures AdvancedBy(n, Exec(ok, n, schedule), i)
  {
    if schedule == [] {
    } else {
      var before := schedule[..|schedule| - 1];
      TestsAdvance(ok, n, before, i);
      Invariants(ok, n, before);
      TestsStep(ok, n, Exec(ok, n, before), schedule[|schedule| - 1], i);
    }
  }

  /** Completeness: if goal solves the puzzle, its worker cannot spend goal / n + 1 hashes without
      having found a solution, at most goal. */
  lemma SolutionIsNotMissed(ok: nat -> bool, n: nat, schedule: seq<Action>, goal: nat)
    requires n > 0 && ok(goal)
    requires TestsOf(Exec(ok, n, schedule).tested, n, goal % n) >= goal / n + 1
    ensures var ws := Exec(ok, n, schedule).workers;
      goal % n < |ws| && HasFound(ws[goal % n]) && ws[goal % n].j <= goal
  {
    var s, i := Exec(ok, n, schedule), goal % n;
    TestsAdvance(ok, n, schedule, i);
    Invariants(ok, n, schedule);
    var w := s.workers[i];
    assert WorkerInv(ok, n, i, w);
    MultipleIsProduct(TestsOf(s.tested, n, i), n);
    PassedBy(goal, n, TestsOf(s.tested, n, i));
  }

  lemma Channels(ok: nat -> bool, n: nat, schedule: seq<Action>)
    requires n > 0
    ensures ChannelInv(n, Exec(ok, n, schedule))
  {
    Invariants(ok, n, schedule);
  }

  /** The anomalous results need a cancelled context, except that a single worker can lose its
      solution to the race between the two closed channels. */
  lemma AnomaliesNeedCancellation(ok: nat -> bool, n: nat, schedule: seq<Action>)
    requires n > 0
    ensures var s := Exec(ok, n, schedule);
      s.outcome.Some? && !s.outcome.value.Solution? && !s.cancelled ==> n == 1 && s.outcome.value.EmptyNil?
  {
    Channels(ok, n, schedule);
  }

  // ----- exactly when the empty string is returned without an error -----

  lemma ExecOne(ok: nat -> bool, n: nat, schedule: seq<Action>, a: Action)
    ensures Exec(ok, n, schedule + [a]) == Step(ok, n, Exec(ok, n, schedule), a)
  {
    assert (schedule + [a])[..|schedule|] == schedule;
  }

  /** A solution is in the result channel: some worker sent it. */
  lemma BufferedSolves(ok: nat -> bool, n: nat, schedule: seq<Action>)
    requires n > 0
    ensures var b := Exec(ok, n, schedule).buffer;
      b.Some? ==> ok(b.value) && forall k: nat :: k < b.value && k % n == b.value % n ==> !ok(k)
  {
    Invariants(ok, n, schedule);
    var s := Exec(ok, n, schedule);
    if s.buffer.Some? {
      var i :| 0 <= i < n && s.workers[i] == Sent(s.buffer.value);
      assert WorkerInv(ok, n, i, s.workers[i]);
    }
  }

  /** The empty result of an uncancelled search leaves a solution behind, unread. */
  lemma EmptyLosesSolution(ok: nat -> bool, n: nat, schedule: seq<Action>)
    requires n > 0
    ensures var s := Exec(ok, n, schedule);
      s.outcome == Some(EmptyNil) && !s.cancelled ==> n == 1 && s.buffer.Some? && ok(s.buffer.value)
  {
    var s := Exec(ok, n, schedule);
    Channels(ok, n, schedule);
    BufferedSolves(ok, n, schedule);
    NoneSent(s.workers);
  }

  /** The search has one worker, at w, and nothing has been cancelled, closed or returned. */
  ghost predicate Alone(s: State, w: Worker, buffer: Option<nat>) {
    && s.workers == [w] && s.buffer == buffer
    && !s.cancelled && !s.resultClosed && !s.errorClosed && s.outcome.None?
  }

  lemma AloneMoves(ok: nat -> bool, s: State, w: Worker, buffer: Option<nat>, a: Action, w': Worker)
    requires Alone(s, w, buffer)
    requires WorkerStep(ok, 1, s, 0, a).workers == s.workers[0 := w']
    requires (a == Poll(0) || a == Test(0))
    ensures Alone(Step(ok, 1, s, a), w', buffer)
  {
  }

  /** One more number is looked at and hashed. */
  function HashNext(before: seq<Action>): seq<Action> {
    before + [Poll(0)] + [Test(0)]
  }

  lemma HashOne(ok: nat -> bool, before: seq<Action>, j: nat)
    requires Alone(Exec(ok, 1, before), Polling(j), None)
    ensures ok(j) ==> Alone(Exec(ok, 1, HashNext(before)), Found(j), None)
    ensures !ok(j) ==> Alone(Exec(ok, 1, HashNext(before)), Polling(j + 1), None)
  {
    var s := Exec(ok, 1, before);
    ExecOne(ok, 1, before, Poll(0));
    AloneMoves(ok, s, Polling(j), None, Poll(0), Testing(j));
    var s' := Step(ok, 1, s, Poll(0));
    ExecOne(ok, 1, before + [Poll(0)], Test(0));
    AloneMoves(ok, s', Testing(j), None, Test(0), if ok(j) then Found(j) else Polling(j + 1));
  }

  /** A schedule that hashes the first j numbers, in vain. */
  lemma {:induction false} HashInVain(ok: nat -> bool, j: nat) returns (schedule: seq<Action>)
    requires forall i: nat :: i < j ==> !ok(i)
    ensures Alone(Exec(ok, 1, schedule), Polling(j), None)
  {
    if j == 0 {
      schedule := [];
    } else {
      var before := HashInVain(ok, j - 1);
      HashOne(ok, before, j - 1);
      schedule := HashNext(before);
    }
  }

  /** The solution is sent and the worker ends; both channels are closed; the caller picks the error
      channel. */
  function ThenLose(before: seq<Action>): seq<Action> {
    before + [Send(0)] + [CloseResults] + [CloseErrors] + [ReceiveError]
  }

  lemma FoundIsLost(ok: nat -> bool, before: seq<Action>, j: nat)
    requires Alone(Exec(ok, 1, before), Found(j), None)
    ensures var s := Exec(ok, 1, ThenLose(before));
      s.outcome == Some(EmptyNil) && !s.cancelled
  {
    var s := Exec(ok, 1, before);
    var sent := before + [Send(0)];
    ExecOne(ok, 1, before, Send(0));
    assert s.workers[0 := Sent(j)] == [Sent(j)];
    assert Alone(Exec(ok, 1, sent), Sent(j), Some(j));
    ExecOne(ok, 1, sent, CloseResults);
    ExecOne(ok, 1, sent + [CloseResults], CloseErrors);
    ExecOne(ok, 1, sent + [CloseResults] + [CloseErrors], ReceiveError);
  }

  lemma {:induction false} FirstSolution(ok: nat -> bool, j: nat) returns (first: nat)
    requires ok(j)
    ensures ok(first) && forall i: nat :: i < first ==> !ok(i)
  {
    if forall i: nat :: i < j ==> !ok(i) {
      first := j;
    } else {
      var i: nat :| i < j && ok(i);
      first := FirstSolution(ok, i);
    }
  }

  /** Some schedule without cancellation returns the empty string and no error. */
  ghost predicate CanReturnEmpty(ok: nat -> bool, n: nat) {
    exists schedule :: Exec(ok, n, schedule).outcome == Some(EmptyNil) && !Exec(ok, n, schedule).cancelled
  }

  lemma OneWorkerCanReturnEmpty(ok: nat -> bool, j: nat)
    requires ok(j)
    ensures CanReturnEmpty(ok, 1)
  {
    var first := FirstSolution(ok, j);
    var before := HashInVain(ok, first);
    HashOne(ok, before, first);
    FoundIsLost(ok, HashNext(before), first);
    assert Exec(ok, 1, ThenLose(HashNext(before))).outcome == Some(EmptyNil);
  }

  /** Exactly when a search that nobody cancels can come back empty without an error: with a single
      worker, and only after that worker has found a solution. */
  lemma EmptyResultExactly(ok: nat -> bool, n: nat)
    requires n > 0
    ensures CanReturnEmpty(ok, n) <==> n == 1 && exists j: nat :: ok(j)
  {
    if CanReturnEmpty(ok, n) {
      var schedule :| Exec(ok, n, schedule).outcome == Some(EmptyNil) && !Exec(ok, n, schedule).cancelled;
      EmptyLosesSolution(ok, n, schedule);
    } else if n == 1 && exists j: nat :: ok(j) {
      var j: nat :| ok(j);
      OneWorkerCanReturnEmpty(ok, j);
    }
  }

  // ----- a solution can always be returned -----

  /** The search is over, nobody cancelled it, and it returned a number that solves the puzzle. */
  ghost predicate Solved(ok: nat -> bool, s: State) {
    !s.cancelled && s.outcome.Some? && s.outcome.value.Solution? && ok(s.outcome.value.j)
  }

  /** The search goes on: nobody cancelled it and nothing was returned. */
  ghost predicate Running(s: State) {
    !s.cancelled && s.outcome.None?
  }

  /** Some continuation of the schedule returns a solution. */
  ghost predicate CanSucceed(ok: nat -> bool, n: nat, before: seq<Action>) {
    exists more :: Solved(ok, Exec(ok, n, before + more))
  }

  lemma SucceedsLater(ok: nat -> bool, n: nat, before: seq<Action>, a: Action)
    requires CanSucceed(ok, n, before + [a])
    ensures CanSucceed(ok, n, before)
  {
    hide Exec;
    var more :| Solved(ok, Exec(ok, n, before + [a] + more));
    assert before + [a] + more == before + ([a] + more);
  }

  lemma BufferIsReturned(ok: nat -> bool, n: nat, before: seq<Action>)
    requires n > 0 && Running(Exec(ok, n, before)) && Exec(ok, n, before).buffer.Some?
    ensures CanSucceed(ok, n, before)
  {
    BufferedSolves(ok, n, before);
    ExecOne(ok, n, before, ReceiveResult);
    assert Solved(ok, Exec(ok, n, before + [ReceiveResult]));
  }

  lemma {:induction false} SentIsCounted(ws: seq<Worker>, i: nat)
    requires i < |ws| && ws[i].Sent?
    ensures SentCount(ws) >= 1
  {
    if i == |ws| - 1 {
    } else {
      SentIsCounted(ws[..|ws| - 1], i);
    }
  }

  /** While nothing has been cancelled or returned, a worker that has found a solution is waiting to
      send it, or one is in the channel. */
  lemma FoundWaits(ok: nat -> bool, n: nat, before: seq<Action>, i: nat)
    requires i < n && Running(Exec(ok, n, before)) && Exec(ok, n, before).buffer.None?
    ensures var ws := Exec(ok, n, before).workers;
      i < |ws| && (HasFound(ws[i]) ==> ws[i].Found?)
  {
    var ws := Exec(ok, n, before).workers;
    Channels(ok, n, before);
    if ws[i].Sent? {
      SentIsCounted(ws, i);
    }
  }

  lemma SendsFound(ok: nat -> bool, n: nat, before: seq<Action>, i: nat)
    requires i < n && Running(Exec(ok, n, before)) && Exec(ok, n, before).buffer.None?
    requires i < |Exec(ok, n, before).workers| && Exec(ok, n, before).workers[i].Found?
    ensures var s := Exec(ok, n, before + [Send(i)]);
      Running(s) && s.buffer.Some?
  {
    ExecOne(ok, n, before, Send(i));
  }

  /** Whatever the schedule so far: once some worker has found a solution, one can be returned. */
  lemma FoundIsReturned(ok: nat -> bool, n: nat, before: seq<Action>, i: nat)
    requires i < n && Running(Exec(ok, n, before))
    requires i < |Exec(ok, n, before).workers| && HasFound(Exec(ok, n, before).workers[i])
    ensures CanSucceed(ok, n, before)
  {
    hide Step;
    if Exec(ok, n, before).buffer.Some? {
      BufferIsReturned(ok, n, before);
    } else {
      FoundWaits(ok, n, before, i);
      SendsFound(ok, n, before, i);
      BufferIsReturned(ok, n, before + [Send(i)]);
      SucceedsLater(ok, n, before, Send(i));
    }
  }

  /** Worker i is about to look at the context or to hash j, and j may still lead it to goal. */
  ghost predicate OnTheWay(ok: nat -> bool, n: nat, s: State, goal: nat, j: nat, polling: bool)
    requires n > 0
  {
    && Running(s) && |s.workers| == n && j <= goal && j % n == goal % n
    && s.workers[goal % n] == if polling then Polling(j) else Testing(j)
  }

  lemma Polls(ok: nat -> bool, n: nat, s: State, goal: nat, j: nat)
    requires n > 0 && OnTheWay(ok, n, s, goal, j, true)
    ensures OnTheWay(ok, n, Step(ok, n, s, Poll(goal % n)), goal, j, false)
  {
  }

  lemma Tests(ok: nat -> bool, n: nat, s: State, goal: nat, j: nat)
    requires n > 0 && OnTheWay(ok, n, s, goal, j, false) && ok(goal)
    ensures var s' := Step(ok, n, s, Test(goal % n));
      if ok(j) then Running(s') && |s'.workers| == n && HasFound(s'.workers[goal % n])
      else j < goal && OnTheWay(ok, n, s', goal, j + n, true)
  {
    NextInClass(n, j, goal);
  }

  lemma {:induction false} WayLeadsToSolution(ok: nat -> bool, n: nat, before: seq<Action>, goal: nat, j: nat,
                                              polling: bool)
    requires n > 0 && ok(goal) && OnTheWay(ok, n, Exec(ok, n, before), goal, j, polling)
    ensures CanSucceed(ok, n, before)
    decreases goal - j, polling
  {
    hide Step, Exec;
    var i, s := goal % n, Exec(ok, n, before);
    if polling {
      Polls(ok, n, s, goal, j);
      ExecOne(ok, n, before, Poll(i));
      WayLeadsToSolution(ok, n, before + [Poll(i)], goal, j, false);
      SucceedsLater(ok, n, before, Poll(i));
    } else {
      Tests(ok, n, s, goal, j);
      ExecOne(ok, n, before, Test(i));
      if ok(j) {
        FoundIsReturned(ok, n, before + [Test(i)], i);
      } else {
        WayLeadsToSolution(ok, n, before + [Test(i)], goal, j + n, true);
      }
      SucceedsLater(ok, n, before, Test(i));
    }
  }

  /** No schedule can spoil the search: if any number solves the puzzle, then as long as nobody cancels
      and nothing has been returned, some continuation returns a solution. */
  lemma SolutionStaysReachable(ok: nat -> bool, n: nat, before: seq<Action>, goal: nat)
    requires n > 0 && ok(goal) && Running(Exec(ok, n, before))
    ensures CanSucceed(ok, n, before)
  {
    var s, i := Exec(ok, n, before), goal % n;
    Invariants(ok, n, before);
    var w := s.workers[i];
    assert WorkerInv(ok, n, i, w);
    hide Exec, Step;
    if HasFound(w) {
      FoundIsReturned(ok, n, before, i);
    } else {
      WayLeadsToSolution(ok, n, before, goal, w.j, w.Polling?);
    }
  }

  /** Some schedule that nobody cancels returns a solution. */
  ghost predicate CanBeSolved(ok: nat -> bool, n: nat) {
    exists schedule :: Solved(ok, Exec(ok, n, schedule))
  }

  /** Exactly when the search can succeed: when some number solves the puzzle. */
  lemma SolvedExactly(ok: nat -> bool, n: nat)
    requires n > 0
    ensures CanBeSolved(ok, n) <==> exists j: nat :: ok(j)
  {
    if CanBeSolved(ok, n) {
      var schedule :| Solved(ok, Exec(ok, n, schedule));
      assert ok(Exec(ok, n, schedule).outcome.value.j);
    }
    if exists j: nat :: ok(j) {
      var goal: nat :| ok(goal);
      SolutionStaysReachable(ok, n, [], goal);
      var more :| Solved(ok, Exec(ok, n, [] + more));
    }
  }

  // ----- cancellation -----

  /** Whatever the schedule so far, a cancelled search that has not returned can return at once, with the
      context's error. */
  lemma CancelledReturns(ok: nat -> bool, n: nat, before: seq<Action>)
    requires Exec(ok, n, before).outcome.None?
    ensures Exec(ok, n, before + [Cancel] + [ReceiveDone]).outcome == Some(ContextError)
  {
    ExecOne(ok, n, before, Cancel);
    ExecOne(ok, n, before + [Cancel], ReceiveDone);
  }

  function TestingCount(ws: seq<Worker>): nat {
    if ws == [] then 0 else TestingCount(ws[..|ws| - 1]) + if ws[|ws| - 1].Testing? then 1 else 0
  }

  lemma {:induction false} TestingUpdate(ws: seq<Worker>, i: nat, w: Worker)
    requires i < |ws|
    ensures TestingCount(ws[i := w])
         == TestingCount(ws) - (if ws[i].Testing? then 1 else 0) + (if w.Testing? then 1 else 0)
  {
    var init := ws[..|ws| - 1];
    if i < |init| {
      TestingUpdate(init, i, w);
      assert ws[i := w][..|ws| - 1] == init[i := w];
    } else {
      assert ws[i := w][..|ws| - 1] == init;
    }
  }

  lemma {:induction false} TestingBound(ws: seq<Worker>)
    ensures TestingCount(ws) <= |ws|
  {
    if ws == [] {
    } else {
      TestingBound(ws[..|ws| - 1]);
    }
  }

  /** Hashes done and about to be done do not grow once the context is cancelled. */
  lemma CancelledStep(ok: nat -> bool, n: nat, s: State, a: Action)
    requires s.cancelled
    ensures var s' := Step(ok, n, s, a);
      s'.cancelled && |s'.tested| + TestingCount(s'.workers) <= |s.tested| + TestingCount(s.workers)
  {
    var s' := Step(ok, n, s, a);
    if (a.Poll? || a.Test? || a.Send? || a.GiveUp?) && a.i < |s.workers| {
      TestingUpdate(s.workers, a.i, s'.workers[a.i]);
      assert s.workers[a.i := s.workers[a.i]] == s.workers;
    }
  }

  lemma {:induction false} CancelledSearchWindsDown(ok: nat -> bool, n: nat, before: seq<Action>, more: seq<Action>)
    requires Exec(ok, n, before).cancelled
    ensures var s, s' := Exec(ok, n, before), Exec(ok, n, before + more);
      s'.cancelled && |s'.tested| + TestingCount(s'.workers) <= |s.tested| + TestingCount(s.workers)
  {
    hide Step;
    if more == [] {
      assert before + more == before;
    } else {
      var init, a := more[..|more| - 1], more[|more| - 1];
      CancelledSearchWindsDown(ok, n, before, init);
      ExecOne(ok, n, before + init, a);
      CancelledStep(ok, n, Exec(ok, n, before + init), a);
      assert before + more == before + init + [a];
    }
  }

  /** Once the context is cancelled, the n workers together compute at most n more hashes. */
  lemma CancelledSearchStops(ok: nat -> bool, n: nat, before: seq<Action>, more: seq<Action>)
    requires n > 0 && Exec(ok, n, before).cancelled
    ensures |Exec(ok, n, before + more).tested| <= |Exec(ok, n, before).tested| + n
  {
    CancelledSearchWindsDown(ok, n, before, more);
    Channels(ok, n, before);
    TestingBound(Exec(ok, n, before).workers);
  }

  /** Cancelled, nothing returned, and the first k workers have ended; the channel is as it was. */
  ghost predicate Ending(s: State, n: nat, k: nat, buffer: Option<nat>) {
    && s.cancelled && s.outcome.None? && |s.workers| == n && s.buffer == buffer
    && forall i :: 0 <= i < k && i < n ==> Done(s.workers[i])
  }

  /** Some continuation of the schedule leads there. */
  ghost predicate CanEnd(ok: nat -> bool, n: nat, before: seq<Action>, k: nat, buffer: Option<nat>) {
    exists more :: Ending(Exec(ok, n, before + more), n, k, buffer)
  }

  lemma EndsLater(ok: nat -> bool, n: nat, before: seq<Action>, a: Action, k: nat, buffer: Option<nat>)
    requires CanEnd(ok, n, before + [a], k, buffer)
    ensures CanEnd(ok, n, before, k, buffer)
  {
    hide Exec;
    var more :| Ending(Exec(ok, n, before + [a] + more), n, k, buffer);
    assert before + [a] + more == before + ([a] + more);
  }

  lemma FoundGivesUp(ok: nat -> bool, n: nat, s: State, k: nat, buffer: Option<nat>)
    requires k < n && Ending(s, n, k, buffer) && s.workers[k].Found?
    ensures Ending(Step(ok, n, s, GiveUp(k)), n, k + 1, buffer)
  {
  }

  lemma PollingStops(ok: nat -> bool, n: nat, s: State, k: nat, buffer: Option<nat>)
    requires k < n && Ending(s, n, k, buffer) && s.workers[k].Polling?
    ensures Ending(Step(ok, n, s, Poll(k)), n, k + 1, buffer)
  {
  }

  lemma TestingGoesOn(ok: nat -> bool, n: nat, s: State, k: nat, buffer: Option<nat>)
    requires k < n && Ending(s, n, k, buffer) && s.workers[k].Testing?
    ensures var s' := Step(ok, n, s, Test(k));
      Ending(s', n, k, buffer) && (s'.workers[k].Found? || s'.workers[k].Polling?)
  {
  }

  /** One worker ends: it finishes its hash, sees that the context is cancelled, and returns. */
  lemma WorkerEnds(ok: nat -> bool, n: nat, before: seq<Action>, k: nat, buffer: Option<nat>)
    requires k < n && Ending(Exec(ok, n, before), n, k, buffer)
    ensures CanEnd(ok, n, before, k + 1, buffer)
  {
    hide Exec, Step;
    var s := Exec(ok, n, before);
    if s.workers[k].Testing? {
      TestingGoesOn(ok, n, s, k, buffer);
      ExecOne(ok, n, before, Test(k));
      WaitingWorkerEnds(ok, n, before + [Test(k)], k, buffer);
      EndsLater(ok, n, before, Test(k), k + 1, buffer);
    } else {
      WaitingWorkerEnds(ok, n, before, k, buffer);
    }
  }

  lemma WaitingWorkerEnds(ok: nat -> bool, n: nat, before: seq<Action>, k: nat, buffer: Option<nat>)
    requires k < n && Ending(Exec(ok, n, before), n, k, buffer) && !Exec(ok, n, before).workers[k].Testing?
    ensures CanEnd(ok, n, before, k + 1, buffer)
  {
    hide Exec, Step;
    var s := Exec(ok, n, before);
    if s.workers[k].Found? {
      FoundGivesUp(ok, n, s, k, buffer);
      ExecOne(ok, n, before, GiveUp(k));
      assert Ending(Exec(ok, n, before + [GiveUp(k)]), n, k + 1, buffer);
    } else if s.workers[k].Polling? {
      PollingStops(ok, n, s, k, buffer);
      ExecOne(ok, n, before, Poll(k));
      assert Ending(Exec(ok, n, before + [Poll(k)]), n, k + 1, buffer);
    } else {
      assert before + [] == before;
      assert Ending(Exec(ok, n, before + []), n, k + 1, buffer);
    }
  }

  lemma {:induction false} WorkersEnd(ok: nat -> bool, n: nat, before: seq<Action>, k: nat, buffer: Option<nat>)
    requires k <= n && Ending(Exec(ok, n, before), n, 0, buffer)
    ensures CanEnd(ok, n, before, k, buffer)
  {
    hide Exec, Step;
    if k == 0 {
      assert before + [] == before;
      assert Ending(Exec(ok, n, before + []), n, 0, buffer);
    } else {
      WorkersEnd(ok, n, before, k - 1, buffer);
      var more :| Ending(Exec(ok, n, before + more), n, k - 1, buffer);
      WorkerEnds(ok, n, before + more, k - 1, buffer);
      var rest :| Ending(Exec(ok, n, before + more + rest), n, k, buffer);
      assert before + more + rest == before + (more + rest);
    }
  }

  /** The channels are closed and the caller reads the result channel. */
  function ThenRead(before: seq<Action>): seq<Action> {
    before + [CloseResults] + [ReceiveResult]
  }

  lemma ReadsAfterEnd(ok: nat -> bool, n: nat, before: seq<Action>, buffer: Option<nat>)
    requires Ending(Exec(ok, n, before), n, n, buffer)
    ensures var s := Exec(ok, n, ThenRead(before));
      && AllDone(s.workers) && s.resultClosed
      && s.outcome == Some(if buffer.Some? then Solution(buffer.value) else NoSolution)
  {
    ExecOne(ok, n, before, CloseResults);
    ExecOne(ok, n, before + [CloseResults], ReceiveResult);
  }

  /** Whatever the schedule so far: a cancelled search that has not returned can wind up completely.  All
      its workers end without sending, the result channel is closed, and what is read from it is the
      solution that was in it, or "no solution found". */
  lemma CancelledSearchCanWindUp(ok: nat -> bool, n: nat, before: seq<Action>)
    requires n > 0 && Exec(ok, n, before).cancelled && Exec(ok, n, before).outcome.None?
    ensures var buffer := Exec(ok, n, before).buffer;
      exists more :: var s := Exec(ok, n, before + more);
        && AllDone(s.workers) && s.resultClosed
        && s.outcome == Some(if buffer.Some? then Solution(buffer.value) else NoSolution)
  {
    hide Exec, Step;
    var buffer := Exec(ok, n, before).buffer;
    Channels(ok, n, before);
    WorkersEnd(ok, n, before, n, buffer);
    var more :| Ending(Exec(ok, n, before + more), n, n, buffer);
    ReadsAfterEnd(ok, n, before + more, buffer);
    assert ThenRead(before + more) == before + (more + [CloseResults] + [ReceiveResult]);
  }
}
