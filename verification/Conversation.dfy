/** What the server sends, under every interleaving. */
module ConversationTheory {
  import opened Bytes
  import opened HashDifficulty
  import opened ChallengeStore
  import opened ServerModel
  import Keyed
  import AcceptLoop = AcceptLoopTheory
  import Limiter = ConnectionLimiterModel

  /** What the acceptor's steps have in common for the conversations: at most one handler is added. */
  ghost predicate OnlySpawns(s: State, s': State) {
    && s'.now == s.now && s'.store == s.store && s'.issued == s.issued && s'.wire == s.wire
    && s'.registered == s.registered && s'.difficulty == s.difficulty
    && (s'.handlers == s.handlers || exists ip :: s'.handlers == s.handlers + [Handler(ip, Starting)])
  }

  lemma SpawnOnlySpawns(cfg: Config, s: State)
    ensures OnlySpawns(s, Accept(cfg, s, Spawn))
  {
  }

  lemma AcceptorOnlySpawns(cfg: Config, s: State, a: Action)
    ensures OnlySpawns(s, Accept(cfg, s, a))
  {
    if a.Spawn? {
      SpawnOnlySpawns(cfg, s);
    } else {
      assert Accept(cfg, s, a).handlers == s.handlers;
    }
  }

  // ----- difficulty -----

  predicate InRange(cfg: Config, d: int) {
    cfg.initial as int <= d <= cfg.initial as int + 2
  }

  ghost predicate DifficultyInv(cfg: Config, s: State) {
    && InRange(cfg, s.difficulty)
    && (forall i :: 0 <= i < |s.handlers| ==>
      match s.handlers[i].phase
      case Armed(d) => InRange(cfg, d)
      case Asked(ch) => InRange(cfg, ch.difficulty)
      case Refused => false
      case _ => true)
    && forall i :: 0 <= i < |s.issued| ==> InRange(cfg, s.issued[i].difficulty)
  }

  /** The adjuster's thresholds in terms of load: two more above 80 percent of MaxConnections, one
      more above 50 percent, and never less for a higher load. */
  lemma AdjustmentFollowsLoad(cfg: Config, conns: int, more: int)
    requires conns <= more
    ensures Adjusted(cfg, conns) == cfg.initial as int + 2 <==> 10 * conns > 8 * cfg.maxConns
    ensures Adjusted(cfg, conns) == cfg.initial as int <==> 10 * conns <= 5 * cfg.maxConns
    ensures InRange(cfg, Adjusted(cfg, conns)) && Adjusted(cfg, conns) <= Adjusted(cfg, more)
  {
    assert cfg.maxConns * 8 / 10 >= cfg.maxConns * 5 / 10;
  }

  lemma DifficultyStep(cfg: Config, s: State, a: Action)
    requires 1 <= cfg.initial <= 253 && DifficultyInv(cfg, s)
    ensures DifficultyInv(cfg, Step(cfg, s, a))
  {
    if ByHandler(a) {
      if a.h < |s.handlers| {
        HandlerDifficulty(cfg, s, a.h, a);
      }
    } else if ByAcceptor(a) {
      AcceptorOnlySpawns(cfg, s, a);
      SpawnDifficulty(cfg, s, Accept(cfg, s, a));
    }
  }

  lemma HandlerDifficulty(cfg: Config, s: State, h: nat, a: Action)
    requires 1 <= cfg.initial <= 253 && DifficultyInv(cfg, s) && h < |s.handlers|
    ensures DifficultyInv(cfg, Handle(cfg, s, h, a))
  {
    assert s.difficulty % 256 == s.difficulty;
  }

  lemma SpawnDifficulty(cfg: Config, s: State, s': State)
    requires DifficultyInv(cfg, s) && OnlySpawns(s, s')
    ensures DifficultyInv(cfg, s')
  {
  }

  /** With 1 <= InitialDifficulty <= 253 the difficulty a handler reads is never truncated, is within
      two of the initial one, and a challenge can always be created. */
  lemma {:induction false} DifficultyStaysInRange(cfg: Config, schedule: seq<Action>)
    requires 1 <= cfg.initial <= 253
    ensures DifficultyInv(cfg, Exec(cfg, schedule))
  {
    if schedule == [] {
    } else {
      DifficultyStaysInRange(cfg, schedule[..|schedule| - 1]);
      DifficultyStep(cfg, Exec(cfg, schedule[..|schedule| - 1]), schedule[|schedule| - 1]);
    }
  }

  // ----- what the adjuster sets is what the challenges demand -----

  predicate WithoutSwap(acts: seq<Action>) {
    forall i :: 0 <= i < |acts| ==> !acts[i].AdjustSwap?
  }

  /** None of the actions is one of handler h. */
  predicate NotBy(h: nat, acts: seq<Action>) {
    forall i :: 0 <= i < |acts| && ByHandler(acts[i]) ==> acts[i].h != h
  }

  lemma StepKeepsDifficulty(cfg: Config, s: State, a: Action)
    requires !a.AdjustSwap?
    ensures Step(cfg, s, a).difficulty == s.difficulty
    ensures s.adjuster.Some? ==> Step(cfg, s, a).adjuster == s.adjuster
  {
  }

  /** Between two swaps the difficulty stays, and so does the count the adjuster has loaded. */
  lemma {:induction false} DifficultyStays(cfg: Config, before: seq<Action>, acts: seq<Action>)
    requires WithoutSwap(acts)
    ensures var s, s' := Exec(cfg, before), Exec(cfg, before + acts);
      s'.difficulty == s.difficulty && (s.adjuster.Some? ==> s'.adjuster == s.adjuster)
  {
    hide Exec, Step;
    if acts == [] {
      assert before + acts == before;
    } else {
      var init, a := acts[..|acts| - 1], acts[|acts| - 1];
      DifficultyStays(cfg, before, init);
      AcceptLoop.ExecOne(cfg, before + init, a);
      StepKeepsDifficulty(cfg, Exec(cfg, before + init), a);
      assert before + acts == before + init + [a];
    }
  }

  lemma StepLeavesHandler(cfg: Config, s: State, a: Action, h: nat)
    requires h < |s.handlers| && (ByHandler(a) ==> a.h != h)
    ensures var s' := Step(cfg, s, a);
      h < |s'.handlers| && s'.handlers[h] == s.handlers[h]
  {
    if !ByHandler(a) && ByAcceptor(a) {
      AcceptorOnlySpawns(cfg, s, a);
    }
  }

  /** Nobody else moves a handler. */
  lemma {:induction false} HandlerStays(cfg: Config, before: seq<Action>, acts: seq<Action>, h: nat)
    requires NotBy(h, acts) && h < |Exec(cfg, before).handlers|
    ensures var s, s' := Exec(cfg, before), Exec(cfg, before + acts);
      h < |s'.handlers| && s'.handlers[h] == s.handlers[h]
  {
    hide Exec, Step;
    if acts == [] {
      assert before + acts == before;
    } else {
      var init, a := acts[..|acts| - 1], acts[|acts| - 1];
      HandlerStays(cfg, before, init, h);
      AcceptLoop.ExecOne(cfg, before + init, a);
      StepLeavesHandler(cfg, Exec(cfg, before + init), a, h);
      assert before + acts == before + init + [a];
    }
  }

  /** What the adjuster makes of the number of connections it counted. */
  function Demanded(cfg: Config, conns: int): int {
    cfg.initial as int + if 10 * conns > 8 * cfg.maxConns then 2 else if 10 * conns > 5 * cfg.maxConns then 1 else 0
  }

  /** The adjuster counts the connections after p and sets the difficulty after q; r runs. */
  function Adjusting(p: seq<Action>, q: seq<Action>, r: seq<Action>): seq<Action> {
    p + [AdjustLoad] + q + [AdjustSwap] + r
  }

  lemma AdjustingSets(cfg: Config, p: seq<Action>, q: seq<Action>, r: seq<Action>)
    requires Exec(cfg, p).adjuster.None? && WithoutSwap(q) && WithoutSwap(r)
    ensures Exec(cfg, Adjusting(p, q, r)).difficulty == Demanded(cfg, Exec(cfg, p).currentConns)
    ensures Exec(cfg, p + [AdjustLoad] + q + [AdjustSwap]).adjuster.None?
  {
    hide Exec;
    var conns, loaded := Exec(cfg, p).currentConns, p + [AdjustLoad];
    AcceptLoop.ExecOne(cfg, p, AdjustLoad);
    DifficultyStays(cfg, loaded, q);
    AcceptLoop.ExecOne(cfg, loaded + q, AdjustSwap);
    DifficultyStays(cfg, loaded + q + [AdjustSwap], r);
    AdjustmentFollowsLoad(cfg, conns, conns);
  }

  lemma ReadsDifficulty(cfg: Config, s: State, h: nat)
    requires h < |s.handlers| && s.handlers[h].phase.Starting?
    ensures var s' := Handle(cfg, s, h, ReadDifficulty(h, true));
      h < |s'.handlers| && s'.handlers[h].phase == Armed(s.difficulty % 256)
  {
  }

  lemma CreatesAsArmed(cfg: Config, s: State, h: nat, d: byte, prefix: string, nonce: string)
    requires h < |s.handlers| && s.handlers[h].phase == Armed(d) && d != 0
    ensures var s', ch := Handle(cfg, s, h, Create(h, prefix, nonce)), Challenge(prefix, d, nonce, s.now + cfg.ttl);
      && h < |s'.handlers| && s'.handlers[h].phase == Asked(ch)
      && s'.issued == s.issued + [ch] && s'.store == s.store[nonce := ch]
  {
  }

  /** A challenge demands what the adjuster set last before its handler looked, whatever ran in between:
      two more than the initial difficulty if more than 80 percent of MaxConnections were counted, one
      more if more than 50 percent, and it expires a lifetime after its creation. */
  lemma ChallengesDemandWhatWasSet(cfg: Config, p: seq<Action>, q: seq<Action>, r: seq<Action>, m: seq<Action>,
                                   h: nat, prefix: string, nonce: string)
    requires 1 <= cfg.initial <= 253
    requires Exec(cfg, p).adjuster.None? && WithoutSwap(q) && WithoutSwap(r) && NotBy(h, m)
    requires var s := Exec(cfg, Adjusting(p, q, r)); h < |s.handlers| && s.handlers[h].phase.Starting?
    ensures var d := Demanded(cfg, Exec(cfg, p).currentConns);
      var armed := Adjusting(p, q, r) + [ReadDifficulty(h, true)] + m;
      var s, s' := Exec(cfg, armed), Exec(cfg, armed + [Create(h, prefix, nonce)]);
      0 < d < 256
      && var ch := Challenge(prefix, d, nonce, s.now + cfg.ttl);
         && h < |s'.handlers| && s'.handlers[h].phase == Asked(ch)
         && s'.issued == s.issued + [ch] && s'.store == s.store[nonce := ch]
  {
    hide Exec, Step, Handle, WithoutSwap, NotBy;
    var adjusted, armed := Adjusting(p, q, r), Adjusting(p, q, r) + [ReadDifficulty(h, true)];
    AdjustingSets(cfg, p, q, r);
    AcceptLoop.HandleOne(cfg, adjusted, ReadDifficulty(h, true));
    ReadsDifficulty(cfg, Exec(cfg, adjusted), h);
    HandlerStays(cfg, armed, m, h);
    AcceptLoop.HandleOne(cfg, armed + m, Create(h, prefix, nonce));
    CreatesAsArmed(cfg, Exec(cfg, armed + m), h, Demanded(cfg, Exec(cfg, p).currentConns), prefix, nonce);
  }

  // ----- the server's store is a run of the proof-of-work service -----

  /** What a step does to the service. */
  function ServiceEvents(cfg: Config, s: State, a: Action): seq<ChallengeStore.Event> {
    if ByHandler(a) then
      if a.h < |s.handlers| then
        var p := s.handlers[a.h].phase;
        var p' := Next(cfg, s, p, a);
        if !p.Asked? && p'.Asked? then [Created(p'.ch, s.now)] else []
      else []
    else if a.Evict? && a.i < |s.issued| && s.issued[a.i].expiresAt <= s.now then [Evicted(s.issued[a.i], s.now)]
    else []
  }

  function ServiceRun(cfg: Config, schedule: seq<Action>): seq<ChallengeStore.Event> {
    if schedule == [] then []
    else
      var before := schedule[..|schedule| - 1];
      ServiceRun(cfg, before) + ServiceEvents(cfg, Exec(cfg, before), schedule[|schedule| - 1])
  }

  ghost predicate Follows(s: State, run: seq<ChallengeStore.Event>) {
    && s.store == Content(run) && s.issued == Issued(run)
    && Legal(0, run) && Clock(0, run) <= s.now
  }

  lemma SilentFollows(s: State, s': State, run: seq<ChallengeStore.Event>)
    requires Follows(s, run) && s'.store == s.store && s'.issued == s.issued && s.now <= s'.now
    ensures Follows(s', run + [])
  {
    assert run + [] == run;
  }

  lemma HandlerFollows(cfg: Config, s: State, a: Action, run: seq<ChallengeStore.Event>)
    requires ByHandler(a) && a.h < |s.handlers| && Follows(s, run)
    ensures Follows(Handle(cfg, s, a.h, a), run + ServiceEvents(cfg, s, a))
  {
    var s' := Handle(cfg, s, a.h, a);
    var p, p' := s.handlers[a.h].phase, Next(cfg, s, s.handlers[a.h].phase, a);
    if !p.Asked? && p'.Asked? {
      OneMoreEvent(0, run, Created(p'.ch, s.now));
    } else {
      SilentFollows(s, s', run);
    }
  }

  lemma TimerFollows(cfg: Config, s: State, a: Action, run: seq<ChallengeStore.Event>)
    requires !ByHandler(a) && Follows(s, run)
    ensures Follows(Timer(cfg, s, a), run + ServiceEvents(cfg, s, a))
  {
    if a.Evict? && a.i < |s.issued| && s.issued[a.i].expiresAt <= s.now {
      OneMoreEvent(0, run, Evicted(s.issued[a.i], s.now));
    } else {
      SilentFollows(s, Timer(cfg, s, a), run);
    }
  }

  lemma StepFollows(cfg: Config, s: State, a: Action, run: seq<ChallengeStore.Event>)
    requires Follows(s, run)
    ensures Follows(Step(cfg, s, a), run + ServiceEvents(cfg, s, a))
  {
    hide Handle, Accept, Timer, Follows;
    if ByHandler(a) {
      if a.h < |s.handlers| {
        HandlerFollows(cfg, s, a, run);
      } else {
        SilentFollows(s, s, run);
      }
    } else if ByAcceptor(a) {
      AcceptorOnlySpawns(cfg, s, a);
      SilentFollows(s, Accept(cfg, s, a), run);
    } else {
      TimerFollows(cfg, s, a, run);
    }
  }

  /** Projection: under every interleaving, what the handlers and the timers do to the store is a
      legal run of the service, so that what is proved about the service holds inside the server. */
  lemma {:induction false} StoreFollowsService(cfg: Config, schedule: seq<Action>)
    ensures Follows(Exec(cfg, schedule), ServiceRun(cfg, schedule))
  {
    if schedule == [] {
    } else {
      var before := schedule[..|schedule| - 1];
      StoreFollowsService(cfg, before);
      StepFollows(cfg, Exec(cfg, before), schedule[|schedule| - 1], ServiceRun(cfg, before));
    }
  }

  /** Whatever is stored was issued under its own nonce. */
  ghost predicate StoredIssued(s: State) {
    forall n :: n in s.store ==> s.store[n] in s.issued && s.store[n].nonce == n
  }

  lemma AlwaysStoredIssued(cfg: Config, schedule: seq<Action>)
    ensures StoredIssued(Exec(cfg, schedule))
  {
    StoreFollowsService(cfg, schedule);
    StoredWasIssued(ServiceRun(cfg, schedule));
  }

  // ----- every quote is paid for -----

  /** Some issued challenge is fulfilled by the solution at time t. */
  ghost predicate PaidFor(cfg: Config, s: State, sol: Solution, t: int) {
    AcceptsByRecord(cfg.sha, s.issued, sol, t)
  }

  ghost predicate PaymentInv(cfg: Config, s: State) {
    && (forall i :: 0 <= i < |s.handlers| && s.handlers[i].phase.Approved? ==>
          PaidFor(cfg, s, s.handlers[i].phase.sol, s.handlers[i].phase.at) && s.handlers[i].phase.at <= s.now)
    && (forall k :: 0 <= k < |s.wire| && s.wire[k].QuoteSent? ==>
          PaidFor(cfg, s, s.wire[k].sol, s.wire[k].at) && s.wire[k].at <= s.now)
  }

  lemma StillPaidFor(cfg: Config, s: State, s': State, sol: Solution, t: int)
    requires PaidFor(cfg, s, sol, t) && s.issued <= s'.issued
    ensures PaidFor(cfg, s', sol, t)
  {
    var ch :| ch in s.issued && ch.nonce == sol.nonce && Fulfils(cfg.sha, ch, sol, t);
    var i :| 0 <= i < |s.issued| && s.issued[i] == ch;
    assert s'.issued[i] == ch;
  }

  lemma HandlerPays(cfg: Config, s: State, h: nat, a: Action)
    requires h < |s.handlers| && PaymentInv(cfg, s) && StoredIssued(s)
    ensures PaymentInv(cfg, Handle(cfg, s, h, a))
  {
    var s' := Handle(cfg, s, h, a);
    var p, p' := s.handlers[h].phase, s'.handlers[h].phase;
    forall i | 0 <= i < |s'.handlers| && s'.handlers[i].phase.Approved?
      ensures PaidFor(cfg, s', s'.handlers[i].phase.sol, s'.handlers[i].phase.at) && s'.handlers[i].phase.at <= s'.now
    {
      if i == h && !p.Approved? {
        assert s.store[p'.sol.nonce] in s.issued;
      } else {
        StillPaidFor(cfg, s, s', s.handlers[i].phase.sol, s.handlers[i].phase.at);
      }
    }
    forall k | 0 <= k < |s'.wire| && s'.wire[k].QuoteSent?
      ensures PaidFor(cfg, s', s'.wire[k].sol, s'.wire[k].at) && s'.wire[k].at <= s'.now
    {
      if k < |s.wire| {
        StillPaidFor(cfg, s, s', s.wire[k].sol, s.wire[k].at);
      } else {
        StillPaidFor(cfg, s, s', p.sol, p.at);
      }
    }
  }

  lemma StepPays(cfg: Config, s: State, a: Action)
    requires PaymentInv(cfg, s) && StoredIssued(s)
    ensures PaymentInv(cfg, Step(cfg, s, a))
  {
    if ByHandler(a) {
      if a.h < |s.handlers| {
        HandlerPays(cfg, s, a.h, a);
      }
    } else if ByAcceptor(a) {
      AcceptorOnlySpawns(cfg, s, a);
      SpawnPays(cfg, s, Accept(cfg, s, a));
    } else {
      TimerPays(cfg, s, a);
    }
  }

  lemma SpawnPays(cfg: Config, s: State, s': State)
    requires PaymentInv(cfg, s) && OnlySpawns(s, s')
    ensures PaymentInv(cfg, s')
  {
  }

  lemma TimerPays(cfg: Config, s: State, a: Action)
    requires PaymentInv(cfg, s)
    ensures PaymentInv(cfg, Timer(cfg, s, a))
  {
  }

  lemma {:induction false} Payments(cfg: Config, schedule: seq<Action>)
    ensures PaymentInv(cfg, Exec(cfg, schedule))
  {
    if schedule == [] {
    } else {
      Payments(cfg, schedule[..|schedule| - 1]);
      AlwaysStoredIssued(cfg, schedule[..|schedule| - 1]);
      StepPays(cfg, Exec(cfg, schedule[..|schedule| - 1]), schedule[|schedule| - 1]);
    }
  }

  /** Every quote is paid for: whatever the interleaving, a quote on the wire follows a solution that
      named an issued, unexpired challenge by nonce and prefix and whose hash meets that challenge's
      difficulty, itself between the initial difficulty and two more when that is not truncated. */
  lemma EveryQuoteIsPaidFor(cfg: Config, schedule: seq<Action>, k: nat)
    ensures var s := Exec(cfg, schedule);
      k < |s.wire| && s.wire[k].QuoteSent? ==>
        var (sol, t) := (s.wire[k].sol, s.wire[k].at);
        exists ch :: ch in s.issued && ch.nonce == sol.nonce && ch.prefix == sol.prefix
          && t <= ch.expiresAt && t <= s.now
          && (1 <= cfg.initial <= 253 ==> cfg.initial as int <= ch.difficulty <= cfg.initial as int + 2)
          && ch.difficulty <= 64 && BigEndian(cfg.sha(sol.prefix + sol.solution)) < Pow2(256 - 4 * ch.difficulty)
  {
    hide Exec, Step, Solves, BigEndian, Pow2;
    var s := Exec(cfg, schedule);
    if k < |s.wire| && s.wire[k].QuoteSent? {
      Payments(cfg, schedule);
      if 1 <= cfg.initial <= 253 {
        DifficultyStaysInRange(cfg, schedule);
      }
      var sol, t := s.wire[k].sol, s.wire[k].at;
      var ch :| ch in s.issued && ch.nonce == sol.nonce && Fulfils(cfg.sha, ch, sol, t);
      var i :| 0 <= i < |s.issued| && s.issued[i] == ch;
      SolvesExactly(cfg.sha, sol.prefix, sol.solution, ch.difficulty);
      assert 1 <= cfg.initial <= 253 ==> InRange(cfg, s.issued[i].difficulty);
    }
  }

  // ----- no paid solution is turned away -----

  /** Until it expires, an issued challenge is in the store. */
  ghost predicate UnexpiredStored(s: State) {
    forall i :: 0 <= i < |s.issued| && s.now < s.issued[i].expiresAt ==>
      s.issued[i].nonce in s.store && s.store[s.issued[i].nonce] == s.issued[i]
  }

  lemma AlwaysUnexpiredStored(cfg: Config, schedule: seq<Action>)
    requires Distinct(Exec(cfg, schedule).issued)
    ensures UnexpiredStored(Exec(cfg, schedule))
  {
    var s := Exec(cfg, schedule);
    StoreFollowsService(cfg, schedule);
    forall i | 0 <= i < |s.issued| && s.now < s.issued[i].expiresAt
      ensures s.issued[i].nonce in s.store && s.store[s.issued[i].nonce] == s.issued[i]
    {
      UnexpiredIsStored(0, ServiceRun(cfg, schedule), s.issued[i]);
    }
  }

  /** At time t none of the first known challenges was fulfilled, an expiry instant aside. */
  ghost predicate Unpaid(cfg: Config, s: State, sol: Solution, t: int, known: nat) {
    && known <= |s.issued|
    && forall i :: 0 <= i < known && s.issued[i].nonce == sol.nonce && s.issued[i].expiresAt != t ==>
      !Fulfils(cfg.sha, s.issued[i], sol, t)
  }

  ghost predicate RefusalInv(cfg: Config, s: State) {
    && (forall i :: 0 <= i < |s.handlers| && s.handlers[i].phase.Rejected? ==>
          Unpaid(cfg, s, s.handlers[i].phase.sol, s.handlers[i].phase.at, s.handlers[i].phase.known))
    && (forall k :: 0 <= k < |s.wire| && s.wire[k].RefusalSent? ==>
          Unpaid(cfg, s, s.wire[k].sol, s.wire[k].at, s.wire[k].known))
  }

  /** A failed verification means that none of the challenges issued so far was fulfilled. */
  lemma RejectionIsRight(cfg: Config, s: State, sol: Solution)
    requires UnexpiredStored(s) && !Accepts(cfg.sha, s.store, sol, s.now)
    ensures Unpaid(cfg, s, sol, s.now, |s.issued|)
  {
  }

  lemma StillUnpaid(cfg: Config, s: State, s': State, sol: Solution, t: int, known: nat)
    requires Unpaid(cfg, s, sol, t, known) && s.issued <= s'.issued
    ensures Unpaid(cfg, s', sol, t, known)
  {
    assert forall i :: 0 <= i < known ==> s'.issued[i] == s.issued[i];
  }

  lemma HandlerRefuses(cfg: Config, s: State, h: nat, a: Action)
    requires h < |s.handlers| && RefusalInv(cfg, s) && UnexpiredStored(s)
    ensures RefusalInv(cfg, Handle(cfg, s, h, a))
  {
    var s' := Handle(cfg, s, h, a);
    var p, p' := s.handlers[h].phase, s'.handlers[h].phase;
    if !p.Rejected? && p'.Rejected? {
      RejectionIsRight(cfg, s, p.sol);
    }
    forall i | 0 <= i < |s'.handlers| && s'.handlers[i].phase.Rejected?
      ensures Unpaid(cfg, s', s'.handlers[i].phase.sol, s'.handlers[i].phase.at, s'.handlers[i].phase.known)
    {
      var q := s'.handlers[i].phase;
      StillUnpaid(cfg, s, s', q.sol, q.at, q.known);
    }
    forall k | 0 <= k < |s'.wire| && s'.wire[k].RefusalSent?
      ensures Unpaid(cfg, s', s'.wire[k].sol, s'.wire[k].at, s'.wire[k].known)
    {
      var m := s'.wire[k];
      StillUnpaid(cfg, s, s', m.sol, m.at, m.known);
    }
  }

  lemma SpawnRefuses(cfg: Config, s: State, s': State)
    requires RefusalInv(cfg, s) && OnlySpawns(s, s')
    ensures RefusalInv(cfg, s')
  {
  }

  lemma TimerRefuses(cfg: Config, s: State, a: Action)
    requires RefusalInv(cfg, s)
    ensures RefusalInv(cfg, Timer(cfg, s, a))
  {
  }

  lemma StepRefuses(cfg: Config, s: State, a: Action)
    requires RefusalInv(cfg, s) && UnexpiredStored(s)
    ensures RefusalInv(cfg, Step(cfg, s, a))
  {
    if ByHandler(a) {
      if a.h < |s.handlers| {
        HandlerRefuses(cfg, s, a.h, a);
      }
    } else if ByAcceptor(a) {
      AcceptorOnlySpawns(cfg, s, a);
      SpawnRefuses(cfg, s, Accept(cfg, s, a));
    } else {
      TimerRefuses(cfg, s, a);
    }
  }

  lemma HandlerIssues(cfg: Config, s: State, h: nat, a: Action)
    requires h < |s.handlers|
    ensures s.issued <= Handle(cfg, s, h, a).issued
  {
  }

  lemma IssuedGrows(cfg: Config, s: State, a: Action)
    ensures s.issued <= Step(cfg, s, a).issued
  {
    if ByHandler(a) {
      if a.h < |s.handlers| {
        HandlerIssues(cfg, s, a.h, a);
      }
    } else if ByAcceptor(a) {
      AcceptorOnlySpawns(cfg, s, a);
    }
  }

  lemma {:induction false} Refusals(cfg: Config, schedule: seq<Action>)
    requires Distinct(Exec(cfg, schedule).issued)
    ensures RefusalInv(cfg, Exec(cfg, schedule))
  {
    if schedule == [] {
    } else {
      var before := schedule[..|schedule| - 1];
      var s, a := Exec(cfg, before), schedule[|schedule| - 1];
      IssuedGrows(cfg, s, a);
      DistinctBefore(s.issued, Exec(cfg, schedule).issued);
      Refusals(cfg, before);
      AlwaysUnexpiredStored(cfg, before);
      StepRefuses(cfg, s, a);
    }
  }

  /** No paid solution is turned away: with fresh nonces, under every interleaving, an
      INVALID_SOLUTION reply means that the solution, when it was verified, fulfilled none of the
      challenges issued by then, an expiry instant aside.  With EveryQuoteIsPaidFor this says
      exactly which solutions earn a quote. */
  lemma NoPaidSolutionIsTurnedAway(cfg: Config, schedule: seq<Action>, k: nat, i: nat)
    requires Distinct(Exec(cfg, schedule).issued)
    ensures var s := Exec(cfg, schedule);
      k < |s.wire| && s.wire[k].RefusalSent? && i < s.wire[k].known ==>
        && i < |s.issued|
        && var m, ch := s.wire[k], s.issued[i];
           ch.nonce != m.sol.nonce || ch.prefix != m.sol.prefix || m.at >= ch.expiresAt
           || ch.difficulty > 64 || BigEndian(cfg.sha(m.sol.prefix + m.sol.solution)) >= Pow2(256 - 4 * ch.difficulty)
  {
    hide Exec, Step, Solves, BigEndian, Pow2;
    var s := Exec(cfg, schedule);
    Refusals(cfg, schedule);
    if k < |s.wire| && s.wire[k].RefusalSent? && i < s.wire[k].known {
      SolvesExactly(cfg.sha, s.wire[k].sol.prefix, s.wire[k].sol.solution, s.issued[i].difficulty);
    }
  }

  // ----- exactly which solutions earn a quote -----

  /** The verdict of a handler that verifies: judged by all the challenges issued by then. */
  function Verdict(sol: Solution, t: int, known: nat, paid: bool): Phase {
    if paid then Approved(sol, t) else Rejected(sol, t, known)
  }

  /** ... and the message that carries it. */
  function Announced(h: nat, sol: Solution, t: int, known: nat, paid: bool): Sent {
    if paid then QuoteSent(h, sol, t) else RefusalSent(h, sol, t, known)
  }

  lemma VerifiesByRecord(cfg: Config, before: seq<Action>, h: nat, sol: Solution)
    requires var s := Exec(cfg, before);
      && Distinct(s.issued) && h < |s.handlers| && s.handlers[h].phase == Answered(sol)
      && forall ch :: ch in s.issued && ch.nonce == sol.nonce ==> ch.expiresAt != s.now
    ensures var s, s' := Exec(cfg, before), Exec(cfg, before + [Verify(h)]);
      && h < |s'.handlers|
      && s'.handlers[h].phase == Verdict(sol, s.now, |s.issued|, AcceptsByRecord(cfg.sha, s.issued, sol, s.now))
  {
    hide Exec, Step, Accepts, AcceptsByRecord;
    var s := Exec(cfg, before);
    AcceptLoop.HandleOne(cfg, before, Verify(h));
    StoreFollowsService(cfg, before);
    EvictionIsTransparent(cfg.sha, 0, ServiceRun(cfg, before), sol, s.now);
    VerifiesByStore(cfg, s, h, sol);
  }

  lemma VerifiesByStore(cfg: Config, s: State, h: nat, sol: Solution)
    requires h < |s.handlers| && s.handlers[h].phase == Answered(sol)
    ensures var s' := Handle(cfg, s, h, Verify(h));
      && h < |s'.handlers|
      && s'.handlers[h].phase == Verdict(sol, s.now, |s.issued|, Accepts(cfg.sha, s.store, sol, s.now))
  {
  }

  lemma SendsVerdict(cfg: Config, s: State, h: nat, sol: Solution, t: int, known: nat, paid: bool)
    requires h < |s.handlers| && s.handlers[h].phase == Verdict(sol, t, known, paid)
    ensures Handle(cfg, s, h, Reply(h, true)).wire == s.wire + [Announced(h, sol, t, known, paid)]
  {
  }

  /** Exactly which solutions earn a quote, under every interleaving: with fresh nonces, an expiry instant
      aside, the handler that verifies a solution at time t goes on to send the quote if some challenge
      issued by then has its nonce and prefix, has not expired and is met by the hash of prefix and
      solution, and INVALID_SOLUTION otherwise. */
  lemma SolutionsGetTheirReply(cfg: Config, before: seq<Action>, h: nat, sol: Solution, more: seq<Action>)
    requires NotBy(h, more)
    requires var s := Exec(cfg, before);
      && Distinct(s.issued) && h < |s.handlers| && s.handlers[h].phase == Answered(sol)
      && forall ch :: ch in s.issued && ch.nonce == sol.nonce ==> ch.expiresAt != s.now
    ensures var s, verified := Exec(cfg, before), before + [Verify(h)] + more;
      var paid := exists ch ::
        ch in s.issued && ch.nonce == sol.nonce && ch.prefix == sol.prefix && s.now <= ch.expiresAt
        && ch.difficulty <= 64 && BigEndian(cfg.sha(sol.prefix + sol.solution)) < Pow2(256 - 4 * ch.difficulty);
      Exec(cfg, verified + [Reply(h, true)]).wire
      == Exec(cfg, verified).wire + [if paid then QuoteSent(h, sol, s.now) else RefusalSent(h, sol, s.now, |s.issued|)]
  {
    hide Exec, Step, Handle, NotBy, AcceptsByRecord, Solves, BigEndian, Pow2;
    var s, verified := Exec(cfg, before), before + [Verify(h)] + more;
    var paid := AcceptsByRecord(cfg.sha, s.issued, sol, s.now);
    VerifiesByRecord(cfg, before, h, sol);
    HandlerStays(cfg, before + [Verify(h)], more, h);
    AcceptLoop.HandleOne(cfg, verified, Reply(h, true));
    SendsVerdict(cfg, Exec(cfg, verified), h, sol, s.now, |s.issued|, paid);
    AcceptsByRecordExactly(cfg.sha, s.issued, sol, s.now);
  }

  // ----- quotes and refusals do happen -----

  /** The only handler is in phase p; the challenge is in the store and expires after room. */
  ghost predicate Serves(s: State, p: Phase, ch: Challenge, room: int) {
    && |s.handlers| == 1 && s.handlers[0].phase == p
    && ch.nonce in s.store && s.store[ch.nonce] == ch && s.now + room == ch.expiresAt
  }

  lemma Arms(cfg: Config, s: State)
    requires AcceptLoop.Filled(cfg, s, 1)
    ensures var s' := Handle(cfg, s, 0, ReadDifficulty(0, true));
      |s'.handlers| == 1 && s'.handlers[0].phase == Armed(cfg.initial) && s'.now == s.now
  {
    assert s.difficulty % 256 == cfg.initial;
  }

  lemma Creates(cfg: Config, s: State, prefix: string, nonce: string)
    requires |s.handlers| == 1 && s.handlers[0].phase == Armed(cfg.initial) && cfg.initial != 0
    ensures var ch := Challenge(prefix, cfg.initial, nonce, s.now + cfg.ttl);
      Serves(Handle(cfg, s, 0, Create(0, prefix, nonce)), Asked(ch), ch, cfg.ttl)
  {
  }

  lemma ArmsAndCreates(cfg: Config, before: seq<Action>, prefix: string, nonce: string)
    requires cfg.initial != 0 && AcceptLoop.Filled(cfg, Exec(cfg, before), 1)
    ensures var ch := Challenge(prefix, cfg.initial, nonce, Exec(cfg, before).now + cfg.ttl);
      Serves(Exec(cfg, before + [ReadDifficulty(0, true)] + [Create(0, prefix, nonce)]), Asked(ch), ch, cfg.ttl)
  {
    hide Exec, Handle, Step, Serves;
    var armed := before + [ReadDifficulty(0, true)];
    AcceptLoop.HandleOne(cfg, before, ReadDifficulty(0, true));
    Arms(cfg, Exec(cfg, before));
    AcceptLoop.HandleOne(cfg, armed, Create(0, prefix, nonce));
    Creates(cfg, Exec(cfg, armed), prefix, nonce);
  }

  lemma Sends(cfg: Config, s: State, ch: Challenge, room: int)
    requires Serves(s, Asked(ch), ch, room)
    ensures Serves(Handle(cfg, s, 0, SendChallenge(0, true)), Waiting, ch, room)
  {
  }

  lemma Receives(cfg: Config, s: State, ch: Challenge, room: int, sol: Solution)
    requires Serves(s, Waiting, ch, room)
    ensures Serves(Handle(cfg, s, 0, Receive(0, Keyed.Some(sol))), Answered(sol), ch, room)
  {
  }

  lemma Waits(cfg: Config, s: State, p: Phase, ch: Challenge, room: int, delay: nat)
    requires Serves(s, p, ch, room)
    ensures Serves(Step(cfg, s, Tick(delay)), p, ch, room - delay)
  {
  }

  /** The challenge is sent, and the answer comes after a while. */
  function Exchange(before: seq<Action>, delay: nat, sol: Solution): seq<Action> {
    before + [SendChallenge(0, true)] + [Tick(delay)] + [Receive(0, Keyed.Some(sol))]
  }

  lemma SendsAndReceives(cfg: Config, before: seq<Action>, ch: Challenge, room: int, delay: nat, sol: Solution)
    requires Serves(Exec(cfg, before), Asked(ch), ch, room)
    ensures Serves(Exec(cfg, Exchange(before, delay, sol)), Answered(sol), ch, room - delay)
  {
    hide Exec, Handle, Step;
    var sent := before + [SendChallenge(0, true)];
    AcceptLoop.HandleOne(cfg, before, SendChallenge(0, true));
    Sends(cfg, Exec(cfg, before), ch, room);
    AcceptLoop.ExecOne(cfg, sent, Tick(delay));
    Waits(cfg, Exec(cfg, sent), Waiting, ch, room, delay);
    AcceptLoop.HandleOne(cfg, sent + [Tick(delay)], Receive(0, Keyed.Some(sol)));
    Receives(cfg, Exec(cfg, sent + [Tick(delay)]), ch, room - delay, sol);
  }

  /** The last message sent: the quote for a solution that solves in time, the error for another. */
  ghost predicate Judged(s: State, sol: Solution, solves: bool) {
    && s.wire != []
    && var m := s.wire[|s.wire| - 1];
       if solves then m.QuoteSent? && m.sol == sol else m.RefusalSent? && m.sol == sol
  }

  lemma VerifiesAndReplies(cfg: Config, before: seq<Action>, ch: Challenge, room: int, sol: Solution)
    requires Serves(Exec(cfg, before), Answered(sol), ch, room) && sol.nonce == ch.nonce && sol.prefix == ch.prefix
    ensures Judged(Exec(cfg, before + [Verify(0)] + [Reply(0, true)]), sol,
                   room >= 0 && Solves(cfg.sha, sol.prefix, sol.solution, ch.difficulty))
  {
    hide Exec, Handle, Step, Solves;
    var s, verified := Exec(cfg, before), before + [Verify(0)];
    AcceptLoop.HandleOne(cfg, before, Verify(0));
    VerifiesByStore(cfg, s, 0, sol);
    AcceptLoop.HandleOne(cfg, verified, Reply(0, true));
    SendsVerdict(cfg, Exec(cfg, verified), 0, sol, s.now, |s.issued|, Accepts(cfg.sha, s.store, sol, s.now));
  }

  /** A client alone with the server: its solution earns the quote exactly when it solves the challenge
      and comes before the challenge expires. */
  lemma SolutionsAreJudged(cfg: Config, prefix: string, nonce: string, solution: string, delay: nat)
    requires Limiter.Sane(cfg.perIP) && cfg.rate.burst > 0 && cfg.maxConns >= 1 && cfg.initial != 0
    ensures exists schedule :: Judged(Exec(cfg, schedule), Solution(prefix, solution, nonce),
      delay <= cfg.ttl && cfg.initial <= 64 && BigEndian(cfg.sha(prefix + solution)) < Pow2(256 - 4 * cfg.initial))
  {
    hide Exec, Step, AcceptLoop.Filled, Serves, Judged, Solves;
    SolvesExactly(cfg.sha, prefix, solution, cfg.initial);
    var sol := Solution(prefix, solution, nonce);
    var before := AcceptLoop.ConnectionsOpen(cfg, 1);
    var ch := Challenge(prefix, cfg.initial, nonce, Exec(cfg, before).now + cfg.ttl);
    ArmsAndCreates(cfg, before, prefix, nonce);
    var asked := before + [ReadDifficulty(0, true)] + [Create(0, prefix, nonce)];
    SendsAndReceives(cfg, asked, ch, cfg.ttl, delay, sol);
    var answered := Exchange(asked, delay, sol);
    VerifiesAndReplies(cfg, answered, ch, cfg.ttl - delay, sol);
    assert Judged(Exec(cfg, answered + [Verify(0)] + [Reply(0, true)]), sol,
                  cfg.ttl - delay >= 0 && Solves(cfg.sha, prefix, solution, cfg.initial));
  }

  /** A challenge on the wire was issued before. */
  ghost predicate SentWereIssued(s: State) {
    && (forall i :: 0 <= i < |s.handlers| && s.handlers[i].phase.Asked? ==> s.handlers[i].phase.ch in s.issued)
    && (forall k :: 0 <= k < |s.wire| && s.wire[k].ChallengeSent? ==> s.wire[k].ch in s.issued)
  }

  lemma HandlerSendsIssued(cfg: Config, s: State, h: nat, a: Action)
    requires h < |s.handlers| && SentWereIssued(s)
    ensures SentWereIssued(Handle(cfg, s, h, a))
  {
    var s' := Handle(cfg, s, h, a);
    HandlerIssues(cfg, s, h, a);
    assert forall ch :: ch in s.issued ==> ch in s'.issued;
    if !s.handlers[h].phase.Asked? && s'.handlers[h].phase.Asked? {
      assert s'.issued[|s.issued|] == s'.handlers[h].phase.ch;
    }
  }

  lemma SpawnSendsIssued(s: State, s': State)
    requires SentWereIssued(s) && OnlySpawns(s, s')
    ensures SentWereIssued(s')
  {
  }

  lemma TimerSendsIssued(cfg: Config, s: State, a: Action)
    requires SentWereIssued(s)
    ensures SentWereIssued(Timer(cfg, s, a))
  {
  }

  lemma StepSendsIssued(cfg: Config, s: State, a: Action)
    requires SentWereIssued(s)
    ensures SentWereIssued(Step(cfg, s, a))
  {
    hide Handle, Accept, Timer, SentWereIssued;
    if ByHandler(a) {
      if a.h < |s.handlers| {
        HandlerSendsIssued(cfg, s, a.h, a);
      }
    } else if ByAcceptor(a) {
      AcceptorOnlySpawns(cfg, s, a);
      SpawnSendsIssued(s, Accept(cfg, s, a));
    } else {
      TimerSendsIssued(cfg, s, a);
    }
  }

  /** Every challenge a client is sent was issued, so that its solution will be recognised. */
  lemma {:induction false} ChallengesSentWereIssued(cfg: Config, schedule: seq<Action>)
    ensures SentWereIssued(Exec(cfg, schedule))
  {
    hide Step;
    if schedule == [] {
    } else {
      ChallengesSentWereIssued(cfg, schedule[..|schedule| - 1]);
      StepSendsIssued(cfg, Exec(cfg, schedule[..|schedule| - 1]), schedule[|schedule| - 1]);
    }
  }

  // ----- the conversation on one connection -----

  datatype Kind = C | Q | E

  function KindOf(m: Sent): Kind {
    match m
    case ChallengeSent(_, _) => C
    case QuoteSent(_, _, _) => Q
    case RefusalSent(_, _, _, _) => E
    case InternalErrorSent(_) => E
  }

  /** The kinds of messages sent by handler h, in order. */
  function Transcript(wire: seq<Sent>, h: nat): seq<Kind> {
    if wire == [] then []
    else
      var before, m := Transcript(wire[..|wire| - 1], h), wire[|wire| - 1];
      if m.h == h then before + [KindOf(m)] else before
  }

  /** What a handler has sent by the time it is in phase p. */
  predicate Fits(p: Phase, t: seq<Kind>) {
    match p
    case Starting => t == []
    case Armed(_) => t == []
    case Refused => t == []
    case Asked(_) => t == []
    case Waiting => t == [C]
    case Answered(_) => t == [C]
    case Approved(_, _) => t == [C]
    case Rejected(_, _, _) => t == [C]
    case _ => if p.failed then t == [] || t == [C] else t == [C, Q] || t == [C, E] || t == [E]
  }

  /** handleConnection has returned with an error. */
  predicate Broke(p: Phase) {
    (p.Ended? || p.LeftGroup? || p.Uncounted? || p.Gone?) && p.failed
  }

  ghost predicate AllFit(s: State) {
    forall h :: 0 <= h < |s.handlers| ==> Fits(s.handlers[h].phase, Transcript(s.wire, h))
  }

  ghost predicate WireIsOurs(s: State) {
    forall k :: 0 <= k < |s.wire| ==> s.wire[k].h < |s.handlers|
  }

  /** Exactly the handlers whose handleConnection returned an error are registered, once each. */
  ghost predicate FailuresBroke(s: State) {
    && (forall h :: h in s.registered ==> h < |s.handlers|)
    && (forall h :: 0 <= h < |s.handlers| ==> (h in s.registered <==> Broke(s.handlers[h].phase)))
    && forall a, b :: 0 <= a < b < |s.registered| ==> s.registered[a] != s.registered[b]
  }

  ghost predicate TranscriptInv(s: State) {
    AllFit(s) && WireIsOurs(s) && FailuresBroke(s)
  }

  lemma {:induction false} SilentUntilSpawned(wire: seq<Sent>, h: nat)
    requires forall k :: 0 <= k < |wire| ==> wire[k].h != h
    ensures Transcript(wire, h) == []
  {
    if wire == [] {
    } else {
      SilentUntilSpawned(wire[..|wire| - 1], h);
    }
  }

  lemma TranscriptAppend(wire: seq<Sent>, more: seq<Sent>, h: nat)
    requires |more| <= 1
    ensures Transcript(wire + more, h)
         == Transcript(wire, h) + if more != [] && more[0].h == h then [KindOf(more[0])] else []
  {
    if more == [] {
      assert wire + more == wire;
    } else {
      assert (wire + more)[..|wire|] == wire;
    }
  }

  lemma TalkFits(cfg: Config, s: State, h: nat, p: Phase, a: Action, t: seq<Kind>)
    requires Fits(p, t)
    ensures var p' := Next(cfg, s, p, a);
      var e := Emitted(h, p, p');
      |e| <= 1 && Fits(p', t + if e != [] then [KindOf(e[0])] else []) && (e != [] ==> e[0].h == h)
  {
    assert t + [] == t;
  }

  lemma BrokenStaysBroken(cfg: Config, s: State, p: Phase, a: Action)
    ensures Broke(p) ==> Broke(Next(cfg, s, p, a))
  {
  }

  lemma HandlerEmits(cfg: Config, s: State, h: nat, a: Action)
    requires h < |s.handlers|
    ensures var s', p := Handle(cfg, s, h, a), s.handlers[h].phase;
      && s'.wire == s.wire + Emitted(h, p, Next(cfg, s, p, a))
      && s'.handlers == s.handlers[h := Handler(s.handlers[h].ip, Next(cfg, s, p, a))]
  {
  }

  lemma HandlerFits(cfg: Config, s: State, h: nat, a: Action)
    requires h < |s.handlers| && AllFit(s)
    ensures AllFit(Handle(cfg, s, h, a))
  {
    hide Handle, Next, Emitted, Fits, Transcript;
    HandlerEmits(cfg, s, h, a);
    var s' := Handle(cfg, s, h, a);
    var p := s.handlers[h].phase;
    var e := Emitted(h, p, Next(cfg, s, p, a));
    TalkFits(cfg, s, h, p, a, Transcript(s.wire, h));
    forall g | 0 <= g < |s'.handlers|
      ensures Fits(s'.handlers[g].phase, Transcript(s'.wire, g))
    {
      TranscriptAppend(s.wire, e, g);
      assert Transcript(s.wire, g) + [] == Transcript(s.wire, g);
    }
  }

  lemma HandlerWire(cfg: Config, s: State, h: nat, a: Action)
    requires h < |s.handlers| && WireIsOurs(s)
    ensures WireIsOurs(Handle(cfg, s, h, a))
  {
  }

  /** A handler breaks in the step that registers it. */
  lemma BreaksOnce(cfg: Config, s: State, h: nat, a: Action)
    requires h < |s.handlers|
    ensures var s', p := Handle(cfg, s, h, a), s.handlers[h].phase;
      && |s'.handlers| == |s.handlers|
      && (forall g :: 0 <= g < |s.handlers| && g != h ==> s'.handlers[g] == s.handlers[g])
      && s'.registered == s.registered + (if !Broke(p) && Broke(s'.handlers[h].phase) then [h] else [])
      && (Broke(p) ==> Broke(s'.handlers[h].phase))
  {
    BrokenStaysBroken(cfg, s, s.handlers[h].phase, a);
    assert s.registered + [] == s.registered;
  }

  lemma HandlerFailures(cfg: Config, s: State, h: nat, a: Action)
    requires h < |s.handlers| && FailuresBroke(s)
    ensures FailuresBroke(Handle(cfg, s, h, a))
  {
    hide Handle, Broke;
    BreaksOnce(cfg, s, h, a);
  }

  lemma HandlerTalks(cfg: Config, s: State, h: nat, a: Action)
    requires h < |s.handlers| && TranscriptInv(s)
    ensures TranscriptInv(Handle(cfg, s, h, a))
  {
    HandlerFits(cfg, s, h, a);
    HandlerWire(cfg, s, h, a);
    HandlerFailures(cfg, s, h, a);
  }

  lemma SpawnTalks(s: State, s': State)
    requires TranscriptInv(s) && OnlySpawns(s, s')
    ensures TranscriptInv(s')
  {
    SilentUntilSpawned(s.wire, |s.handlers|);
  }

  lemma StepTalks(cfg: Config, s: State, a: Action)
    requires TranscriptInv(s)
    ensures TranscriptInv(Step(cfg, s, a))
  {
    if ByHandler(a) {
      if a.h < |s.handlers| {
        HandlerTalks(cfg, s, a.h, a);
      }
    } else if ByAcceptor(a) {
      AcceptorOnlySpawns(cfg, s, a);
      SpawnTalks(s, Accept(cfg, s, a));
    }
  }

  lemma {:induction false} Transcripts(cfg: Config, schedule: seq<Action>)
    ensures TranscriptInv(Exec(cfg, schedule))
  {
    if schedule == [] {
    } else {
      Transcripts(cfg, schedule[..|schedule| - 1]);
      StepTalks(cfg, Exec(cfg, schedule[..|schedule| - 1]), schedule[|schedule| - 1]);
    }
  }

  /** Every connection is told, in this order and nothing else: a challenge and then a quote or an
      error, an error alone, or a part of that when it breaks; never two quotes. */
  lemma ConversationsFollowTheProtocol(cfg: Config, schedule: seq<Action>, h: nat)
    requires h < |Exec(cfg, schedule).handlers|
    ensures Transcript(Exec(cfg, schedule).wire, h) in {[], [C], [C, Q], [C, E], [E]}
  {
    Transcripts(cfg, schedule);
    assert Fits(Exec(cfg, schedule).handlers[h].phase, Transcript(Exec(cfg, schedule).wire, h));
  }

  /** handleConnection has returned. */
  predicate Returned(p: Phase) {
    p.Ended? || p.LeftGroup? || p.Uncounted? || p.Gone?
  }

  /** A finished handler is reported to the failure tracker exactly when its client got neither a quote
      nor an error reply; in particular a wrong solution that was answered is no failure, and a
      connection that broke always is one.  (Of the handlers recorded here the source reports those whose
      error is not that of a closed connection.) */
  lemma AnsweredIsNoFailure(cfg: Config, schedule: seq<Action>, h: nat)
    requires h < |Exec(cfg, schedule).handlers|
    ensures var s := Exec(cfg, schedule);
      h in s.registered <==> Returned(s.handlers[h].phase) && Transcript(s.wire, h) in {[], [C]}
  {
    hide Exec;
    Transcripts(cfg, schedule);
    var s := Exec(cfg, schedule);
    assert Fits(s.handlers[h].phase, Transcript(s.wire, h));
  }

  /** A call into the outside that handler phase p is about to make fails in step a: setting the
      deadline, sending a message or reading one. */
  predicate CallFails(p: Phase, a: Action) {
    match a
    case ReadDifficulty(_, ok) => p.Starting? && !ok
    case SendChallenge(_, ok) => p.Asked? && !ok
    case Receive(_, answer) => p.Waiting? && answer.None?
    case Reply(_, ok) => (p.Approved? || p.Rejected? || p.Refused?) && !ok
    case _ => false
  }

  lemma FailedCallBreaks(cfg: Config, s: State, a: Action)
    requires ByHandler(a) && a.h < |s.handlers| && CallFails(s.handlers[a.h].phase, a)
    ensures var s' := Step(cfg, s, a);
      a.h < |s'.handlers| && Broke(s'.handlers[a.h].phase) && s'.wire == s.wire
  {
    assert s.wire + [] == s.wire;
  }

  lemma BrokenHandlerIsSilent(cfg: Config, s: State, h: nat, g: nat, a: Action)
    requires h < |s.handlers| && g < |s.handlers| && Broke(s.handlers[h].phase)
    ensures var s' := Handle(cfg, s, g, a);
      h < |s'.handlers| && Broke(s'.handlers[h].phase) && Transcript(s'.wire, h) == Transcript(s.wire, h)
  {
    var p := s.handlers[g].phase;
    HandlerEmits(cfg, s, g, a);
    BrokenStaysBroken(cfg, s, p, a);
    TranscriptAppend(s.wire, Emitted(g, p, Next(cfg, s, p, a)), h);
    assert Transcript(s.wire, h) + [] == Transcript(s.wire, h);
  }

  lemma BrokenStaysSilent(cfg: Config, s: State, h: nat, a: Action)
    requires h < |s.handlers| && Broke(s.handlers[h].phase)
    ensures var s' := Step(cfg, s, a);
      h < |s'.handlers| && Broke(s'.handlers[h].phase) && Transcript(s'.wire, h) == Transcript(s.wire, h)
  {
    hide Handle, Accept, Broke, Transcript;
    if ByHandler(a) {
      if a.h < |s.handlers| {
        BrokenHandlerIsSilent(cfg, s, h, a.h, a);
      }
    } else if ByAcceptor(a) {
      AcceptorOnlySpawns(cfg, s, a);
    }
  }

  lemma {:induction false} SilentAfterFailure(cfg: Config, schedule: seq<Action>, h: nat, a: Action, later: seq<Action>)
    requires h < |Exec(cfg, schedule).handlers| && ByHandler(a) && a.h == h
    requires CallFails(Exec(cfg, schedule).handlers[h].phase, a)
    ensures var s, s' := Exec(cfg, schedule), Exec(cfg, schedule + [a] + later);
      h < |s'.handlers| && Broke(s'.handlers[h].phase) && Transcript(s'.wire, h) == Transcript(s.wire, h)
  {
    hide Step, Broke, Transcript, CallFails;
    var all := schedule + [a] + later;
    if later == [] {
      assert all[..|all| - 1] == schedule;
      FailedCallBreaks(cfg, Exec(cfg, schedule), a);
    } else {
      var init := later[..|later| - 1];
      assert all[..|all| - 1] == schedule + [a] + init;
      SilentAfterFailure(cfg, schedule, h, a, init);
      BrokenStaysSilent(cfg, Exec(cfg, schedule + [a] + init), h, later[|later| - 1]);
    }
  }

  /** A call that fails ends the conversation under every continuation: the handler is registered as
      a failure, and its client is never sent anything again. */
  lemma FailedCallIsFinal(cfg: Config, schedule: seq<Action>, h: nat, a: Action, later: seq<Action>)
    requires h < |Exec(cfg, schedule).handlers| && ByHandler(a) && a.h == h
    requires CallFails(Exec(cfg, schedule).handlers[h].phase, a)
    ensures var s, s' := Exec(cfg, schedule), Exec(cfg, schedule + [a] + later);
      h in s'.registered && Transcript(s'.wire, h) == Transcript(s.wire, h)
  {
    hide Exec, Broke, Transcript, CallFails;
    SilentAfterFailure(cfg, schedule, h, a, later);
    Transcripts(cfg, schedule + [a] + later);
  }
}
