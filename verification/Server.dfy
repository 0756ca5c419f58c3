/** The running server: one acceptor, any number of connection handlers, the difficulty adjuster and
    the challenge timers, interleaved at the granularity of single atomic steps. */
module ServerModel {
  import opened Bytes
  import opened HashDifficulty
  import opened Keyed
  import opened ChallengeStore
  import Limiter = ConnectionLimiterModel
  import Window = RateLimiterModel

  datatype Config = Config(
    maxConns: nat,              // MaxConnections
    initial: byte,              // InitialDifficulty
    perIP: Limiter.Config,      // the connection limiter's settings
    rate: Window.Config,        // the rate limiter's settings
    ttl: int,                   // lifetime of a challenge
    sha: Hash)

  /** Where the acceptor is with the connection it is handling. */
  datatype Acceptor =
    | Idle
    | Screened(ip: string)      // the protection layer let it pass
    | Slotted(ip: string)       // the connection limiter counted it
    | Rated(ip: string)         // the rate limiter let it pass
    | Below(ip: string)         // fewer than maxConns connections were read
    | Joined(ip: string)        // activeConns.Add(1) done
    | Counted(ip: string)       // currentConns.Add(1) done, goroutine about to start

  /** Where a handler is.  From Ended on, failed says whether handleConnection returned an error. */
  datatype Phase =
    | Starting
    | Armed(difficulty: byte)   // has read the difficulty
    | Asked(ch: Challenge)      // has stored a challenge
    | Waiting                   // has sent it
    | Answered(sol: Solution)   // has read a solution
    | Approved(sol: Solution, at: int)
    | Rejected(sol: Solution, at: int, known: nat)   // known: challenges issued by then
    | Refused                   // could not create a challenge
    | Ended(failed: bool)
    | LeftGroup(failed: bool)   // activeConns.Done() done
    | Uncounted(failed: bool)   // currentConns.Add(-1) done
    | Gone(failed: bool)        // RemoveConnection done

  datatype Handler = Handler(ip: string, phase: Phase)

  datatype Sent =
    | ChallengeSent(h: nat, ch: Challenge)
    | QuoteSent(h: nat, sol: Solution, at: int)
    | RefusalSent(h: nat, sol: Solution, at: int, known: nat)   // INVALID_SOLUTION
    | InternalErrorSent(h: nat)                                 // INTERNAL_ERROR

  datatype State = State(
    now: int,
    acceptor: Acceptor,
    currentConns: int,
    group: int,                             // the WaitGroup counter
    slots: map<string, Limiter.Stats>,
    limits: map<string, Window.Bucket>,
    difficulty: nat,
    adjuster: Option<int>,                  // the count it has loaded
    handlers: seq<Handler>,
    store: map<string, Challenge>,
    issued: seq<Challenge>,                 // every challenge created
    wire: seq<Sent>,                        // every message sent, in order
    registered: seq<nat>,                   // handlers whose error may be reported as a failure
    leaked: seq<string>,                    // connections dropped after their slot was taken
    dropped: bool)                          // whether the limiter ever forgot a count

  /** Decisions of code outside this system are the actions' boolean arguments. */
  datatype Action =
    | Tick(dt: nat)
    | Arrive(ip: string, allowed: bool) | TakeSlot | AskRate | LoadCount | Join | CountUp | Spawn
    | ReadDifficulty(h: nat, ok: bool) | Create(h: nat, prefix: string, nonce: string) | SendChallenge(h: nat, ok: bool)
    | Receive(h: nat, answer: Option<Solution>) | Verify(h: nat) | Reply(h: nat, ok: bool)
    | LeaveGroup(h: nat) | CountDown(h: nat) | FreeSlot(h: nat)
    | AdjustLoad | AdjustSwap
    | SweepSlots | SweepLimits
    | Evict(i: nat)

  // ----- acceptor -----

  function Accept(cfg: Config, s: State, a: Action): State {
    match a
    case Arrive(ip, allowed) => if s.acceptor.Idle? && allowed then s.(acceptor := Screened(ip)) else s
    case TakeSlot =>
      if !s.acceptor.Screened? then s
      else
        var e, op := Get(s.slots, s.acceptor.ip), Stamped(s.now, Limiter.Open);
        s.(acceptor := if Limiter.Admits(cfg.perIP, e, op) then Slotted(s.acceptor.ip) else Idle,
           slots := Put(s.slots, s.acceptor.ip, Limiter.Step(cfg.perIP, e, op)),
           dropped := s.dropped || (e.Some? && s.now - e.value.lastReset > cfg.perIP.ttl))
    case AskRate =>
      if !s.acceptor.Slotted? then s
      else
        var e, op := Get(s.limits, s.acceptor.ip), Stamped(s.now, Window.Ask);
        var granted := Window.Grants(cfg.rate, e, op);
        s.(acceptor := if granted then Rated(s.acceptor.ip) else Idle,
           limits := Put(s.limits, s.acceptor.ip, Window.Step(cfg.rate, e, op)),
           leaked := if granted then s.leaked else s.leaked + [s.acceptor.ip])
    case LoadCount =>
      if !s.acceptor.Rated? then s
      else if s.currentConns >= cfg.maxConns then s.(acceptor := Idle, leaked := s.leaked + [s.acceptor.ip])
      else s.(acceptor := Below(s.acceptor.ip))
    case Join => if s.acceptor.Below? then s.(acceptor := Joined(s.acceptor.ip), group := s.group + 1) else s
    case CountUp =>
      if s.acceptor.Joined? then s.(acceptor := Counted(s.acceptor.ip), currentConns := s.currentConns + 1) else s
    case Spawn =>
      if s.acceptor.Counted?
      then s.(acceptor := Idle, handlers := s.handlers + [Handler(s.acceptor.ip, Starting)])
      else s
    case _ => s
  }

  // ----- one handler -----

  /** The phase a handler's action leads to; the phase itself when the action is not enabled. */
  function Next(cfg: Config, s: State, p: Phase, a: Action): Phase {
    match a
    case ReadDifficulty(_, ok) => if !p.Starting? then p else if ok then Armed(s.difficulty % 256) else Ended(true)
    case Create(_, prefix, nonce) =>
      if !p.Armed? then p
      else if p.difficulty == 0 then Refused
      else Asked(Challenge(prefix, p.difficulty, nonce, s.now + cfg.ttl))
    case SendChallenge(_, ok) => if !p.Asked? then p else if ok then Waiting else Ended(true)
    case Receive(_, answer) =>
      if !p.Waiting? then p else if answer.Some? then Answered(answer.value) else Ended(true)
    case Verify(_) =>
      if !p.Answered? then p
      else if Accepts(cfg.sha, s.store, p.sol, s.now) then Approved(p.sol, s.now)
      else Rejected(p.sol, s.now, |s.issued|)
    case Reply(_, ok) => if p.Approved? || p.Rejected? || p.Refused? then Ended(!ok) else p
    case LeaveGroup(_) => if p.Ended? then LeftGroup(p.failed) else p
    case CountDown(_) => if p.LeftGroup? then Uncounted(p.failed) else p
    case FreeSlot(_) => if p.Uncounted? then Gone(p.failed) else p
    case _ => p
  }

  /** The message that leaves on the way from phase p to phase p'. */
  function Emitted(h: nat, p: Phase, p': Phase): seq<Sent> {
    if p.Asked? && p'.Waiting? then [ChallengeSent(h, p.ch)]
    else if p.Approved? && p' == Ended(false) then [QuoteSent(h, p.sol, p.at)]
    else if p.Rejected? && p' == Ended(false) then [RefusalSent(h, p.sol, p.at, p.known)]
    else if p.Refused? && p' == Ended(false) then [InternalErrorSent(h)]
    else []
  }

  function Handle(cfg: Config, s: State, h: nat, a: Action): State
    requires h < |s.handlers|
  {
    var ip, p := s.handlers[h].ip, s.handlers[h].phase;
    var p' := Next(cfg, s, p, a);
    var asks := !p.Asked? && p'.Asked?;
    s.(handlers := s.handlers[h := Handler(ip, p')],
       wire := s.wire + Emitted(h, p, p'),
       store := if asks then s.store[p'.ch.nonce := p'.ch] else s.store,
       issued := if asks then s.issued + [p'.ch] else s.issued,
       registered := if !p.Ended? && p' == Ended(true) then s.registered + [h] else s.registered,
       group := if p.Ended? && p'.LeftGroup? then s.group - 1 else s.group,
       currentConns := if p.LeftGroup? && p'.Uncounted? then s.currentConns - 1 else s.currentConns,
       slots := if p.Uncounted? && p'.Gone?
                then Put(s.slots, ip, Limiter.Step(cfg.perIP, Get(s.slots, ip), Stamped(s.now, Limiter.Close)))
                else s.slots)
  }

  // ----- timers -----

  /** adjustDifficulty's choice for a number of connections. */
  function Adjusted(cfg: Config, conns: int): nat {
    if conns > cfg.maxConns * 8 / 10 then cfg.initial as int + 2
    else if conns > cfg.maxConns * 5 / 10 then cfg.initial as int + 1
    else cfg.initial as int
  }

  function Timer(cfg: Config, s: State, a: Action): State {
    match a
    case Tick(dt) => s.(now := s.now + dt)
    case AdjustLoad => if s.adjuster.None? then s.(adjuster := Some(s.currentConns)) else s
    case AdjustSwap =>
      if s.adjuster.Some? then s.(difficulty := Adjusted(cfg, s.adjuster.value), adjuster := None) else s
    case SweepSlots =>
      var op := Stamped(s.now, Limiter.Clean);
      s.(slots := Swept(Limiter.Stepper(cfg.perIP), s.slots, op),
         dropped := s.dropped || exists ip :: ip in s.slots && s.now - s.slots[ip].lastReset > cfg.perIP.ttl)
    case SweepLimits =>
      s.(limits := Swept(Window.Stepper(cfg.rate), s.limits, Stamped(s.now, Window.Clean)))
    case Evict(i) =>
      if i < |s.issued| && s.issued[i].expiresAt <= s.now then s.(store := s.store - {s.issued[i].nonce}) else s
    case _ => s
  }

  predicate ByHandler(a: Action) {
    || a.ReadDifficulty? || a.Create? || a.SendChallenge? || a.Receive? || a.Verify? || a.Reply?
    || a.LeaveGroup? || a.CountDown? || a.FreeSlot?
  }

  predicate ByAcceptor(a: Action) {
    a.Arrive? || a.TakeSlot? || a.AskRate? || a.LoadCount? || a.Join? || a.CountUp? || a.Spawn?
  }

  function Step(cfg: Config, s: State, a: Action): State {
    if ByHandler(a) then (if a.h < |s.handlers| then Handle(cfg, s, a.h, a) else s)
    else if ByAcceptor(a) then Accept(cfg, s, a)
    else Timer(cfg, s, a)
  }

  function Start(cfg: Config): State {
    State(0, Idle, 0, 0, map[], map[], cfg.initial as int, None, [], map[], [], [], [], [], false)
  }

  /** Any schedule of actions, the disabled ones skipped. */
  function Exec(cfg: Config, schedule: seq<Action>): State {
    if schedule == [] then Start(cfg)
    else Step(cfg, Exec(cfg, schedule[..|schedule| - 1]), schedule[|schedule| - 1])
  }
}

/** Counting the handlers that satisfy a test. */
module HandlerCounts {
  import opened ServerModel

  function CountIf(hs: seq<Handler>, test: Handler -> bool): nat {
    if hs == [] then 0 else CountIf(hs[..|hs| - 1], test) + if test(hs[|hs| - 1]) then 1 else 0
  }

  lemma CountAppend(hs: seq<Handler>, h: Handler, test: Handler -> bool)
    ensures CountIf(hs + [h], test) == CountIf(hs, test) + if test(h) then 1 else 0
  {
    assert (hs + [h])[..|hs|] == hs;
  }

  lemma {:induction false} CountUpdate(hs: seq<Handler>, i: nat, h: Handler, test: Handler -> bool)
    requires i < |hs|
    ensures CountIf(hs[i := h], test)
         == CountIf(hs, test) - (if test(hs[i]) then 1 else 0) + (if test(h) then 1 else 0)
  {
    var init := hs[..|hs| - 1];
    if i < |init| {
      CountUpdate(init, i, h, test);
      assert hs[i := h][..|hs| - 1] == init[i := h];
    } else {
      assert hs[i := h][..|hs| - 1] == init;
    }
  }

  lemma {:induction false} CountImplies(hs: seq<Handler>, test: Handler -> bool, weaker: Handler -> bool)
    requires forall h :: test(h) ==> weaker(h)
    ensures CountIf(hs, test) <= CountIf(hs, weaker)
  {
    if hs == [] {
    } else {
      CountImplies(hs[..|hs| - 1], test, weaker);
    }
  }

  lemma {:induction false} CountZero(hs: seq<Handler>, test: Handler -> bool, i: nat)
    requires i < |hs| && CountIf(hs, test) == 0
    ensures !test(hs[i])
  {
    if i < |hs| - 1 {
      CountZero(hs[..|hs| - 1], test, i);
    }
  }

  /** A partition counts to the whole. */
  lemma {:induction false} CountSplit(hs: seq<Handler>, whole: Handler -> bool, a: Handler -> bool, b: Handler -> bool)
    requires forall h :: (whole(h) <==> a(h) || b(h)) && !(a(h) && b(h))
    ensures CountIf(hs, whole) == CountIf(hs, a) + CountIf(hs, b)
  {
    if hs == [] {
    } else {
      CountSplit(hs[..|hs| - 1], whole, a, b);
    }
  }
}
