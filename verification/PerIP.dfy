/** What one IP can get out of the running server, under every interleaving: the two limiters' maps
    inside the server are runs of the limiters, so their theorems bound its connections. */
module PerIPTheory {
  import opened Arithmetic
  import opened Keyed
  import opened ServerModel
  import opened HandlerCounts
  import opened AcceptLoopTheory
  import Limiter = ConnectionLimiterModel
  import LimiterTheory = ConnectionLimiterTheory
  import Window = RateLimiterModel
  import WindowTheory = RateLimiterTheory

  /** A locked step of the connection limiter, and of the rate limiter. */
  type SlotEvent = Event<string, Stamped<Limiter.Op>>

  type RateEvent = Event<string, Stamped<Window.Op>>

  // ----- connections charged to an IP are the live ones -----

  /** What a step does to the connection limiter. */
  function SlotEvents(s: State, a: Action): seq<SlotEvent> {
    if a.TakeSlot? && s.acceptor.Screened? then [At(s.acceptor.ip, Stamped(s.now, Limiter.Open))]
    else if a.FreeSlot? && a.h < |s.handlers| && s.handlers[a.h].phase.Uncounted?
    then [At(s.handlers[a.h].ip, Stamped(s.now, Limiter.Close))]
    else if a.SweepSlots? then [Sweep(Stamped(s.now, Limiter.Clean))]
    else []
  }

  function SlotRun(cfg: Config, schedule: seq<Action>): seq<SlotEvent> {
    if schedule == [] then []
    else
      var before := schedule[..|schedule| - 1];
      SlotRun(cfg, before) + SlotEvents(Exec(cfg, before), schedule[|schedule| - 1])
  }

  /** The map is a run of the limiter, and what an IP is charged with are its admissions less its
      releases, whether or not the limiter has forgotten any of them. */
  ghost predicate SlotsFollow(cfg: Config, s: State, run: seq<SlotEvent>, ip: string) {
    && Tracks(Limiter.Stepper(cfg.perIP), s.slots, run, s.now)
    && Charged(s, ip) == LimiterTheory.Live(cfg.perIP, Project(run, ip))
  }

  lemma LiveOneMore(cfg: Limiter.Config, ops: seq<Stamped<Limiter.Op>>, op: Stamped<Limiter.Op>)
    ensures LimiterTheory.Live(cfg, ops + [op])
         == LimiterTheory.Live(cfg, ops) + One(Limiter.Admits(cfg, Limiter.State(cfg, ops), op)) - One(op.act.Close?)
  {
    OneMore(Limiter.Stepper(cfg), Limiter.Admitter(cfg), None, ops, op);
    assert (ops + [op])[..|ops|] == ops;
  }

  /** What an event adds to the live connections of ip. */
  function LiveChange(cfg: Limiter.Config, slots: map<string, Limiter.Stats>, ev: SlotEvent,
                      ip: string): int {
    if ev.Sweep? || ev.key != ip then 0 else One(Limiter.Admits(cfg, Get(slots, ip), ev.op)) - One(ev.op.act.Close?)
  }

  lemma EventChangesLive(cfg: Limiter.Config, slots: map<string, Limiter.Stats>, now: int,
                         run: seq<SlotEvent>, ev: SlotEvent, ip: string)
    requires Tracks(Limiter.Stepper(cfg), slots, run, now) && (ev.Sweep? ==> ev.op.act.Clean?)
    ensures LimiterTheory.Live(cfg, Project(run + [ev], ip))
         == LimiterTheory.Live(cfg, Project(run, ip)) + LiveChange(cfg, slots, ev, ip)
  {
    hide Project, Run, RunAll, LimiterTheory.Live;
    ProjectOneMore(run, ev, ip);
    KeysAreIsolated(Limiter.Stepper(cfg), run, ip);
    LiveOneMore(cfg, Project(run, ip), ev.op);
  }

  /** One event of the limiter and the step that causes it. */
  lemma EventFollows(cfg: Config, s: State, s': State, run: seq<SlotEvent>,
                     ev: SlotEvent, ip: string)
    requires SlotsFollow(cfg, s, run, ip) && ev.op.now == s.now == s'.now && (ev.Sweep? ==> ev.op.act.Clean?)
    requires s'.slots == Apply(Limiter.Stepper(cfg.perIP), s.slots, ev)
    requires Charged(s', ip) == Charged(s, ip) + LiveChange(cfg.perIP, s.slots, ev, ip)
    ensures SlotsFollow(cfg, s', run + [ev], ip)
  {
    TracksOneMore(Limiter.Stepper(cfg.perIP), s.slots, run, s.now, ev);
    EventChangesLive(cfg.perIP, s.slots, s.now, run, ev, ip);
  }

  lemma SilentStepFollows(cfg: Config, s: State, s': State, run: seq<SlotEvent>, ip: string)
    requires SlotsFollow(cfg, s, run, ip) && s'.slots == s.slots && s.now <= s'.now
    requires Charged(s', ip) == Charged(s, ip)
    ensures SlotsFollow(cfg, s', run + [], ip)
  {
    TracksOn(Limiter.Stepper(cfg.perIP), s.slots, run, s.now, s'.now);
    assert run + [] == run;
  }

  lemma TakeSlotFollows(cfg: Config, s: State, run: seq<SlotEvent>, ip: string)
    requires SlotsFollow(cfg, s, run, ip) && s.acceptor.Screened?
    ensures SlotsFollow(cfg, Accept(cfg, s, TakeSlot), run + [At(s.acceptor.ip, Stamped(s.now, Limiter.Open))], ip)
  {
    EventFollows(cfg, s, Accept(cfg, s, TakeSlot), run, At(s.acceptor.ip, Stamped(s.now, Limiter.Open)), ip);
  }

  lemma FreeSlotFollows(cfg: Config, s: State, h: nat, run: seq<SlotEvent>, ip: string)
    requires SlotsFollow(cfg, s, run, ip) && h < |s.handlers| && s.handlers[h].phase.Uncounted?
    ensures var freed := At(s.handlers[h].ip, Stamped(s.now, Limiter.Close));
      SlotsFollow(cfg, Handle(cfg, s, h, FreeSlot(h)), run + [freed], ip)
  {
    var s' := Handle(cfg, s, h, FreeSlot(h));
    CountUpdate(s.handlers, h, s'.handlers[h], OpenOf(ip));
    EventFollows(cfg, s, s', run, At(s.handlers[h].ip, Stamped(s.now, Limiter.Close)), ip);
  }

  lemma HandlerStepFollows(cfg: Config, s: State, h: nat, a: Action, run: seq<SlotEvent>,
                           ip: string)
    requires SlotsFollow(cfg, s, run, ip) && h < |s.handlers| && !(a.FreeSlot? && s.handlers[h].phase.Uncounted?)
    ensures SlotsFollow(cfg, Handle(cfg, s, h, a), run + [], ip)
  {
    var s' := Handle(cfg, s, h, a);
    CountUpdate(s.handlers, h, s'.handlers[h], OpenOf(ip));
    SilentStepFollows(cfg, s, s', run, ip);
  }

  lemma SpawnKeepsCharge(s: State, s': State, ip: string)
    requires s.acceptor.Counted?
    requires s' == s.(acceptor := Idle, handlers := s.handlers + [Handler(s.acceptor.ip, Starting)])
    ensures Charged(s', ip) == Charged(s, ip)
  {
    CountAppend(s.handlers, Handler(s.acceptor.ip, Starting), OpenOf(ip));
  }

  lemma DropKeepsCharge(s: State, s': State, ip: string)
    requires DropsConnection(s, s')
    ensures Charged(s', ip) == Charged(s, ip)
  {
    LeakedAppend(s.leaked, s.acceptor.ip, ip);
  }

  lemma PassKeepsCharge(s: State, s': State, ip: string)
    requires PassesConnection(s, s')
    ensures Charged(s', ip) == Charged(s, ip)
  {
  }

  /** The acceptor's other steps leave the map and the charges alone. */
  lemma AcceptorKeepsCharge(cfg: Config, s: State, a: Action, ip: string)
    requires ByAcceptor(a) && !(a.TakeSlot? && s.acceptor.Screened?)
    ensures var s' := Accept(cfg, s, a);
      Charged(s', ip) == Charged(s, ip) && s'.slots == s.slots
  {
    if a.Spawn? && s.acceptor.Counted? {
      SpawnKeepsCharge(s, Accept(cfg, s, a), ip);
    } else if a.TakeSlot? {
      assert Accept(cfg, s, a) == s;
    } else {
      DropsOrPasses(cfg, s, a);
      if DropsConnection(s, Accept(cfg, s, a)) {
        DropKeepsCharge(s, Accept(cfg, s, a), ip);
      } else {
        PassKeepsCharge(s, Accept(cfg, s, a), ip);
      }
    }
  }

  lemma AcceptorKeepsTime(cfg: Config, s: State, a: Action)
    ensures Accept(cfg, s, a).now == s.now
  {
  }

  lemma AcceptorStepFollows(cfg: Config, s: State, a: Action, run: seq<SlotEvent>, ip: string)
    requires SlotsFollow(cfg, s, run, ip) && ByAcceptor(a)
    ensures SlotsFollow(cfg, Accept(cfg, s, a), run + SlotEvents(s, a), ip)
  {
    if a.TakeSlot? && s.acceptor.Screened? {
      TakeSlotFollows(cfg, s, run, ip);
    } else {
      AcceptorKeepsCharge(cfg, s, a, ip);
      AcceptorKeepsTime(cfg, s, a);
      SilentStepFollows(cfg, s, Accept(cfg, s, a), run, ip);
    }
  }

  lemma TimerStepFollows(cfg: Config, s: State, a: Action, run: seq<SlotEvent>, ip: string)
    requires SlotsFollow(cfg, s, run, ip) && !ByAcceptor(a) && !ByHandler(a)
    ensures SlotsFollow(cfg, Timer(cfg, s, a), run + SlotEvents(s, a), ip)
  {
    if a.SweepSlots? {
      EventFollows(cfg, s, Timer(cfg, s, a), run, Sweep(Stamped(s.now, Limiter.Clean)), ip);
    } else {
      SilentStepFollows(cfg, s, Timer(cfg, s, a), run, ip);
    }
  }

  lemma StepFollows(cfg: Config, s: State, a: Action, run: seq<SlotEvent>, ip: string)
    requires SlotsFollow(cfg, s, run, ip)
    ensures SlotsFollow(cfg, Step(cfg, s, a), run + SlotEvents(s, a), ip)
  {
    hide Handle, Accept, Timer, SlotsFollow;
    if ByHandler(a) {
      if a.h >= |s.handlers| {
        SilentStepFollows(cfg, s, s, run, ip);
      } else if a.FreeSlot? && s.handlers[a.h].phase.Uncounted? {
        FreeSlotFollows(cfg, s, a.h, run, ip);
      } else {
        HandlerStepFollows(cfg, s, a.h, a, run, ip);
      }
    } else if ByAcceptor(a) {
      AcceptorStepFollows(cfg, s, a, run, ip);
    } else {
      TimerStepFollows(cfg, s, a, run, ip);
    }
  }

  /** Under every interleaving, the open connections of an IP together with the lost ones are those
      the limiter admitted and has not seen released. */
  lemma {:induction false} ChargedAreLive(cfg: Config, schedule: seq<Action>, ip: string)
    ensures SlotsFollow(cfg, Exec(cfg, schedule), SlotRun(cfg, schedule), ip)
  {
    if schedule == [] {
    } else {
      var before := schedule[..|schedule| - 1];
      ChargedAreLive(cfg, before, ip);
      StepFollows(cfg, Exec(cfg, before), schedule[|schedule| - 1], SlotRun(cfg, before), ip);
    }
  }

  lemma ChargeBound(cfg: Config, s: State, run: seq<SlotEvent>, ip: string)
    requires Limiter.Sane(cfg.perIP) && SlotsFollow(cfg, s, run, ip)
    ensures Charged(s, ip) <= Allowance(cfg.perIP.maxPerIP, cfg.perIP.ttl + 1, s.now)
  {
    var ops := Project(run, ip);
    ProjectionIsTimed(0, run, ip);
    LimiterTheory.LiveBound(cfg.perIP, 0, ops);
    AllowanceGrows(cfg.perIP.maxPerIP, cfg.perIP.ttl + 1, End(0, ops), s.now);
  }

  /** So an IP never has more than maxPerIP * (1 + T / (ttl + 1)) connections open or lost at time T,
      however often the limiter has forgotten its count. */
  lemma OpenConnectionsBound(cfg: Config, schedule: seq<Action>, ip: string)
    requires Limiter.Sane(cfg.perIP)
    ensures var s := Exec(cfg, schedule);
      CountIf(s.handlers, OpenOf(ip)) + LeakedOf(s.leaked, ip)
      <= Allowance(cfg.perIP.maxPerIP, cfg.perIP.ttl + 1, s.now)
  {
    ChargedAreLive(cfg, schedule, ip);
    ChargeBound(cfg, Exec(cfg, schedule), SlotRun(cfg, schedule), ip);
  }

  // ----- connections handled for an IP are rate-limited -----

  /** What a step does to the rate limiter. */
  function RateEvents(s: State, a: Action): seq<RateEvent> {
    if a.AskRate? && s.acceptor.Slotted? then [At(s.acceptor.ip, Stamped(s.now, Window.Ask))]
    else if a.SweepLimits? then [Sweep(Stamped(s.now, Window.Clean))]
    else []
  }

  function RateRun(cfg: Config, schedule: seq<Action>): seq<RateEvent> {
    if schedule == [] then []
    else
      var before := schedule[..|schedule| - 1];
      RateRun(cfg, before) + RateEvents(Exec(cfg, before), schedule[|schedule| - 1])
  }

  function From(ip: string): Handler -> bool {
    (h: Handler) => h.ip == ip
  }

  /** The connection in hand has passed the rate limiter. */
  function Passed(acc: Acceptor): Option<string> {
    if acc.Idle? || acc.Screened? || acc.Slotted? then None else Some(acc.ip)
  }

  /** Handlers ever started for ip, and the connection about to get one. */
  function Handled(s: State, ip: string): nat {
    CountIf(s.handlers, From(ip)) + One(Passed(s.acceptor) == Some(ip))
  }

  ghost predicate LimitsFollow(cfg: Config, s: State, run: seq<RateEvent>, ip: string) {
    && Tracks(Window.Stepper(cfg.rate), s.limits, run, s.now)
    && Handled(s, ip) <= |Window.GrantTimes(cfg.rate, None, Project(run, ip))|
  }

  lemma GrantsOneMore(cfg: Window.Config, ops: seq<Stamped<Window.Op>>, op: Stamped<Window.Op>)
    ensures |Window.GrantTimes(cfg, None, ops + [op])|
         == |Window.GrantTimes(cfg, None, ops)| + One(Window.Grants(cfg, Window.State(cfg, None, ops), op))
  {
    OneMore(Window.Stepper(cfg), Window.Granter(cfg), None, ops, op);
  }

  /** What an event adds to the grants of ip. */
  function GrantChange(cfg: Window.Config, limits: map<string, Window.Bucket>, ev: RateEvent,
                       ip: string): int {
    if ev.Sweep? || ev.key != ip then 0 else One(Window.Grants(cfg, Get(limits, ip), ev.op))
  }

  lemma EventChangesGrants(cfg: Window.Config, limits: map<string, Window.Bucket>, now: int,
                           run: seq<RateEvent>, ev: RateEvent, ip: string)
    requires Tracks(Window.Stepper(cfg), limits, run, now) && (ev.Sweep? ==> ev.op.act.Clean?)
    ensures |Window.GrantTimes(cfg, None, Project(run + [ev], ip))|
         == |Window.GrantTimes(cfg, None, Project(run, ip))| + GrantChange(cfg, limits, ev, ip)
  {
    hide Project, Run, RunAll, Window.GrantTimes;
    ProjectOneMore(run, ev, ip);
    KeysAreIsolated(Window.Stepper(cfg), run, ip);
    GrantsOneMore(cfg, Project(run, ip), ev.op);
  }

  lemma RateEventFollows(cfg: Config, s: State, s': State, run: seq<RateEvent>,
                         ev: RateEvent, ip: string)
    requires LimitsFollow(cfg, s, run, ip) && ev.op.now == s.now == s'.now && (ev.Sweep? ==> ev.op.act.Clean?)
    requires s'.limits == Apply(Window.Stepper(cfg.rate), s.limits, ev)
    requires Handled(s', ip) == Handled(s, ip) + GrantChange(cfg.rate, s.limits, ev, ip)
    ensures LimitsFollow(cfg, s', run + [ev], ip)
  {
    TracksOneMore(Window.Stepper(cfg.rate), s.limits, run, s.now, ev);
    EventChangesGrants(cfg.rate, s.limits, s.now, run, ev, ip);
  }

  lemma SilentStepLimits(cfg: Config, s: State, s': State, run: seq<RateEvent>, ip: string)
    requires LimitsFollow(cfg, s, run, ip) && s'.limits == s.limits && s.now <= s'.now
    requires Handled(s', ip) <= Handled(s, ip)
    ensures LimitsFollow(cfg, s', run + [], ip)
  {
    TracksOn(Window.Stepper(cfg.rate), s.limits, run, s.now, s'.now);
    assert run + [] == run;
  }

  lemma AskLimits(cfg: Config, s: State, run: seq<RateEvent>, ip: string)
    requires LimitsFollow(cfg, s, run, ip) && s.acceptor.Slotted?
    ensures LimitsFollow(cfg, Accept(cfg, s, AskRate), run + [At(s.acceptor.ip, Stamped(s.now, Window.Ask))], ip)
  {
    RateEventFollows(cfg, s, Accept(cfg, s, AskRate), run, At(s.acceptor.ip, Stamped(s.now, Window.Ask)), ip);
  }

  lemma SpawnKeepsHandled(s: State, s': State, ip: string)
    requires s.acceptor.Counted?
    requires s' == s.(acceptor := Idle, handlers := s.handlers + [Handler(s.acceptor.ip, Starting)])
    ensures Handled(s', ip) == Handled(s, ip)
  {
    CountAppend(s.handlers, Handler(s.acceptor.ip, Starting), From(ip));
  }

  /** The step starts no handler and takes no connection past the rate limiter. */
  ghost predicate LetsNoneThrough(s: State, s': State) {
    && s'.handlers == s.handlers && s'.limits == s.limits
    && (Passed(s'.acceptor).None? || Passed(s'.acceptor) == Passed(s.acceptor))
  }

  lemma TakeSlotLetsNoneThrough(cfg: Config, s: State)
    ensures LetsNoneThrough(s, Accept(cfg, s, TakeSlot))
  {
  }

  lemma LoadCountLetsNoneThrough(cfg: Config, s: State)
    ensures LetsNoneThrough(s, Accept(cfg, s, LoadCount))
  {
  }

  lemma OthersPass(cfg: Config, s: State, a: Action)
    requires ByAcceptor(a) && !(a.AskRate? && s.acceptor.Slotted?) && !(a.Spawn? && s.acceptor.Counted?)
    ensures LetsNoneThrough(s, Accept(cfg, s, a))
  {
    if a.TakeSlot? {
      TakeSlotLetsNoneThrough(cfg, s);
    } else if a.LoadCount? {
      LoadCountLetsNoneThrough(cfg, s);
    } else {
      assert a.AskRate? || (a.Spawn? && !s.acceptor.Counted?) ==> Accept(cfg, s, a) == s;
    }
  }

  lemma AcceptorKeepsHandled(cfg: Config, s: State, a: Action, ip: string)
    requires ByAcceptor(a) && !(a.AskRate? && s.acceptor.Slotted?)
    ensures var s' := Accept(cfg, s, a);
      Handled(s', ip) <= Handled(s, ip) && s'.limits == s.limits
  {
    if a.Spawn? && s.acceptor.Counted? {
      SpawnKeepsHandled(s, Accept(cfg, s, a), ip);
    } else {
      OthersPass(cfg, s, a);
    }
  }

  lemma AcceptorStepLimits(cfg: Config, s: State, a: Action, run: seq<RateEvent>, ip: string)
    requires LimitsFollow(cfg, s, run, ip) && ByAcceptor(a)
    ensures LimitsFollow(cfg, Accept(cfg, s, a), run + RateEvents(s, a), ip)
  {
    if a.AskRate? && s.acceptor.Slotted? {
      AskLimits(cfg, s, run, ip);
    } else {
      AcceptorKeepsHandled(cfg, s, a, ip);
      AcceptorKeepsTime(cfg, s, a);
      SilentStepLimits(cfg, s, Accept(cfg, s, a), run, ip);
    }
  }

  lemma HandlerStepLimits(cfg: Config, s: State, h: nat, a: Action, run: seq<RateEvent>,
                          ip: string)
    requires LimitsFollow(cfg, s, run, ip) && h < |s.handlers|
    ensures LimitsFollow(cfg, Handle(cfg, s, h, a), run + [], ip)
  {
    var s' := Handle(cfg, s, h, a);
    CountUpdate(s.handlers, h, s'.handlers[h], From(ip));
    SilentStepLimits(cfg, s, s', run, ip);
  }

  lemma TimerStepLimits(cfg: Config, s: State, a: Action, run: seq<RateEvent>, ip: string)
    requires LimitsFollow(cfg, s, run, ip) && !ByAcceptor(a) && !ByHandler(a)
    ensures LimitsFollow(cfg, Timer(cfg, s, a), run + RateEvents(s, a), ip)
  {
    if a.SweepLimits? {
      RateEventFollows(cfg, s, Timer(cfg, s, a), run, Sweep(Stamped(s.now, Window.Clean)), ip);
    } else {
      SilentStepLimits(cfg, s, Timer(cfg, s, a), run, ip);
    }
  }

  lemma StepLimits(cfg: Config, s: State, a: Action, run: seq<RateEvent>, ip: string)
    requires LimitsFollow(cfg, s, run, ip)
    ensures LimitsFollow(cfg, Step(cfg, s, a), run + RateEvents(s, a), ip)
  {
    hide Handle, Accept, Timer, LimitsFollow;
    if ByHandler(a) {
      if a.h < |s.handlers| {
        HandlerStepLimits(cfg, s, a.h, a, run, ip);
      } else {
        SilentStepLimits(cfg, s, s, run, ip);
      }
    } else if ByAcceptor(a) {
      AcceptorStepLimits(cfg, s, a, run, ip);
    } else {
      TimerStepLimits(cfg, s, a, run, ip);
    }
  }

  lemma {:induction false} HandledAreGranted(cfg: Config, schedule: seq<Action>, ip: string)
    ensures LimitsFollow(cfg, Exec(cfg, schedule), RateRun(cfg, schedule), ip)
  {
    if schedule == [] {
    } else {
      var before := schedule[..|schedule| - 1];
      HandledAreGranted(cfg, before, ip);
      StepLimits(cfg, Exec(cfg, before), schedule[|schedule| - 1], RateRun(cfg, before), ip);
    }
  }

  lemma HandledBound(cfg: Config, s: State, run: seq<RateEvent>, ip: string)
    requires Window.Sane(cfg.rate) && LimitsFollow(cfg, s, run, ip)
    ensures Handled(s, ip) <= Allowance(cfg.rate.burst, WindowTheory.Period(cfg.rate), s.now)
  {
    var ops := Project(run, ip);
    ProjectionIsTimed(0, run, ip);
    WindowTheory.FirstUseBound(cfg.rate, 0, ops);
    AllowanceGrows(cfg.rate.burst, WindowTheory.Period(cfg.rate), End(0, ops), s.now);
  }

  /** Under every interleaving the server has started at most burst * (1 + T / period) handlers for an
      IP by time T. */
  lemma HandlersAreRateLimited(cfg: Config, schedule: seq<Action>, ip: string)
    requires Window.Sane(cfg.rate)
    ensures var s := Exec(cfg, schedule);
      CountIf(s.handlers, From(ip)) <= Allowance(cfg.rate.burst, WindowTheory.Period(cfg.rate), s.now)
  {
    HandledAreGranted(cfg, schedule, ip);
    HandledBound(cfg, Exec(cfg, schedule), RateRun(cfg, schedule), ip);
  }
}
