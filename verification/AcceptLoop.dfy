/** The counters of the accept loop, under every interleaving. */
module AcceptLoopTheory {
  import opened Keyed
  import opened ServerModel
  import opened HandlerCounts
  import Limiter = ConnectionLimiterModel
  import Window = RateLimiterModel

  // Handlers by what they still hold.

  function InGroup(): Handler -> bool {
    (h: Handler) => !h.phase.LeftGroup? && !h.phase.Uncounted? && !h.phase.Gone?
  }

  function InCount(): Handler -> bool {
    (h: Handler) => !h.phase.Uncounted? && !h.phase.Gone?
  }

  function BetweenDoneAndCount(): Handler -> bool {
    (h: Handler) => h.phase.LeftGroup?
  }

  /** handleConnection has not returned yet. */
  function Running(): Handler -> bool {
    (h: Handler) => !h.phase.Ended? && !h.phase.LeftGroup? && !h.phase.Uncounted? && !h.phase.Gone?
  }

  function One(b: bool): nat { if b then 1 else 0 }

  ghost predicate CountInv(cfg: Config, s: State) {
    && s.currentConns == CountIf(s.handlers, InCount()) + One(s.acceptor.Counted?)
    && s.group == CountIf(s.handlers, InGroup()) + One(s.acceptor.Joined? || s.acceptor.Counted?)
    && s.currentConns <= cfg.maxConns
    && (s.acceptor.Below? || s.acceptor.Joined? ==> s.currentConns < cfg.maxConns)
  }

  lemma HandlerCounted(cfg: Config, s: State, h: nat, a: Action)
    requires h < |s.handlers| && CountInv(cfg, s)
    ensures CountInv(cfg, Handle(cfg, s, h, a))
  {
    var h' := Handle(cfg, s, h, a).handlers[h];
    CountUpdate(s.handlers, h, h', InCount());
    CountUpdate(s.handlers, h, h', InGroup());
  }

  /** The connection in hand is not about to be counted. */
  predicate Uncommitted(acc: Acceptor) {
    acc.Idle? || acc.Screened? || acc.Slotted? || acc.Rated?
  }

  /** Steps before the counter is read leave the counters alone. */
  lemma EarlyStepCounted(cfg: Config, s: State, s': State)
    requires CountInv(cfg, s) && Uncommitted(s.acceptor) && Uncommitted(s'.acceptor)
    requires s'.currentConns == s.currentConns && s'.group == s.group && s'.handlers == s.handlers
    ensures CountInv(cfg, s')
  {
  }

  lemma LoadCountCounted(cfg: Config, s: State)
    requires CountInv(cfg, s) && s.acceptor.Rated?
    ensures CountInv(cfg, Accept(cfg, s, LoadCount))
  {
  }

  lemma JoinCounted(cfg: Config, s: State)
    requires CountInv(cfg, s) && s.acceptor.Below?
    ensures CountInv(cfg, Accept(cfg, s, Join))
  {
  }

  lemma CountUpCounted(cfg: Config, s: State)
    requires CountInv(cfg, s) && s.acceptor.Joined?
    ensures CountInv(cfg, Accept(cfg, s, CountUp))
  {
  }

  lemma SpawnCounted(cfg: Config, s: State)
    requires CountInv(cfg, s) && s.acceptor.Counted?
    ensures CountInv(cfg, Accept(cfg, s, Spawn))
  {
    CountAppend(s.handlers, Handler(s.acceptor.ip, Starting), InCount());
    CountAppend(s.handlers, Handler(s.acceptor.ip, Starting), InGroup());
  }

  lemma EarlySteps(cfg: Config, s: State, a: Action)
    requires a.Arrive? || a.TakeSlot? || a.AskRate?
    ensures var s' := Accept(cfg, s, a);
      s' == s
      || (Uncommitted(s.acceptor) && Uncommitted(s'.acceptor)
          && s'.currentConns == s.currentConns && s'.group == s.group && s'.handlers == s.handlers)
  {
  }

  lemma AcceptorCounted(cfg: Config, s: State, a: Action)
    requires ByAcceptor(a) && CountInv(cfg, s)
    ensures CountInv(cfg, Accept(cfg, s, a))
  {
    if a.LoadCount? && s.acceptor.Rated? {
      LoadCountCounted(cfg, s);
    } else if a.Join? && s.acceptor.Below? {
      JoinCounted(cfg, s);
    } else if a.CountUp? && s.acceptor.Joined? {
      CountUpCounted(cfg, s);
    } else if a.Spawn? && s.acceptor.Counted? {
      SpawnCounted(cfg, s);
    } else if a.Arrive? || a.TakeSlot? || a.AskRate? {
      EarlySteps(cfg, s, a);
      if Accept(cfg, s, a) != s {
        EarlyStepCounted(cfg, s, Accept(cfg, s, a));
      }
    }
  }

  lemma TimerCounted(cfg: Config, s: State, a: Action)
    requires CountInv(cfg, s)
    ensures CountInv(cfg, Timer(cfg, s, a))
  {
  }

  lemma StepCounted(cfg: Config, s: State, a: Action)
    requires CountInv(cfg, s)
    ensures CountInv(cfg, Step(cfg, s, a))
  {
    hide Handle, Accept, Timer, CountInv;
    if ByHandler(a) {
      if a.h < |s.handlers| {
        HandlerCounted(cfg, s, a.h, a);
      }
    } else if ByAcceptor(a) {
      AcceptorCounted(cfg, s, a);
    } else {
      TimerCounted(cfg, s, a);
    }
  }

  lemma {:induction false} Counts(cfg: Config, schedule: seq<Action>)
    ensures CountInv(cfg, Exec(cfg, schedule))
  {
    if schedule == [] {
    } else {
      var s, a := Exec(cfg, schedule[..|schedule| - 1]), schedule[|schedule| - 1];
      Counts(cfg, schedule[..|schedule| - 1]);
      StepCounted(cfg, s, a);
    }
  }

  /** The connection limit holds at every instant, although the check and the increment are
      separate steps: 0 <= running handlers <= currentConns <= MaxConnections. */
  lemma ConnectionsStayBelowMax(cfg: Config, schedule: seq<Action>)
    ensures var s := Exec(cfg, schedule);
      0 <= CountIf(s.handlers, Running()) <= s.currentConns <= cfg.maxConns
  {
    Counts(cfg, schedule);
    CountImplies(Exec(cfg, schedule).handlers, Running(), InCount());
  }

  /** How the counter and the WaitGroup differ: by the handlers between Done and Add(-1), less one
      while the acceptor is between its two Adds. */
  lemma CounterAndGroup(cfg: Config, schedule: seq<Action>)
    ensures var s := Exec(cfg, schedule);
      && s.currentConns == s.group + CountIf(s.handlers, BetweenDoneAndCount()) - One(s.acceptor.Joined?)
      && s.group >= 0
  {
    var s := Exec(cfg, schedule);
    Counts(cfg, schedule);
    CountSplit(s.handlers, InCount(), InGroup(), BetweenDoneAndCount());
  }

  /** What Shutdown waits for: when the WaitGroup is at zero, no handler is inside handleConnection
      and none has been admitted without having finished. */
  lemma WaitMeansFinished(cfg: Config, schedule: seq<Action>, h: nat)
    requires Exec(cfg, schedule).group == 0 && h < |Exec(cfg, schedule).handlers|
    ensures var p := Exec(cfg, schedule).handlers[h].phase;
      p.LeftGroup? || p.Uncounted? || p.Gone?
    ensures !Exec(cfg, schedule).acceptor.Joined? && !Exec(cfg, schedule).acceptor.Counted?
  {
    Counts(cfg, schedule);
    CountZero(Exec(cfg, schedule).handlers, InGroup(), h);
  }

  // ----- connection slots -----

  function OpenOf(ip: string): Handler -> bool {
    (h: Handler) => h.ip == ip && !h.phase.Gone?
  }

  function LeakedOf(leaked: seq<string>, ip: string): nat {
    if leaked == [] then 0 else LeakedOf(leaked[..|leaked| - 1], ip) + One(leaked[|leaked| - 1] == ip)
  }

  lemma LeakedAppend(leaked: seq<string>, x: string, ip: string)
    ensures LeakedOf(leaked + [x], ip) == LeakedOf(leaked, ip) + One(x == ip)
  {
    assert (leaked + [x])[..|leaked|] == leaked;
  }

  function Holding(acc: Acceptor): Option<string> {
    match acc
    case Idle => None
    case Screened(_) => None
    case _ => Some(acc.ip)
  }

  function SlotCount(s: State, ip: string): int {
    if ip in s.slots then s.slots[ip].count else 0
  }

  /** Connections of ip that hold a slot: handlers not yet gone, dropped connections whose slot was
      never given back, and the one the acceptor has in hand. */
  function Charged(s: State, ip: string): nat {
    CountIf(s.handlers, OpenOf(ip)) + LeakedOf(s.leaked, ip) + One(Holding(s.acceptor) == Some(ip))
  }

  ghost predicate SlotsAt(cfg: Config, s: State, ip: string) {
    && SlotCount(s, ip) == Charged(s, ip) <= cfg.perIP.maxPerIP
    && (ip in s.slots ==> 1 <= s.slots[ip].count)
  }

  lemma HandlerSlots(cfg: Config, s: State, h: nat, a: Action, ip: string)
    requires h < |s.handlers| && SlotsAt(cfg, s, ip)
    ensures SlotsAt(cfg, Handle(cfg, s, h, a), ip)
  {
    var s' := Handle(cfg, s, h, a);
    CountUpdate(s.handlers, h, s'.handlers[h], OpenOf(ip));
  }

  lemma TakeSlotSlots(cfg: Config, s: State, ip: string)
    requires Limiter.Sane(cfg.perIP) && SlotsAt(cfg, s, ip) && !Accept(cfg, s, TakeSlot).dropped
    ensures SlotsAt(cfg, Accept(cfg, s, TakeSlot), ip)
  {
  }

  /** The connection in hand is dropped: its slot becomes a lost one. */
  ghost predicate DropsConnection(s: State, s': State) {
    && Holding(s.acceptor).Some? && s'.acceptor.Idle?
    && s'.slots == s.slots && s'.handlers == s.handlers && s'.leaked == s.leaked + [s.acceptor.ip]
  }

  /** The connection in hand, if any, is passed on. */
  ghost predicate PassesConnection(s: State, s': State) {
    && Holding(s'.acceptor) == Holding(s.acceptor)
    && s'.slots == s.slots && s'.handlers == s.handlers && s'.leaked == s.leaked
  }

  lemma RateDropsOrPasses(cfg: Config, s: State)
    ensures DropsConnection(s, Accept(cfg, s, AskRate)) || PassesConnection(s, Accept(cfg, s, AskRate))
  {
  }

  lemma CountDropsOrPasses(cfg: Config, s: State)
    ensures DropsConnection(s, Accept(cfg, s, LoadCount)) || PassesConnection(s, Accept(cfg, s, LoadCount))
  {
  }

  lemma DropsOrPasses(cfg: Config, s: State, a: Action)
    requires ByAcceptor(a) && !a.TakeSlot? && (a.Spawn? ==> !s.acceptor.Counted?)
    ensures DropsConnection(s, Accept(cfg, s, a)) || PassesConnection(s, Accept(cfg, s, a))
  {
    if a.AskRate? {
      RateDropsOrPasses(cfg, s);
    } else if a.LoadCount? {
      CountDropsOrPasses(cfg, s);
    }
  }

  lemma DropSlots(cfg: Config, s: State, s': State, ip: string)
    requires SlotsAt(cfg, s, ip) && DropsConnection(s, s')
    ensures SlotsAt(cfg, s', ip)
  {
    LeakedAppend(s.leaked, s.acceptor.ip, ip);
  }

  lemma PassSlots(cfg: Config, s: State, s': State, ip: string)
    requires SlotsAt(cfg, s, ip) && PassesConnection(s, s')
    ensures SlotsAt(cfg, s', ip)
  {
  }

  lemma SpawnSlots(cfg: Config, s: State, s': State, ip: string)
    requires SlotsAt(cfg, s, ip) && s.acceptor.Counted?
    requires s' == s.(acceptor := Idle, handlers := s.handlers + [Handler(s.acceptor.ip, Starting)])
    ensures SlotsAt(cfg, s', ip)
  {
    CountAppend(s.handlers, Handler(s.acceptor.ip, Starting), OpenOf(ip));
  }

  lemma AcceptorSlots(cfg: Config, s: State, a: Action, ip: string)
    requires ByAcceptor(a) && Limiter.Sane(cfg.perIP) && SlotsAt(cfg, s, ip) && !Accept(cfg, s, a).dropped
    ensures SlotsAt(cfg, Accept(cfg, s, a), ip)
  {
    if a.TakeSlot? {
      TakeSlotSlots(cfg, s, ip);
    } else if a.Spawn? && s.acceptor.Counted? {
      SpawnSlots(cfg, s, Accept(cfg, s, a), ip);
    } else {
      var s' := Accept(cfg, s, a);
      DropsOrPasses(cfg, s, a);
      if DropsConnection(s, s') {
        DropSlots(cfg, s, s', ip);
      } else {
        PassSlots(cfg, s, s', ip);
      }
    }
  }

  lemma StepSlots(cfg: Config, s: State, a: Action, ip: string)
    requires Limiter.Sane(cfg.perIP) && SlotsAt(cfg, s, ip) && !Step(cfg, s, a).dropped
    ensures SlotsAt(cfg, Step(cfg, s, a), ip)
  {
    if ByHandler(a) {
      if a.h < |s.handlers| {
        HandlerSlots(cfg, s, a.h, a, ip);
      }
    } else if ByAcceptor(a) {
      AcceptorSlots(cfg, s, a, ip);
    } else {
      TimerSlots(cfg, s, a, ip);
    }
  }

  lemma TimerSlots(cfg: Config, s: State, a: Action, ip: string)
    requires SlotsAt(cfg, s, ip) && !Timer(cfg, s, a).dropped
    ensures SlotsAt(cfg, Timer(cfg, s, a), ip)
  {
  }

  lemma DroppedIsForever(cfg: Config, s: State, a: Action)
    ensures s.dropped ==> Step(cfg, s, a).dropped
  {
  }

  /** As long as the limiter has not forgotten a count, an IP's count is the number of its open
      connections plus the slots that were never given back. */
  lemma {:induction false} SlotsAreOpenPlusLeaked(cfg: Config, schedule: seq<Action>, ip: string)
    requires Limiter.Sane(cfg.perIP) && !Exec(cfg, schedule).dropped
    ensures SlotsAt(cfg, Exec(cfg, schedule), ip)
  {
    if schedule == [] {
    } else {
      var s, a := Exec(cfg, schedule[..|schedule| - 1]), schedule[|schedule| - 1];
      DroppedIsForever(cfg, s, a);
      SlotsAreOpenPlusLeaked(cfg, schedule[..|schedule| - 1], ip);
      StepSlots(cfg, s, a, ip);
    }
  }

  /** Hence the limiter turns an IP away exactly when its open connections and its lost slots
      together reach maxPerIP. */
  lemma RefusedExactly(cfg: Config, schedule: seq<Action>)
    requires Limiter.Sane(cfg.perIP)
    requires var s := Exec(cfg, schedule); s.acceptor.Screened? && !Step(cfg, s, TakeSlot).dropped
    ensures var s := Exec(cfg, schedule);
      var ip := s.acceptor.ip;
      Step(cfg, s, TakeSlot).acceptor.Idle?
      <==> CountIf(s.handlers, OpenOf(ip)) + LeakedOf(s.leaked, ip) >= cfg.perIP.maxPerIP
  {
    SlotsAreOpenPlusLeaked(cfg, schedule, Exec(cfg, schedule).acceptor.ip);
  }

  lemma ExecOne(cfg: Config, schedule: seq<Action>, a: Action)
    ensures Exec(cfg, schedule + [a]) == Step(cfg, Exec(cfg, schedule), a)
  {
    assert (schedule + [a])[..|schedule|] == schedule;
  }

  lemma AcceptOne(cfg: Config, schedule: seq<Action>, a: Action)
    requires ByAcceptor(a)
    ensures Exec(cfg, schedule + [a]) == Accept(cfg, Exec(cfg, schedule), a)
  {
    ExecOne(cfg, schedule, a);
  }

  lemma AcceptThree(cfg: Config, schedule: seq<Action>, a: Action, b: Action, c: Action)
    requires ByAcceptor(a) && ByAcceptor(b) && ByAcceptor(c)
    ensures Exec(cfg, schedule + [a] + [b] + [c]) == Accept(cfg, Accept(cfg, Accept(cfg, Exec(cfg, schedule), a), b), c)
  {
    AcceptOne(cfg, schedule, a);
    AcceptOne(cfg, schedule + [a], b);
    AcceptOne(cfg, schedule + [a] + [b], c);
  }

  lemma HandleOne(cfg: Config, before: seq<Action>, a: Action)
    requires ByHandler(a) && a.h < |Exec(cfg, before).handlers|
    ensures Exec(cfg, before + [a]) == Handle(cfg, Exec(cfg, before), a.h, a)
  {
    ExecOne(cfg, before, a);
  }

  /** A connection that the protection layer refuses leaves no trace. */
  lemma RefusedLeavesNoTrace(cfg: Config, schedule: seq<Action>, ip: string)
    ensures Exec(cfg, schedule + [Arrive(ip, false)]) == Exec(cfg, schedule)
  {
    AcceptOne(cfg, schedule, Arrive(ip, false));
  }

  // ----- one connection of an IP after another -----

  /** A connection arrives and meets both limiters. */
  function ThenAsk(before: seq<Action>, ip: string): seq<Action> {
    before + [Arrive(ip, true)] + [TakeSlot] + [AskRate]
  }

  /** ... and, if they let it pass, the counter. */
  function ThenOpen(before: seq<Action>): seq<Action> {
    before + [LoadCount] + [Join] + [CountUp] + [Spawn]
  }

  /** Handler h fails at once and gives everything back. */
  function ThenLeave(before: seq<Action>, h: nat): seq<Action> {
    before + [ReadDifficulty(h, false)] + [LeaveGroup(h)] + [CountDown(h)] + [FreeSlot(h)]
  }

  /** The state after a connection that gets a slot has met the rate limiter. */
  function AfterAsk(cfg: Config, s: State, ip: string): State {
    var e, w := Get(s.slots, ip), Get(s.limits, ip);
    var granted := Window.Grants(cfg.rate, w, Stamped(s.now, Window.Ask));
    s.(acceptor := if granted then Rated(ip) else Idle,
       slots := Put(s.slots, ip, Limiter.Step(cfg.perIP, e, Stamped(s.now, Limiter.Open))),
       limits := Put(s.limits, ip, Window.Step(cfg.rate, w, Stamped(s.now, Window.Ask))),
       leaked := if granted then s.leaked else s.leaked + [ip],
       dropped := s.dropped || (e.Some? && s.now - e.value.lastReset > cfg.perIP.ttl))
  }

  /** The state after the counter has been read, and a handler started if there is room. */
  function AfterOpen(cfg: Config, s: State): State {
    if !s.acceptor.Rated? then s
    else if s.currentConns >= cfg.maxConns then s.(acceptor := Idle, leaked := s.leaked + [s.acceptor.ip])
    else
      s.(acceptor := Idle, group := s.group + 1, currentConns := s.currentConns + 1,
         handlers := s.handlers + [Handler(s.acceptor.ip, Starting)])
  }

  lemma AskedBy(cfg: Config, before: seq<Action>, ip: string)
    requires Exec(cfg, before).acceptor.Idle?
    requires Limiter.Admits(cfg.perIP, Get(Exec(cfg, before).slots, ip), Stamped(Exec(cfg, before).now, Limiter.Open))
    ensures Exec(cfg, ThenAsk(before, ip)) == AfterAsk(cfg, Exec(cfg, before), ip)
  {
    var s := Exec(cfg, before);
    AcceptThree(cfg, before, Arrive(ip, true), TakeSlot, AskRate);
    var s1 := Accept(cfg, s, Arrive(ip, true));
    assert s1 == s.(acceptor := Screened(ip));
    var s2 := Accept(cfg, s1, TakeSlot);
    assert s2.acceptor == Slotted(ip) && s2.limits == s.limits;
  }

  lemma ReadsFull(cfg: Config, s: State)
    requires s.acceptor.Rated? && s.currentConns >= cfg.maxConns
    ensures Accept(cfg, Accept(cfg, Accept(cfg, Accept(cfg, s, LoadCount), Join), CountUp), Spawn) == AfterOpen(cfg, s)
  {
  }

  lemma FindsRoom(cfg: Config, s: State)
    requires s.acceptor.Rated? && s.currentConns < cfg.maxConns
    ensures Accept(cfg, Accept(cfg, Accept(cfg, Accept(cfg, s, LoadCount), Join), CountUp), Spawn) == AfterOpen(cfg, s)
  {
    var ip := s.acceptor.ip;
    var below := Accept(cfg, s, LoadCount);
    assert below == s.(acceptor := Below(ip));
    var joined := Accept(cfg, below, Join);
    assert joined == below.(acceptor := Joined(ip), group := s.group + 1);
    var counted := Accept(cfg, joined, CountUp);
    assert counted == joined.(acceptor := Counted(ip), currentConns := s.currentConns + 1);
  }

  lemma IdlesOn(cfg: Config, s: State)
    requires s.acceptor.Idle?
    ensures Accept(cfg, Accept(cfg, Accept(cfg, Accept(cfg, s, LoadCount), Join), CountUp), Spawn) == AfterOpen(cfg, s)
  {
  }

  lemma OpenedBy(cfg: Config, before: seq<Action>)
    requires Exec(cfg, before).acceptor.Rated? || Exec(cfg, before).acceptor.Idle?
    ensures Exec(cfg, ThenOpen(before)) == AfterOpen(cfg, Exec(cfg, before))
  {
    var s := Exec(cfg, before);
    AcceptThree(cfg, before, LoadCount, Join, CountUp);
    AcceptOne(cfg, before + [LoadCount] + [Join] + [CountUp], Spawn);
    if s.acceptor.Idle? {
      IdlesOn(cfg, s);
    } else if s.currentConns >= cfg.maxConns {
      ReadsFull(cfg, s);
    } else {
      FindsRoom(cfg, s);
    }
  }

  /** A step of handler h to phase p that leaves the acceptor, the clock and the rate limiter alone. */
  ghost predicate Moves(s: State, s': State, h: nat, p: Phase)
    requires h < |s.handlers|
  {
    && s'.handlers == s.handlers[h := Handler(s.handlers[h].ip, p)]
    && s'.now == s.now && s'.acceptor == s.acceptor && s'.limits == s.limits && s'.dropped == s.dropped
  }

  lemma MovesTwice(s: State, s1: State, s2: State, h: nat, p: Phase, q: Phase)
    requires h < |s.handlers| && Moves(s, s1, h, p) && Moves(s1, s2, h, q)
    ensures Moves(s, s2, h, q)
  {
  }

  lemma Fails(cfg: Config, s: State, h: nat)
    requires h < |s.handlers| && s.handlers[h].phase.Starting?
    ensures var s' := Handle(cfg, s, h, ReadDifficulty(h, false));
      Moves(s, s', h, Ended(true)) && s'.currentConns == s.currentConns && s'.slots == s.slots
  {
  }

  lemma LeavesGroup(cfg: Config, s: State, h: nat)
    requires h < |s.handlers| && s.handlers[h].phase == Ended(true)
    ensures var s' := Handle(cfg, s, h, LeaveGroup(h));
      Moves(s, s', h, LeftGroup(true)) && s'.currentConns == s.currentConns && s'.slots == s.slots
  {
  }

  lemma CountsDown(cfg: Config, s: State, h: nat)
    requires h < |s.handlers| && s.handlers[h].phase == LeftGroup(true)
    ensures var s' := Handle(cfg, s, h, CountDown(h));
      Moves(s, s', h, Uncounted(true)) && s'.currentConns == s.currentConns - 1 && s'.slots == s.slots
  {
  }

  /** What is left of ip's record once it has given a slot back. */
  function Released(cfg: Config, s: State, ip: string): map<string, Limiter.Stats> {
    Put(s.slots, ip, Limiter.Step(cfg.perIP, Get(s.slots, ip), Stamped(s.now, Limiter.Close)))
  }

  lemma FreesSlot(cfg: Config, s: State, h: nat)
    requires h < |s.handlers| && s.handlers[h].phase == Uncounted(true)
    ensures var s' := Handle(cfg, s, h, FreeSlot(h));
      && Moves(s, s', h, Gone(true)) && s'.currentConns == s.currentConns
      && s'.slots == Released(cfg, s, s.handlers[h].ip)
  {
  }

  lemma FailedBy(cfg: Config, before: seq<Action>, h: nat)
    requires h < |Exec(cfg, before).handlers| && Exec(cfg, before).handlers[h].phase.Starting?
    ensures var s, s' := Exec(cfg, before), Exec(cfg, before + [ReadDifficulty(h, false)] + [LeaveGroup(h)]);
      Moves(s, s', h, LeftGroup(true)) && s'.currentConns == s.currentConns && s'.slots == s.slots
  {
    var failed := before + [ReadDifficulty(h, false)];
    HandleOne(cfg, before, ReadDifficulty(h, false));
    Fails(cfg, Exec(cfg, before), h);
    HandleOne(cfg, failed, LeaveGroup(h));
    LeavesGroup(cfg, Exec(cfg, failed), h);
    var s, s1, s2 := Exec(cfg, before), Exec(cfg, failed), Exec(cfg, failed + [LeaveGroup(h)]);
    MovesTwice(s, s1, s2, h, Ended(true), LeftGroup(true));
  }

  lemma FreedBy(cfg: Config, before: seq<Action>, h: nat)
    requires h < |Exec(cfg, before).handlers| && Exec(cfg, before).handlers[h].phase == LeftGroup(true)
    ensures var s, s' := Exec(cfg, before), Exec(cfg, before + [CountDown(h)] + [FreeSlot(h)]);
      && Moves(s, s', h, Gone(true)) && s'.currentConns == s.currentConns - 1
      && s'.slots == Released(cfg, s, s.handlers[h].ip)
  {
    var counted := before + [CountDown(h)];
    HandleOne(cfg, before, CountDown(h));
    CountsDown(cfg, Exec(cfg, before), h);
    HandleOne(cfg, counted, FreeSlot(h));
    FreesSlot(cfg, Exec(cfg, counted), h);
    var s, s1, s2 := Exec(cfg, before), Exec(cfg, counted), Exec(cfg, counted + [FreeSlot(h)]);
    MovesTwice(s, s1, s2, h, Uncounted(true), Gone(true));
  }

  lemma LeftBy(cfg: Config, before: seq<Action>, h: nat)
    requires h < |Exec(cfg, before).handlers| && Exec(cfg, before).handlers[h].phase.Starting?
    ensures var s, s' := Exec(cfg, before), Exec(cfg, ThenLeave(before, h));
      && Moves(s, s', h, Gone(true)) && s'.currentConns == s.currentConns - 1
      && s'.slots == Released(cfg, s, s.handlers[h].ip)
  {
    var left := before + [ReadDifficulty(h, false)] + [LeaveGroup(h)];
    FailedBy(cfg, before, h);
    FreedBy(cfg, left, h);
    MovesTwice(Exec(cfg, before), Exec(cfg, left), Exec(cfg, ThenLeave(before, h)), h, LeftGroup(true), Gone(true));
  }

  // ----- connections of different IPs -----

  /** k connections are open, all of them about to read the difficulty, and only IPs shorter than k
      characters have been seen. */
  ghost predicate Filled(cfg: Config, s: State, k: nat) {
    && s.acceptor.Idle? && s.currentConns == k == |s.handlers|
    && s.adjuster.None? && s.difficulty == cfg.initial as int
    && (forall i :: 0 <= i < k ==> s.handlers[i].phase.Starting?)
    && (forall ip :: ip in s.slots ==> |ip| < k)
    && (forall ip :: ip in s.limits ==> |ip| < k)
  }

  /** k connections are open and the acceptor has one more in hand. */
  ghost predicate ReadyToOpen(cfg: Config, s: State, k: nat) {
    && s.acceptor.Rated? && s.currentConns == k == |s.handlers|
    && s.adjuster.None? && s.difficulty == cfg.initial as int
    && (forall i :: 0 <= i < k ==> s.handlers[i].phase.Starting?)
    && (forall ip :: ip in s.slots ==> |ip| < k + 1)
    && (forall ip :: ip in s.limits ==> |ip| < k + 1)
  }

  /** An IP of k characters. */
  function NewIP(k: nat): (ip: string)
    ensures |ip| == k
  {
    seq(k, _ => '1')
  }

  lemma NewIPGetsThrough(cfg: Config, s: State, k: nat)
    requires Limiter.Sane(cfg.perIP) && cfg.rate.burst > 0 && Filled(cfg, s, k)
    ensures Limiter.Admits(cfg.perIP, Get(s.slots, NewIP(k)), Stamped(s.now, Limiter.Open))
    ensures ReadyToOpen(cfg, AfterAsk(cfg, s, NewIP(k)), k)
  {
    assert NewIP(k) !in s.slots && NewIP(k) !in s.limits;
    assert Window.Grants(cfg.rate, None, Stamped(s.now, Window.Ask));
  }

  lemma GetsThrough(cfg: Config, before: seq<Action>, k: nat)
    requires Limiter.Sane(cfg.perIP) && cfg.rate.burst > 0 && Filled(cfg, Exec(cfg, before), k)
    ensures ReadyToOpen(cfg, Exec(cfg, ThenAsk(before, NewIP(k))), k)
  {
    NewIPGetsThrough(cfg, Exec(cfg, before), k);
    AskedBy(cfg, before, NewIP(k));
  }

  lemma IsOpened(cfg: Config, before: seq<Action>, k: nat)
    requires k < cfg.maxConns && ReadyToOpen(cfg, Exec(cfg, before), k)
    ensures Filled(cfg, Exec(cfg, ThenOpen(before)), k + 1)
  {
    OpenedBy(cfg, before);
  }

  /** k connections of different IPs, all at time 0. */
  lemma {:induction false} ConnectionsOpen(cfg: Config, k: nat) returns (schedule: seq<Action>)
    requires Limiter.Sane(cfg.perIP) && cfg.rate.burst > 0 && k <= cfg.maxConns
    ensures Filled(cfg, Exec(cfg, schedule), k)
  {
    if k == 0 {
      schedule := [];
    } else {
      var before := ConnectionsOpen(cfg, k - 1);
      GetsThrough(cfg, before, k - 1);
      IsOpened(cfg, ThenAsk(before, NewIP(k - 1)), k - 1);
      schedule := ThenOpen(ThenAsk(before, NewIP(k - 1)));
    }
  }

  // ----- slots that are never given back -----

  /** Time is still 0, ip has no open connection, and lost slots are charged to it. */
  ghost predicate Quiet(s: State, ip: string, lost: nat) {
    && s.now == 0 && !s.dropped
    && CountIf(s.handlers, OpenOf(ip)) == 0
    && Get(s.slots, ip) == if lost == 0 then None else Some(Limiter.Stats(lost, 0))
  }

  /** The rate limiter's record of ip after n grants at time 0. */
  function AfterGrants(cfg: Config, n: nat): Option<Window.Bucket> {
    if n == 0 then None else Some(Window.Bucket(cfg.rate.burst - n, 0, false, 0))
  }

  /** n connections of ip have come and gone, with nothing lost, each at the cost of one token. */
  ghost predicate Visited(cfg: Config, s: State, ip: string, n: nat) {
    && Quiet(s, ip, 0) && s.acceptor.Idle?
    && s.currentConns == 0 && |s.handlers| == n
    && Get(s.limits, ip) == AfterGrants(cfg, n)
  }

  /** One more has passed both limiters. */
  ghost predicate Welcomed(cfg: Config, s: State, ip: string, n: nat) {
    && Quiet(s, ip, 1) && s.acceptor == Rated(ip)
    && s.currentConns == 0 && |s.handlers| == n
    && Get(s.limits, ip) == AfterGrants(cfg, n + 1)
  }

  /** ... and its handler is about to start. */
  ghost predicate Visiting(cfg: Config, s: State, ip: string, n: nat) {
    && s.now == 0 && s.acceptor.Idle? && !s.dropped
    && CountIf(s.handlers, OpenOf(ip)) == 1
    && Get(s.slots, ip) == Some(Limiter.Stats(1, 0))
    && s.currentConns == 1 && |s.handlers| == n + 1 && s.handlers[n] == Handler(ip, Starting)
    && Get(s.limits, ip) == AfterGrants(cfg, n + 1)
  }

  lemma NextIsGranted(cfg: Config, n: nat)
    requires n < cfg.rate.burst
    ensures Window.Grants(cfg.rate, AfterGrants(cfg, n), Stamped(0, Window.Ask))
    ensures Window.Step(cfg.rate, AfterGrants(cfg, n), Stamped(0, Window.Ask)) == AfterGrants(cfg, n + 1)
  {
  }

  lemma NextGetsSlot(cfg: Config, e: Option<Limiter.Stats>, lost: nat)
    requires Limiter.Sane(cfg.perIP) && lost < cfg.perIP.maxPerIP
    requires e == if lost == 0 then None else Some(Limiter.Stats(lost, 0))
    ensures Limiter.Admits(cfg.perIP, e, Stamped(0, Limiter.Open))
    ensures Limiter.Step(cfg.perIP, e, Stamped(0, Limiter.Open)) == Some(Limiter.Stats(lost + 1, 0))
  {
  }

  lemma AskWelcomes(cfg: Config, s: State, ip: string, n: nat)
    requires Limiter.Sane(cfg.perIP) && n < cfg.rate.burst && Visited(cfg, s, ip, n)
    ensures Welcomed(cfg, AfterAsk(cfg, s, ip), ip, n)
  {
    NextGetsSlot(cfg, None, 0);
    NextIsGranted(cfg, n);
  }

  lemma VisitorIsWelcomed(cfg: Config, before: seq<Action>, ip: string, n: nat)
    requires Limiter.Sane(cfg.perIP) && n < cfg.rate.burst && Visited(cfg, Exec(cfg, before), ip, n)
    ensures Welcomed(cfg, Exec(cfg, ThenAsk(before, ip)), ip, n)
  {
    AskWelcomes(cfg, Exec(cfg, before), ip, n);
    AskedBy(cfg, before, ip);
  }

  lemma VisitorIsServed(cfg: Config, before: seq<Action>, ip: string, n: nat)
    requires cfg.maxConns >= 1 && Welcomed(cfg, Exec(cfg, before), ip, n)
    ensures Visiting(cfg, Exec(cfg, ThenOpen(before)), ip, n)
  {
    OpenedBy(cfg, before);
    CountAppend(Exec(cfg, before).handlers, Handler(ip, Starting), OpenOf(ip));
  }

  lemma VisitorLeaves(cfg: Config, before: seq<Action>, ip: string, n: nat)
    requires Visiting(cfg, Exec(cfg, before), ip, n)
    ensures Visited(cfg, Exec(cfg, ThenLeave(before, n)), ip, n + 1)
  {
    LeftBy(cfg, before, n);
    CountUpdate(Exec(cfg, before).handlers, n, Handler(ip, Gone(true)), OpenOf(ip));
  }

  lemma {:induction false} Visits(cfg: Config, ip: string, n: nat) returns (schedule: seq<Action>)
    requires Limiter.Sane(cfg.perIP) && n <= cfg.rate.burst && cfg.maxConns >= 1
    ensures Visited(cfg, Exec(cfg, schedule), ip, n)
  {
    if n == 0 {
      schedule := [];
    } else {
      var before := Visits(cfg, ip, n - 1);
      VisitorIsWelcomed(cfg, before, ip, n - 1);
      VisitorIsServed(cfg, ThenAsk(before, ip), ip, n - 1);
      VisitorLeaves(cfg, ThenOpen(ThenAsk(before, ip)), ip, n - 1);
      schedule := ThenLeave(ThenOpen(ThenAsk(before, ip)), n - 1);
    }
  }

  /** The rate limiter refuses ip. */
  ghost predicate Throttled(cfg: Config, s: State, ip: string) {
    !Window.Grants(cfg.rate, Get(s.limits, ip), Stamped(0, Window.Ask))
  }

  /** ip is quiet, and its next connection will be dropped, by the rate limiter or by the counter. */
  ghost predicate Doomed(cfg: Config, s: State, ip: string, lost: nat) {
    && Quiet(s, ip, lost) && s.acceptor.Idle?
    && (s.currentConns >= cfg.maxConns || Throttled(cfg, s, ip))
  }

  lemma RefusedStaysRefused(cfg: Window.Config, e: Option<Window.Bucket>, t: int)
    requires !Window.Grants(cfg, e, Stamped(t, Window.Ask))
    ensures !Window.Grants(cfg, Window.Step(cfg, e, Stamped(t, Window.Ask)), Stamped(t, Window.Ask))
  {
  }

  lemma LostAtRate(cfg: Config, before: seq<Action>, ip: string, k: nat)
    requires Limiter.Sane(cfg.perIP) && k < cfg.perIP.maxPerIP
    requires Doomed(cfg, Exec(cfg, before), ip, k) && Throttled(cfg, Exec(cfg, before), ip)
    ensures Doomed(cfg, Exec(cfg, ThenAsk(before, ip)), ip, k + 1)
  {
    var s := Exec(cfg, before);
    NextGetsSlot(cfg, Get(s.slots, ip), k);
    RefusedStaysRefused(cfg.rate, Get(s.limits, ip), 0);
    AskedBy(cfg, before, ip);
  }

  /** ip's connection has passed both limiters, but there is no room. */
  ghost predicate Overflowing(cfg: Config, s: State, ip: string, lost: nat) {
    Quiet(s, ip, lost) && s.acceptor == Rated(ip) && s.currentConns >= cfg.maxConns
  }

  lemma PassesRate(cfg: Config, before: seq<Action>, ip: string, k: nat)
    requires Limiter.Sane(cfg.perIP) && k < cfg.perIP.maxPerIP
    requires Doomed(cfg, Exec(cfg, before), ip, k) && !Throttled(cfg, Exec(cfg, before), ip)
    ensures Overflowing(cfg, Exec(cfg, ThenAsk(before, ip)), ip, k + 1)
  {
    NextGetsSlot(cfg, Get(Exec(cfg, before).slots, ip), k);
    AskedBy(cfg, before, ip);
  }

  lemma LostAtCount(cfg: Config, before: seq<Action>, ip: string, k: nat)
    requires Overflowing(cfg, Exec(cfg, before), ip, k)
    ensures Doomed(cfg, Exec(cfg, ThenOpen(before)), ip, k)
  {
    OpenedBy(cfg, before);
  }

  lemma OneMoreLost(cfg: Config, before: seq<Action>, ip: string, k: nat) returns (schedule: seq<Action>)
    requires Limiter.Sane(cfg.perIP) && k < cfg.perIP.maxPerIP && Doomed(cfg, Exec(cfg, before), ip, k)
    ensures Doomed(cfg, Exec(cfg, schedule), ip, k + 1)
  {
    hide *;
    if Throttled(cfg, Exec(cfg, before), ip) {
      LostAtRate(cfg, before, ip, k);
      schedule := ThenAsk(before, ip);
    } else {
      PassesRate(cfg, before, ip, k);
      LostAtCount(cfg, ThenAsk(before, ip), ip, k + 1);
      schedule := ThenOpen(ThenAsk(before, ip));
    }
  }

  lemma {:induction false} SlotsGetLost(cfg: Config, before: seq<Action>, ip: string, k: nat)
    returns (schedule: seq<Action>)
    requires Limiter.Sane(cfg.perIP) && k <= cfg.perIP.maxPerIP && Doomed(cfg, Exec(cfg, before), ip, 0)
    ensures Doomed(cfg, Exec(cfg, schedule), ip, k)
  {
    hide *;
    if k == 0 {
      schedule := before;
    } else {
      var earlier := SlotsGetLost(cfg, before, ip, k - 1);
      schedule := OneMoreLost(cfg, earlier, ip, k - 1);
    }
  }

  /** A time at which every further connection of ip is dropped after it was counted: from the start
      when no connections are allowed at all, otherwise once its burst is spent. */
  lemma BurstVisits(cfg: Config, ip: string) returns (schedule: seq<Action>)
    requires Limiter.Sane(cfg.perIP) && Window.Sane(cfg.rate)
    ensures Doomed(cfg, Exec(cfg, schedule), ip, 0)
  {
    if cfg.maxConns == 0 {
      schedule := [];
    } else {
      schedule := Visits(cfg, ip, cfg.rate.burst);
    }
  }

  lemma TurnedAway(cfg: Config, s: State, ip: string)
    requires Limiter.Sane(cfg.perIP) && Doomed(cfg, s, ip, cfg.perIP.maxPerIP)
    ensures var arrived := Accept(cfg, s, Arrive(ip, true));
      && arrived.acceptor == Screened(ip) && CountIf(arrived.handlers, OpenOf(ip)) == 0
      && Step(cfg, arrived, TakeSlot).acceptor.Idle? && !Step(cfg, arrived, TakeSlot).dropped
  {
  }

  /** The accept loop does not give a slot back when it drops a connection after the limiter has
      counted it.  So, whatever the settings, an IP whose connections are all closed can be turned
      away although the limiter has forgotten nothing. */
  lemma LostSlotsRefuse(cfg: Config, ip: string)
    requires Limiter.Sane(cfg.perIP) && Window.Sane(cfg.rate)
    ensures exists schedule ::
      var s := Exec(cfg, schedule);
      && s.acceptor == Screened(ip) && CountIf(s.handlers, OpenOf(ip)) == 0
      && Step(cfg, s, TakeSlot).acceptor.Idle? && !Step(cfg, s, TakeSlot).dropped
  {
    var before := BurstVisits(cfg, ip);
    var full := SlotsGetLost(cfg, before, ip, cfg.perIP.maxPerIP);
    AcceptOne(cfg, full, Arrive(ip, true));
    TurnedAway(cfg, Exec(cfg, full), ip);
    var schedule := full + [Arrive(ip, true)];
    assert Exec(cfg, schedule).acceptor == Screened(ip);
  }
}
