/** When the eight-bit truncation of the difficulty makes challenges impossible. */
module DifficultyTruncation {
  import opened Keyed
  import opened ServerModel
  import opened AcceptLoopTheory
  import opened ConversationTheory
  import Limiter = ConnectionLimiterModel
  import Window = RateLimiterModel

  /** No handler ever has to answer INTERNAL_ERROR, under any schedule. */
  ghost predicate NeverRefused(cfg: Config) {
    forall schedule: seq<Action>, h: nat ::
      h < |Exec(cfg, schedule).handlers| ==> !Exec(cfg, schedule).handlers[h].phase.Refused?
  }

  /** Settings under which no difficulty the adjuster chooses is a multiple of 256.  With fewer than
      three connections the middle level is never chosen. */
  predicate SafeInitial(cfg: Config) {
    cfg.initial != 0 && cfg.initial != 254 && (cfg.initial == 255 ==> cfg.maxConns < 3)
  }

  ghost predicate SafeInv(cfg: Config, s: State) {
    && s.difficulty % 256 != 0
    && forall i :: 0 <= i < |s.handlers| ==>
        !s.handlers[i].phase.Refused? && s.handlers[i].phase != Armed(0)
  }

  lemma AdjustedIsSafe(cfg: Config, conns: int)
    requires SafeInitial(cfg)
    ensures Adjusted(cfg, conns) % 256 != 0
  {
    if cfg.initial == 255 {
      assert cfg.maxConns * 8 / 10 == cfg.maxConns * 5 / 10;
      assert 257 % 256 == 1;
    } else {
      assert 0 < Adjusted(cfg, conns) < 256;
    }
  }

  lemma HandlerIsSafe(cfg: Config, s: State, h: nat, a: Action)
    requires SafeInv(cfg, s) && h < |s.handlers|
    ensures SafeInv(cfg, Handle(cfg, s, h, a))
  {
    var p := Next(cfg, s, s.handlers[h].phase, a);
    assert !p.Refused? && p != Armed(0);
  }

  lemma StepIsSafe(cfg: Config, s: State, a: Action)
    requires SafeInitial(cfg) && SafeInv(cfg, s)
    ensures SafeInv(cfg, Step(cfg, s, a))
  {
    if ByHandler(a) {
      if a.h < |s.handlers| {
        HandlerIsSafe(cfg, s, a.h, a);
      }
    } else if ByAcceptor(a) {
      AcceptorOnlySpawns(cfg, s, a);
      SpawnIsSafe(cfg, s, Accept(cfg, s, a));
    } else if a.AdjustSwap? && s.adjuster.Some? {
      AdjustedIsSafe(cfg, s.adjuster.value);
    }
  }

  lemma SpawnIsSafe(cfg: Config, s: State, s': State)
    requires SafeInv(cfg, s) && OnlySpawns(s, s')
    ensures SafeInv(cfg, s')
  {
  }

  lemma {:induction false} AlwaysSafe(cfg: Config, schedule: seq<Action>)
    requires SafeInitial(cfg)
    ensures SafeInv(cfg, Exec(cfg, schedule))
  {
    if schedule == [] {
    } else {
      AlwaysSafe(cfg, schedule[..|schedule| - 1]);
      StepIsSafe(cfg, Exec(cfg, schedule[..|schedule| - 1]), schedule[|schedule| - 1]);
    }
  }

  // ----- settings that let no connection in -----

  /** No connection is ever handled: none may be open, or the rate limiter lets none pass. */
  predicate LetsNobodyIn(cfg: Config) {
    cfg.maxConns == 0 || cfg.rate.burst == 0
  }

  ghost predicate NobodyIn(cfg: Config, s: State) {
    && s.handlers == [] && s.currentConns == 0 && Uncommitted(s.acceptor)
    && (cfg.rate.burst == 0 ==> !s.acceptor.Rated? && forall ip :: ip in s.limits ==> s.limits[ip].tokens <= 0)
  }

  lemma AcceptorLetsNobodyIn(cfg: Config, s: State, a: Action)
    requires LetsNobodyIn(cfg) && NobodyIn(cfg, s)
    ensures NobodyIn(cfg, Accept(cfg, s, a))
  {
  }

  lemma TimerLetsNobodyIn(cfg: Config, s: State, a: Action)
    requires NobodyIn(cfg, s)
    ensures NobodyIn(cfg, Timer(cfg, s, a))
  {
  }

  lemma StepLetsNobodyIn(cfg: Config, s: State, a: Action)
    requires LetsNobodyIn(cfg) && NobodyIn(cfg, s)
    ensures NobodyIn(cfg, Step(cfg, s, a))
  {
    AcceptorLetsNobodyIn(cfg, s, a);
    TimerLetsNobodyIn(cfg, s, a);
  }

  lemma {:induction false} NobodyEverIn(cfg: Config, schedule: seq<Action>)
    requires LetsNobodyIn(cfg)
    ensures NobodyIn(cfg, Exec(cfg, schedule))
  {
    if schedule == [] {
    } else {
      NobodyEverIn(cfg, schedule[..|schedule| - 1]);
      StepLetsNobodyIn(cfg, Exec(cfg, schedule[..|schedule| - 1]), schedule[|schedule| - 1]);
    }
  }

  // ----- the failing schedules -----

  /** The adjuster runs: it loads the counter and then sets the difficulty. */
  lemma Adjusts(cfg: Config, before: seq<Action>, k: nat)
    requires Filled(cfg, Exec(cfg, before), k)
    ensures var s := Exec(cfg, before + [AdjustLoad] + [AdjustSwap]);
      s.difficulty == Adjusted(cfg, k) && s.handlers == Exec(cfg, before).handlers
  {
    ExecOne(cfg, before, AdjustLoad);
    ExecOne(cfg, before + [AdjustLoad], AdjustSwap);
  }

  lemma ReadsZero(cfg: Config, s: State)
    requires s.difficulty % 256 == 0 && |s.handlers| > 0 && s.handlers[0].phase.Starting?
    ensures var s' := Handle(cfg, s, 0, ReadDifficulty(0, true));
      |s'.handlers| > 0 && s'.handlers[0].phase == Armed(0)
  {
  }

  lemma CannotCreate(cfg: Config, s: State)
    requires |s.handlers| > 0 && s.handlers[0].phase == Armed(0)
    ensures var s' := Handle(cfg, s, 0, Create(0, "", ""));
      |s'.handlers| > 0 && s'.handlers[0].phase.Refused?
  {
  }

  lemma AskRefused(cfg: Config, before: seq<Action>)
    requires var s := Exec(cfg, before);
      s.difficulty % 256 == 0 && |s.handlers| > 0 && s.handlers[0].phase.Starting?
    ensures !NeverRefused(cfg)
  {
    var armed := before + [ReadDifficulty(0, true)];
    HandleOne(cfg, before, ReadDifficulty(0, true));
    ReadsZero(cfg, Exec(cfg, before));
    HandleOne(cfg, armed, Create(0, "", ""));
    CannotCreate(cfg, Exec(cfg, armed));
    RefusesSomebody(cfg, armed + [Create(0, "", "")]);
  }

  lemma RefusesSomebody(cfg: Config, schedule: seq<Action>)
    requires |Exec(cfg, schedule).handlers| > 0 && Exec(cfg, schedule).handlers[0].phase.Refused?
    ensures !NeverRefused(cfg)
  {
  }

  /** ... and the first handler reads the difficulty and asks for a challenge. */
  lemma AdjustAndAsk(cfg: Config, before: seq<Action>, k: nat)
    requires Filled(cfg, Exec(cfg, before), k) && k > 0 && Adjusted(cfg, k) % 256 == 0
    ensures !NeverRefused(cfg)
  {
    hide Step, Adjusted, NeverRefused;
    Adjusts(cfg, before, k);
    AskRefused(cfg, before + [AdjustLoad] + [AdjustSwap]);
  }

  /** A number of connections for which the adjuster chooses a multiple of 256. */
  lemma UnsafeLoad(cfg: Config) returns (k: nat)
    requires cfg.maxConns >= 1 && !SafeInitial(cfg) && cfg.initial != 0
    ensures 0 < k <= cfg.maxConns && Adjusted(cfg, k) % 256 == 0
  {
    if cfg.initial == 254 {
      k := cfg.maxConns;
    } else {
      k := cfg.maxConns * 5 / 10 + 1;
      assert cfg.maxConns * 5 / 10 < k <= cfg.maxConns * 8 / 10;
    }
  }

  lemma ZeroIsRefused(cfg: Config)
    requires Limiter.Sane(cfg.perIP) && cfg.maxConns >= 1 && cfg.rate.burst > 0 && cfg.initial == 0
    ensures !NeverRefused(cfg)
  {
    hide Step, NeverRefused;
    var before := ConnectionsOpen(cfg, 1);
    AskRefused(cfg, before);
  }

  /** Unless nobody is let in, unsafe initial difficulties do fail. */
  lemma UnsafeIsRefused(cfg: Config)
    requires Limiter.Sane(cfg.perIP) && cfg.maxConns >= 1 && cfg.rate.burst > 0 && !SafeInitial(cfg)
    ensures !NeverRefused(cfg)
  {
    hide Step, NeverRefused, Filled;
    if cfg.initial == 0 {
      ZeroIsRefused(cfg);
    } else {
      var k := UnsafeLoad(cfg);
      var before := ConnectionsOpen(cfg, k);
      AdjustAndAsk(cfg, before, k);
    }
  }

  /** Exactly when no connection is ever answered with INTERNAL_ERROR: nobody is let in, or the initial
      difficulty is not 0, not 254, and not 255 unless fewer than three connections are allowed. */
  lemma NeverRefusedExactly(cfg: Config)
    requires Limiter.Sane(cfg.perIP) && Window.Sane(cfg.rate)
    ensures NeverRefused(cfg) <==> SafeInitial(cfg) || LetsNobodyIn(cfg)
  {
    if SafeInitial(cfg) || LetsNobodyIn(cfg) {
      forall schedule: seq<Action>, h: nat | h < |Exec(cfg, schedule).handlers|
        ensures !Exec(cfg, schedule).handlers[h].phase.Refused?
      {
        if SafeInitial(cfg) {
          AlwaysSafe(cfg, schedule);
        } else {
          NobodyEverIn(cfg, schedule);
        }
      }
    } else {
      UnsafeIsRefused(cfg);
    }
  }
}
