/** The protection layer's admission decision: a chain of checks over shared trackers. */
module Admission {
  import opened Keyed
  import FailedModel = FailedAttemptsModel
  import FailedStore = FailedAttemptsStore
  import TokenModel = TokenBucketModel
  import TokenStore = TokenBucketStore
  import TokenTheory = TokenBucketTheory

  datatype Refusal = IPBlocked | ServerOverloaded | TooManyFailures | TooManyRequests

  /** The IP filter: a non-empty whitelist decides alone, otherwise the blacklist does. */
  predicate FilterPasses(whitelist: set<string>, blacklist: set<string>, addr: string) {
    if whitelist != {} then addr in whitelist else addr !in blacklist
  }

  class Protection {
    const whitelist: set<string>
    const blacklist: set<string>
    const failed: FailedStore.FailedAttempts
    const tokens: TokenStore.TokenBucket

    /** The (address, time) of every IsAllowed that returned no error. */
    ghost var allowed: seq<(string, int)>

    ghost function Repr(): set<object>
      reads this, failed, tokens
    {
      {this, failed, tokens} + failed.attempts.Values + tokens.tokens.Values
    }

    ghost predicate Valid()
      reads this, failed, failed.attempts.Values, tokens, tokens.tokens.Values
    {
      && failed.Valid() && tokens.Valid()
      && allowed == tokens.granted
    }

    constructor (whitelist: set<string>, blacklist: set<string>,
                 maxFailedAttempts: int, failedBlockTime: int, bucketSize: int, fillRate: real, ghost now: int)
      ensures Valid() && fresh(Repr()) && allowed == []
      ensures this.whitelist == whitelist && this.blacklist == blacklist
      ensures failed.Cfg() == FailedModel.Config(maxFailedAttempts, failedBlockTime)
      ensures tokens.Cfg() == TokenModel.Config(bucketSize, fillRate, 300_000_000_000)
      ensures failed.log == [] && failed.startedAt == now && tokens.log == [] && tokens.startedAt == now
    {
      this.whitelist, this.blacklist := whitelist, blacklist;
      failed := new FailedStore.FailedAttempts(maxFailedAttempts, failedBlockTime, now);
      tokens := new TokenStore.TokenBucket(bucketSize, fillRate, now);
      allowed := [];
    }

    /** The checks of IsAllowed that come before the token bucket. */
    method Screen(addr: string, overloaded: bool, now: int) returns (refusal: Option<Refusal>)
      requires failed.Valid() && failed.Clock() <= now
      modifies failed
      ensures failed.Valid() && failed.Clock() <= now
      ensures failed.attempts.Values <= old(failed.attempts.Values)
      ensures refusal ==
        if !FilterPasses(whitelist, blacklist, addr) then Some(IPBlocked)
        else if FailedModel.Blocked(failed.Cfg(), Get(old(failed.View()), addr), now) then Some(TooManyFailures)
        else if overloaded then Some(ServerOverloaded)
        else None
      ensures failed.log == old(failed.log)
        + if FilterPasses(whitelist, blacklist, addr) then [At(addr, Stamped(now, FailedModel.Query))] else []
    {
      if !FilterPasses(whitelist, blacklist, addr) {
        return Some(IPBlocked);
      }
      var blocked := failed.IsBlocked(addr, now);
      if blocked {
        return Some(TooManyFailures);
      }
      return if overloaded then Some(ServerOverloaded) else None;
    }

    /** The last check of IsAllowed: one token. */
    method Spend(addr: string, now: int) returns (refusal: Option<Refusal>)
      requires tokens.Valid() && tokens.Clock() <= now && allowed == tokens.granted
      modifies this, tokens, tokens.tokens.Values
      ensures tokens.Valid() && tokens.Clock() <= now && allowed == tokens.granted
      ensures fresh(tokens.tokens.Values - old(tokens.tokens.Values))
      ensures
        var hasToken :=
          TokenModel.Grants(tokens.Cfg(), Get(old(tokens.View()), addr), Stamped(now, TokenModel.Take));
        refusal == if hasToken then None else Some(TooManyRequests)
      ensures allowed == if refusal.None? then old(allowed) + [(addr, now)] else old(allowed)
    {
      var ok := tokens.Take(addr, now);
      if ok {
        allowed := allowed + [(addr, now)];
        return None;
      }
      return Some(TooManyRequests);
    }

    /** IsAllowed: the first check that fails gives the error, and a refusal never costs a token. */
    method IsAllowed(addr: string, overloaded: bool, now: int) returns (refusal: Option<Refusal>)
      requires Valid() && failed.Clock() <= now && tokens.Clock() <= now
      modifies this, failed, tokens, tokens.tokens.Values
      ensures Valid() && failed.Clock() <= now && tokens.Clock() <= now
      ensures fresh(tokens.tokens.Values - old(tokens.tokens.Values))
      ensures failed.attempts.Values <= old(failed.attempts.Values)
      ensures var blocked := FailedModel.Blocked(failed.Cfg(), Get(old(failed.View()), addr), now);
        var hasToken := TokenModel.Grants(tokens.Cfg(), Get(old(tokens.View()), addr), Stamped(now, TokenModel.Take));
        refusal ==
          if !FilterPasses(whitelist, blacklist, addr) then Some(IPBlocked)
          else if blocked then Some(TooManyFailures)
          else if overloaded then Some(ServerOverloaded)
          else if !hasToken then Some(TooManyRequests)
          else None
      ensures whitelist != {} ==> (refusal == Some(IPBlocked) <==> addr !in whitelist)
      ensures whitelist == {} ==> (refusal == Some(IPBlocked) <==> addr in blacklist)
      ensures allowed == if refusal.None? then old(allowed) + [(addr, now)] else old(allowed)
      ensures refusal.Some? && !refusal.value.TooManyRequests? ==>
        tokens.View() == old(tokens.View()) && tokens.log == old(tokens.log)
      ensures failed.log == old(failed.log)
        + if FilterPasses(whitelist, blacklist, addr) then [At(addr, Stamped(now, FailedModel.Query))] else []
    {
      refusal := Screen(addr, overloaded, now);
      if refusal.None? {
        refusal := Spend(addr, now);
      }
    }

    /** ProtectedConn repeats the checks in another order and takes no token. */
    method ProtectedConn(addr: string, overloaded: bool, now: int) returns (refusal: Option<Refusal>)
      requires Valid() && failed.Clock() <= now
      modifies failed
      ensures Valid() && failed.Clock() <= now
      ensures refusal ==
        if !FilterPasses(whitelist, blacklist, addr) then Some(IPBlocked)
        else if overloaded then Some(ServerOverloaded)
        else if FailedModel.Blocked(failed.Cfg(), Get(old(failed.View()), addr), now) then Some(TooManyFailures)
        else None
      ensures whitelist != {} ==> (refusal == Some(IPBlocked) <==> addr !in whitelist)
      ensures whitelist == {} ==> (refusal == Some(IPBlocked) <==> addr in blacklist)
    {
      if !FilterPasses(whitelist, blacklist, addr) {
        return Some(IPBlocked);
      }
      if overloaded {
        return Some(ServerOverloaded);
      }
      var blocked := failed.IsBlocked(addr, now);
      if blocked {
        return Some(TooManyFailures);
      }
      return None;
    }

    /** The two calls the accept loop makes in a row: right after a successful IsAllowed, with
        no failure registered in between, ProtectedConn can only object to memory. */
    method AdmitConnection(addr: string, overloaded: bool, overloadedLater: bool, now: int, later: int)
      returns (first: Option<Refusal>, second: Option<Refusal>)
      requires Valid() && failed.Clock() <= now && tokens.Clock() <= now <= later
      modifies this, failed, tokens, tokens.tokens.Values
      ensures Valid()
      ensures first.None? ==> second == if overloadedLater then Some(ServerOverloaded) else None
      ensures first.Some? ==> second == first
    {
      first := IsAllowed(addr, overloaded, now);
      second := first;
      if first.None? {
        second := ProtectedConn(addr, overloadedLater, later);
      }
    }

    /** Over the whole life of the object, IsAllowed lets one address through no more often than
        its token bucket's burst plus what accrued. */
    lemma AdmissionsAreRateLimited(addr: string)
      requires Valid() && TokenModel.Sane(tokens.Cfg())
      requires TokenTheory.SweepsAreHarmless(tokens.Cfg(), None, Project(tokens.log, addr))
      ensures |HitsOf(allowed, addr)| as real
           <= tokens.capacity as real + TokenModel.Accrued(tokens.fillRate, tokens.Clock() - tokens.startedAt)
    {
      tokens.LifetimeBound(addr);
    }
  }
}
