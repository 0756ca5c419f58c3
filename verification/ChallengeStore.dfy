/** The proof-of-work service: challenges stored by nonce, each evicted by its own timer. */
module ChallengeStore {
  import opened Bytes
  import opened HashDifficulty
  import opened Keyed

  datatype Challenge = Challenge(prefix: string, difficulty: byte, nonce: string, expiresAt: int)

  datatype Solution = Solution(prefix: string, solution: string, nonce: string)

  /** What happens to the store: a challenge is created, or the timer of one goes off. */
  datatype Event = Created(ch: Challenge, now: int) | Evicted(ch: Challenge, now: int)

  function Content(run: seq<Event>): map<string, Challenge> {
    if run == [] then map[]
    else
      var before, ev := Content(run[..|run| - 1]), run[|run| - 1];
      match ev
      case Created(ch, _) => before[ch.nonce := ch]
      case Evicted(ch, _) => before - {ch.nonce}
  }

  /** Every challenge ever created: the store that never evicts. */
  function Issued(run: seq<Event>): seq<Challenge> {
    if run == [] then []
    else
      var before, ev := Issued(run[..|run| - 1]), run[|run| - 1];
      if ev.Created? then before + [ev.ch] else before
  }

  /** VerifySolution's conditions on the challenge it found. */
  predicate Fulfils(sha: Hash, ch: Challenge, sol: Solution, t: int) {
    && ch.prefix == sol.prefix
    && t <= ch.expiresAt
    && Solves(sha, sol.prefix, sol.solution, ch.difficulty)
  }

  /** VerifySolution: the entry stored under the solution's nonce decides. */
  predicate Accepts(sha: Hash, store: map<string, Challenge>, sol: Solution, t: int) {
    sol.nonce in store && Fulfils(sha, store[sol.nonce], sol, t)
  }

  /** Acceptance judged by the full record of challenges. */
  ghost predicate AcceptsByRecord(sha: Hash, issued: seq<Challenge>, sol: Solution, t: int) {
    exists ch :: ch in issued && ch.nonce == sol.nonce && Fulfils(sha, ch, sol, t)
  }

  /** In terms of the hash: acceptance by the full record. */
  lemma AcceptsByRecordExactly(sha: Hash, issued: seq<Challenge>, sol: Solution, t: int)
    ensures AcceptsByRecord(sha, issued, sol, t) <==>
      exists ch :: ch in issued && ch.nonce == sol.nonce && ch.prefix == sol.prefix && t <= ch.expiresAt
        && ch.difficulty <= 64 && BigEndian(sha(sol.prefix + sol.solution)) < Pow2(256 - 4 * ch.difficulty)
  {
    forall ch: Challenge
      ensures Solves(sha, sol.prefix, sol.solution, ch.difficulty)
         <==> ch.difficulty <= 64 && BigEndian(sha(sol.prefix + sol.solution)) < Pow2(256 - 4 * ch.difficulty)
    {
      SolvesExactly(sha, sol.prefix, sol.solution, ch.difficulty);
    }
  }

  function Clock(start: int, run: seq<Event>): int {
    if run == [] then start else run[|run| - 1].now
  }

  /** Runs the service can produce: the clock does not go back, and a timer set after the
      expiry time was computed goes off no earlier than that. */
  ghost predicate Legal(start: int, run: seq<Event>) {
    run == []
    || (var before, ev := run[..|run| - 1], run[|run| - 1];
        && Legal(start, before)
        && Clock(start, before) <= ev.now
        && (ev.Evicted? ==> ev.ch in Issued(before) && ev.ch.expiresAt <= ev.now))
  }

  /** The random nonces never repeat. */
  ghost predicate Distinct(issued: seq<Challenge>) {
    forall a, b :: 0 <= a < b < |issued| ==> issued[a].nonce != issued[b].nonce
  }

  ghost predicate FreshNonces(run: seq<Event>) {
    Distinct(Issued(run))
  }

  lemma DistinctBefore(before: seq<Challenge>, after: seq<Challenge>)
    requires before <= after && Distinct(after)
    ensures Distinct(before)
  {
    assert forall i :: 0 <= i < |before| ==> before[i] == after[i];
  }

  lemma OneMoreEvent(start: int, run: seq<Event>, ev: Event)
    ensures Content(run + [ev])
         == if ev.Created? then Content(run)[ev.ch.nonce := ev.ch] else Content(run) - {ev.ch.nonce}
    ensures Issued(run + [ev]) == Issued(run) + if ev.Created? then [ev.ch] else []
    ensures Legal(start, run + [ev])
       <==> Legal(start, run) && Clock(start, run) <= ev.now
            && (ev.Evicted? ==> ev.ch in Issued(run) && ev.ch.expiresAt <= ev.now)
  {
    assert (run + [ev])[..|run|] == run;
  }

  /** Whatever is stored was issued under its own nonce, even if nonces repeat. */
  lemma {:induction false} StoredWasIssued(run: seq<Event>)
    ensures forall n :: n in Content(run) ==> Content(run)[n] in Issued(run) && Content(run)[n].nonce == n
  {
    if run == [] {
    } else {
      var before := run[..|run| - 1];
      StoredWasIssued(before);
      assert forall ch :: ch in Issued(before) ==> ch in Issued(run);
      if run[|run| - 1].Created? {
        assert run[|run| - 1].ch in Issued(run);
      }
    }
  }

  /** The challenge is in the store. */
  predicate Stored(run: seq<Event>, ch: Challenge) {
    ch.nonce in Content(run) && Content(run)[ch.nonce] == ch
  }

  /** Step i created the challenge, and no later step names its nonce. */
  ghost predicate CreatedLast(run: seq<Event>, ch: Challenge, i: int) {
    && 0 <= i < |run| && run[i].Created? && run[i].ch == ch
    && forall j :: i < j < |run| ==> run[j].ch.nonce != ch.nonce
  }

  /** Exactly which challenges are stored, whether or not nonces repeat. */
  lemma {:induction false} StoredExactly(run: seq<Event>, ch: Challenge)
    ensures Stored(run, ch) <==> exists i :: CreatedLast(run, ch, i)
  {
    if run == [] {
    } else {
      var before, ev := run[..|run| - 1], run[|run| - 1];
      StoredExactly(before, ch);
      if ev.ch.nonce == ch.nonce {
        assert ev.Created? && ev.ch == ch ==> CreatedLast(run, ch, |before|);
      } else {
        assert forall i :: CreatedLast(before, ch, i) <==> CreatedLast(run, ch, i);
      }
    }
  }

  /** A challenge missing from the store before its expiry time was overwritten or evicted by another
      issued challenge of the same nonce. */
  lemma {:induction false} LostToTwin(start: int, run: seq<Event>, ch: Challenge) returns (twin: Challenge)
    requires Legal(start, run) && ch in Issued(run) && Clock(start, run) < ch.expiresAt && !Stored(run, ch)
    ensures twin in Issued(run) && twin != ch && twin.nonce == ch.nonce
  {
    var before, ev := run[..|run| - 1], run[|run| - 1];
    if ch in Issued(before) && !Stored(before, ch) {
      twin := LostToTwin(start, before, ch);
    } else {
      twin := ev.ch;
    }
  }

  lemma OneByNonce(run: seq<Event>, x: Challenge, y: Challenge)
    requires FreshNonces(run) && x in Issued(run) && y in Issued(run)
    ensures x.nonce == y.nonce ==> x == y
  {
    var issued := Issued(run);
    var a :| 0 <= a < |issued| && issued[a] == x;
    var b :| 0 <= b < |issued| && issued[b] == y;
    if a < b {
      assert issued[a].nonce != issued[b].nonce;
    } else if b < a {
      assert issued[b].nonce != issued[a].nonce;
    }
  }

  /** Until its expiry time has been reached, an issued challenge is in the store, if nonces do not
      repeat. */
  lemma UnexpiredIsStored(start: int, run: seq<Event>, ch: Challenge)
    requires Legal(start, run) && FreshNonces(run) && ch in Issued(run) && Clock(start, run) < ch.expiresAt
    ensures ch.nonce in Content(run) && Content(run)[ch.nonce] == ch
  {
    if !Stored(run, ch) {
      var twin := LostToTwin(start, run, ch);
      OneByNonce(run, ch, twin);
    }
  }

  /** A run of the service with fresh nonces, looked at no earlier than its last step and not at an
      expiry instant of a challenge with this nonce. */
  ghost predicate Settled(start: int, run: seq<Event>, nonce: string, t: int) {
    && Legal(start, run) && FreshNonces(run) && Clock(start, run) <= t
    && forall ch :: ch in Issued(run) && ch.nonce == nonce ==> ch.expiresAt != t
  }

  /** Eviction is transparent: at every time but the expiry instant itself, the store accepts
      exactly the solutions that the record of all issued challenges accepts. */
  lemma EvictionIsTransparent(sha: Hash, start: int, run: seq<Event>, sol: Solution, t: int)
    requires Settled(start, run, sol.nonce, t)
    ensures Accepts(sha, Content(run), sol, t) <==> AcceptsByRecord(sha, Issued(run), sol, t)
  {
    StoredWasIssued(run);
    if AcceptsByRecord(sha, Issued(run), sol, t) {
      var ch :| ch in Issued(run) && ch.nonce == sol.nonce && Fulfils(sha, ch, sol, t);
      UnexpiredIsStored(start, run, ch);
    }
  }

  lemma {:induction false} IssuedGrows(a: seq<Event>, b: seq<Event>)
    ensures forall ch :: ch in Issued(a) ==> ch in Issued(a + b)
  {
    if b == [] {
      assert a + b == a;
    } else {
      IssuedGrows(a, b[..|b| - 1]);
      assert (a + b)[..|a + b| - 1] == a + b[..|b| - 1];
    }
  }

  /** Once accepted, a solution is accepted again at every time before the expiry of the challenge
      it matched, and at none after it, whatever the service did in between. */
  lemma AcceptanceLastsUntilExpiry(sha: Hash, start: int, run: seq<Event>, sol: Solution, t: int,
                                   more: seq<Event>, u: int)
    requires Legal(start, run + more) && FreshNonces(run + more) && Clock(start, run + more) <= u
    requires Accepts(sha, Content(run), sol, t)
    ensures u < Content(run)[sol.nonce].expiresAt ==> Accepts(sha, Content(run + more), sol, u)
    ensures u > Content(run)[sol.nonce].expiresAt ==> !Accepts(sha, Content(run + more), sol, u)
  {
    var ch := Content(run)[sol.nonce];
    StoredWasIssued(run);
    StoredWasIssued(run + more);
    IssuedGrows(run, more);
    if u < ch.expiresAt {
      UnexpiredIsStored(start, run + more, ch);
    } else if sol.nonce in Content(run + more) {
      OneByNonce(run + more, ch, Content(run + more)[sol.nonce]);
    }
  }

  /** With a repeated nonce that does happen: the timer of the older challenge evicts the newer one,
      whatever the two are, as long as the older expires first and after the newer was created. */
  lemma RepeatedNonceEvictsEarly(older: Challenge, newer: Challenge, t: int, u: int)
    requires older.nonce == newer.nonce && t <= u <= older.expiresAt < newer.expiresAt
    ensures var run := [Created(older, t)] + [Created(newer, u)] + [Evicted(older, older.expiresAt)];
      && Legal(t, run) && newer in Issued(run) && Clock(t, run) < newer.expiresAt
      && !Stored(run, newer)
  {
    var a := [Created(older, t)];
    var b := a + [Created(newer, u)];
    assert [] + [Created(older, t)] == a;
    OneMoreEvent(t, [], Created(older, t));
    OneMoreEvent(t, a, Created(newer, u));
    OneMoreEvent(t, b, Evicted(older, older.expiresAt));
    assert Issued(b) == [older, newer];
  }

  /** The service object. */
  class Service {
    const ttl: int
    const sha: Hash
    var challenges: map<string, Challenge>

    ghost var history: seq<Event>

    ghost predicate Valid()
      reads this
    {
      challenges == Content(history)
    }

    constructor (ttl: int, sha: Hash)
      ensures Valid() && history == [] && this.sha == sha
      ensures this.ttl == if ttl == 0 then 300_000_000_000 else ttl
    {
      this.ttl := if ttl == 0 then 300_000_000_000 else ttl;
      this.sha := sha;
      challenges, history := map[], [];
    }

    /** CreateChallenge, given the two random strings. */
    method CreateChallenge(difficulty: byte, prefix: string, nonce: string, now: int) returns (r: Option<Challenge>)
      requires Valid()
      modifies this
      ensures Valid()
      ensures r == if difficulty == 0 then None else Some(Challenge(prefix, difficulty, nonce, now + ttl))
      ensures history == old(history) + if r.Some? then [Created(r.value, now)] else []
    {
      if difficulty == 0 {
        return None;
      }
      var ch := Challenge(prefix, difficulty, nonce, now + ttl);
      challenges := challenges[ch.nonce := ch];
      history := history + [Created(ch, now)];
      assert history[..|history| - 1] == old(history);
      return Some(ch);
    }

    /** The timer of a challenge goes off. */
    method Evict(ch: Challenge, ghost now: int)
      requires Valid()
      modifies this
      ensures Valid() && history == old(history) + [Evicted(ch, now)]
    {
      challenges := challenges - {ch.nonce};
      history := history + [Evicted(ch, now)];
      assert history[..|history| - 1] == old(history);
    }

    /** VerifySolution; its challenge argument is ignored.  The answer is the one the record of all
        issued challenges gives, except at an expiry instant. */
    method VerifySolution(challenge: Challenge, sol: Solution, now: int) returns (ok: bool)
      requires Valid()
      ensures ok == Accepts(sha, challenges, sol, now)
      ensures ok <==>
        && sol.nonce in challenges
        && var ch := challenges[sol.nonce];
           && ch.prefix == sol.prefix && now <= ch.expiresAt
           && ch.difficulty <= 64 && BigEndian(sha(sol.prefix + sol.solution)) < Pow2(256 - 4 * ch.difficulty)
      ensures forall start :: Settled(start, history, sol.nonce, now) ==>
        ok == AcceptsByRecord(sha, Issued(history), sol, now)
    {
      forall start | Settled(start, history, sol.nonce, now)
        ensures Accepts(sha, challenges, sol, now) == AcceptsByRecord(sha, Issued(history), sol, now)
      {
        EvictionIsTransparent(sha, start, history, sol, now);
      }
      if sol.nonce !in challenges {
        return false;
      }
      var ch := challenges[sol.nonce];
      SolvesExactly(sha, sol.prefix, sol.solution, ch.difficulty);
      if ch.prefix != sol.prefix {
        return false;
      }
      if now > ch.expiresAt {
        return false;
      }
      return Solves(sha, sol.prefix, sol.solution, ch.difficulty);
    }
  }
}
