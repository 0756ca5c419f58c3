/** The conversation between one client and the server, as the messages each side computes. */
module SessionModel {
  import opened Bytes
  import opened HashDifficulty
  import opened FrameFormat
  import opened ChallengeStore
  import Keyed
  import Search = SolvePowModel

  datatype Quote = Quote(text: string, author: string)

  datatype Failure = Failure(code: string, message: string)

  /** The JSON library: an encoder and a decoder for each payload. */
  datatype Codec = Codec(
    encChallenge: Challenge -> seq<byte>, decChallenge: seq<byte> -> Keyed.Option<Challenge>,
    encSolution: Solution -> seq<byte>, decSolution: seq<byte> -> Keyed.Option<Solution>,
    encQuote: Quote -> seq<byte>, decQuote: seq<byte> -> Keyed.Option<Quote>,
    encFailure: Failure -> seq<byte>, decFailure: seq<byte> -> Keyed.Option<Failure>)

  /** Decoding undoes encoding. */
  ghost predicate Lawful(c: Codec) {
    && (forall p: Challenge :: c.decChallenge(c.encChallenge(p)) == Keyed.Some(p))
    && (forall p: Solution :: c.decSolution(c.encSolution(p)) == Keyed.Some(p))
    && (forall p: Quote :: c.decQuote(c.encQuote(p)) == Keyed.Some(p))
    && (forall p: Failure :: c.decFailure(c.encFailure(p)) == Keyed.Some(p))
  }

  // The Validate methods.

  predicate ValidChallenge(ch: Challenge, now: int) {
    ch.prefix != "" && ch.difficulty != 0 && ch.nonce != "" && ch.expiresAt != Keyed.ZERO_TIME && now <= ch.expiresAt
  }

  predicate ValidSolution(sol: Solution) {
    sol.prefix != "" && sol.solution != "" && sol.nonce != ""
  }

  predicate ValidQuote(q: Quote) {
    q.text != ""
  }

  predicate ValidFailure(f: Failure) {
    f.code != "" && f.message != ""
  }

  /** NewMessage with SetPayload: the payload is validated, encoded and measured. */
  function NewMessage(msgType: byte, valid: bool, data: seq<byte>): Result<Message> {
    if !valid then Err(ValidationFailed)
    else if |data| > MAX_PAYLOAD then Err(MessageTooLarge)
    else Ok(Message(VERSION, msgType, 0, |data|, data))
  }

  function ChallengeMessage(c: Codec, ch: Challenge, now: int): Result<Message> {
    NewMessage(TYPE_CHALLENGE, ValidChallenge(ch, now), c.encChallenge(ch))
  }

  function SolutionMessage(c: Codec, sol: Solution): Result<Message> {
    NewMessage(TYPE_SOLUTION, ValidSolution(sol), c.encSolution(sol))
  }

  function QuoteMessage(c: Codec, q: Quote): Result<Message> {
    NewMessage(TYPE_QUOTE, ValidQuote(q), c.encQuote(q))
  }

  function FailureMessage(c: Codec, f: Failure): Result<Message> {
    NewMessage(TYPE_ERROR, ValidFailure(f), c.encFailure(f))
  }

  const INVALID_SOLUTION := Failure("INVALID_SOLUTION", "Solution verification failed")
  const INTERNAL_ERROR := Failure("INTERNAL_ERROR", "Failed to create challenge")

  /** readSolution */
  function ReadSolution(c: Codec, stream: seq<byte>): Result<(Solution, seq<byte>)> {
    match ReadFrame(stream)
    case Err(e) => Err(e)
    case Ok((m, rest)) =>
      if m.msgType != TYPE_SOLUTION then Err(UnexpectedType)
      else if c.decSolution(m.payload).None? then Err(MalformedPayload)
      else Ok((c.decSolution(m.payload).value, rest))
  }

  /** The server's second message, in answer to what the client sent. */
  function ServerAnswer(c: Codec, sha: Hash, store: map<string, Challenge>, q: Quote, stream: seq<byte>, t: int)
    : Result<Message>
  {
    match ReadSolution(c, stream)
    case Err(e) => Err(e)
    case Ok((sol, _)) =>
      if Accepts(sha, store, sol, t) then QuoteMessage(c, q) else FailureMessage(c, INVALID_SOLUTION)
  }

  /** receiveChallenge */
  function ReceiveChallenge(c: Codec, stream: seq<byte>): Result<(Challenge, seq<byte>)> {
    match ReadFrame(stream)
    case Err(e) => Err(e)
    case Ok((m, rest)) =>
      if m.msgType != TYPE_CHALLENGE then Err(UnexpectedType)
      else if c.decChallenge(m.payload).None? then Err(MalformedPayload)
      else Ok((c.decChallenge(m.payload).value, rest))
  }

  /** A decimal numeral: digits only, at least one, and no leading zero but in "0" itself. */
  ghost predicate Numeral(s: string) {
    s != "" && (forall i :: 0 <= i < |s| ==> '0' <= s[i] <= '9') && (|s| > 1 ==> s[0] != '0')
  }

  /** The number a string of digits stands for. */
  ghost function Value(s: string): int {
    if s == "" then 0 else 10 * Value(s[..|s| - 1]) + (s[|s| - 1] as int - '0' as int)
  }

  /** fmt.Sprintf("%d", j) */
  function Decimal(j: nat): (s: string)
    ensures Numeral(s) && Value(s) == j
  {
    if j < 10 then ["0123456789"[j]] else Decimal(j / 10) + ["0123456789"[j % 10]]
  }

  /** The numbers SolvePoW looks for. */
  function Target(sha: Hash, prefix: string, difficulty: byte): nat -> bool {
    (j: nat) => Solves(sha, prefix, Decimal(j), difficulty)
  }

  /** SolvePoW's result under a given schedule of n workers; None is an error. */
  function Solved(sha: Hash, prefix: string, difficulty: byte, n: nat, schedule: seq<Search.Action>)
    : Keyed.Option<string>
  {
    match Search.Exec(Target(sha, prefix, difficulty), n, schedule).outcome
    case Some(Solution(j)) => Keyed.Some(Decimal(j))
    case Some(EmptyNil) => Keyed.Some("")
    case _ => Keyed.None
  }

  /** The client's only message, in answer to the challenge, and the bytes left to read. */
  function ClientAnswer(c: Codec, sha: Hash, stream: seq<byte>, n: nat, schedule: seq<Search.Action>)
    : Result<(Message, seq<byte>)>
  {
    match ReceiveChallenge(c, stream)
    case Err(e) => Err(e)
    case Ok((ch, rest)) =>
      match Solved(sha, ch.prefix, ch.difficulty, n, schedule)
      case None => Err(Unsolved)
      case Some(solution) =>
        match SolutionMessage(c, Solution(ch.prefix, solution, ch.nonce))
        case Err(e) => Err(e)
        case Ok(m) => Ok((m, rest))
  }

  /** receiveQuote */
  function ReceiveQuote(c: Codec, stream: seq<byte>): Result<Quote> {
    match ReadFrame(stream)
    case Err(e) => Err(e)
    case Ok((m, rest)) =>
      if m.msgType == TYPE_QUOTE then
        (match c.decQuote(m.payload)
         case None => Err(MalformedPayload)
         case Some(q) => Ok(q))
      else if m.msgType == TYPE_ERROR then
        (match c.decFailure(m.payload)
         case None => Err(MalformedPayload)
         case Some(f) => Err(ServerError(f.code, f.message)))
      else Err(UnexpectedType)
  }

  /** GetQuote as a whole: what it returns for a given incoming stream. */
  function ClientResult(c: Codec, sha: Hash, stream: seq<byte>, n: nat, schedule: seq<Search.Action>): Result<Quote> {
    match ClientAnswer(c, sha, stream, n, schedule)
    case Err(e) => Err(e)
    case Ok((_, rest)) => ReceiveQuote(c, rest)
  }
}

/** What the two sides achieve together. */
module SessionTheory {
  import opened Bytes
  import opened HashDifficulty
  import opened FrameFormat
  import opened ChallengeStore
  import opened SessionModel
  import Frames = FrameTheory
  import Keyed
  import Search = SolvePowModel
  import SearchTheory = SolvePowTheory

  lemma MessagesAreSendable(msgType: byte, valid: bool, data: seq<byte>)
    requires NewMessage(msgType, valid, data).Ok?
    ensures var m := NewMessage(msgType, valid, data).value;
      Sendable(m) && Normalized(m) == m && m.msgType == msgType && m.payload == data && valid
  {
  }

  lemma {:induction false} ValueIsNatural(s: string)
    requires forall i :: 0 <= i < |s| ==> '0' <= s[i] <= '9'
    ensures Value(s) >= 0 && (s != "" && s[0] != '0' ==> Value(s) > 0)
  {
    if s == "" {
    } else {
      ValueIsNatural(s[..|s| - 1]);
    }
  }

  /** Different numbers are tried as different strings. */
  lemma DecimalIsInjective(i: nat, j: nat)
    requires Decimal(i) == Decimal(j)
    ensures i == j
  {
    assert Value(Decimal(i)) == Value(Decimal(j));
  }

  /** Each number has one numeral: the string tried for it. */
  lemma {:induction false} DecimalIsUnique(s: string)
    requires Numeral(s)
    ensures Value(s) >= 0 && Decimal(Value(s)) == s
  {
    var init := s[..|s| - 1];
    ValueIsNatural(s);
    if |s| == 1 {
      assert init == "" && Value(s) == s[0] as int - '0' as int;
    } else {
      DecimalIsUnique(init);
      ValueIsNatural(init);
      assert Value(s) / 10 == Value(init) && "0123456789"[Value(s) % 10] == s[|s| - 1];
    }
  }

  /** When the client answers at all, its search has returned a number, and the answer carries it. */
  lemma AnswersWithNumber(c: Codec, sha: Hash, stream: seq<byte>, n: nat, schedule: seq<Search.Action>)
    returns (j: nat)
    requires ClientAnswer(c, sha, stream, n, schedule).Ok?
    ensures ReceiveChallenge(c, stream).Ok?
    ensures var (m, ch) := (ClientAnswer(c, sha, stream, n, schedule).value.0, ReceiveChallenge(c, stream).value.0);
      && Search.Exec(Target(sha, ch.prefix, ch.difficulty), n, schedule).outcome == Keyed.Some(Search.Solution(j))
      && Sendable(m) && m.msgType == 2
      && m.payload == c.encSolution(Solution(ch.prefix, Decimal(j), ch.nonce))
  {
    hide Search.Exec, Decimal;
    var ch := ReceiveChallenge(c, stream).value.0;
    var solution := Solved(sha, ch.prefix, ch.difficulty, n, schedule).value;
    var sol := Solution(ch.prefix, solution, ch.nonce);
    MessagesAreSendable(TYPE_SOLUTION, ValidSolution(sol), c.encSolution(sol));
    j := Search.Exec(Target(sha, ch.prefix, ch.difficulty), n, schedule).outcome.value.j;
  }

  /** Whatever bytes the server sends and however the search is scheduled: a solution message the
      client emits is not empty, answers the challenge it received and meets its difficulty. */
  lemma ClientOnlySendsSolutions(c: Codec, sha: Hash, stream: seq<byte>, n: nat, schedule: seq<Search.Action>)
    requires n > 0 && ClientAnswer(c, sha, stream, n, schedule).Ok?
    ensures var m := ClientAnswer(c, sha, stream, n, schedule).value.0;
      var ch := ReceiveChallenge(c, stream).value.0;
      exists solution ::
        && solution != ""
        && ch.difficulty <= 64 && BigEndian(sha(ch.prefix + solution)) < Pow2(256 - 4 * ch.difficulty)
        && Sendable(m) && m.msgType == TYPE_SOLUTION
        && m.payload == c.encSolution(Solution(ch.prefix, solution, ch.nonce))
  {
    hide Search.Exec, BigEndian, Pow2, ClientAnswer, Solves;
    var j := AnswersWithNumber(c, sha, stream, n, schedule);
    var ch := ReceiveChallenge(c, stream).value.0;
    var target := Target(sha, ch.prefix, ch.difficulty);
    SearchTheory.SolutionIsSoundAndLeast(target, n, schedule, j);
    assert target(j);
    SolvesExactly(sha, ch.prefix, Decimal(j), ch.difficulty);
  }

  lemma ReadsOwnChallenge(c: Codec, ch: Challenge, now: int, rest: seq<byte>)
    requires Lawful(c) && ChallengeMessage(c, ch, now).Ok?
    ensures ReceiveChallenge(c, Encode(ChallengeMessage(c, ch, now).value) + rest) == Ok((ch, rest))
  {
    Frames.ReadsBackOne(ChallengeMessage(c, ch, now).value, rest);
  }

  lemma ReadsOwnSolution(c: Codec, sol: Solution, rest: seq<byte>)
    requires Lawful(c) && SolutionMessage(c, sol).Ok?
    ensures ReadSolution(c, Encode(SolutionMessage(c, sol).value) + rest) == Ok((sol, rest))
  {
    Frames.ReadsBackOne(SolutionMessage(c, sol).value, rest);
  }

  lemma ReadsOwnQuote(c: Codec, q: Quote, rest: seq<byte>)
    requires Lawful(c) && QuoteMessage(c, q).Ok?
    ensures ReceiveQuote(c, Encode(QuoteMessage(c, q).value) + rest) == Ok(q)
  {
    Frames.ReadsBackOne(QuoteMessage(c, q).value, rest);
  }

  /** The solution the client sends. */
  function Answer(ch: Challenge, j: nat): Solution {
    Solution(ch.prefix, Decimal(j), ch.nonce)
  }

  /** The number that the search returned is accepted for a stored challenge before it expires. */
  lemma SolutionIsAccepted(sha: Hash, ch: Challenge, n: nat, schedule: seq<Search.Action>, j: nat,
                           store: map<string, Challenge>, t: int)
    requires n > 0
    requires Search.Exec(Target(sha, ch.prefix, ch.difficulty), n, schedule).outcome == Keyed.Some(Search.Solution(j))
    requires ch.nonce in store && store[ch.nonce] == ch && t <= ch.expiresAt
    ensures Accepts(sha, store, Answer(ch, j), t)
  {
    var target := Target(sha, ch.prefix, ch.difficulty);
    SearchTheory.SolutionIsSoundAndLeast(target, n, schedule, j);
    assert target(j);
  }

  // ----- which messages can be sent, and which are understood -----

  /** A challenge can be sent exactly while it is complete, not expired and not too long, and what is
      wrong with another is told apart. */
  lemma ChallengeIsSendableExactly(c: Codec, ch: Challenge, now: int)
    ensures var complete := ch.prefix != "" && ch.nonce != "" && ch.difficulty != 0
                            && ch.expiresAt != -62_135_596_800_000_000_000 && now <= ch.expiresAt;
      match ChallengeMessage(c, ch, now)
      case Ok(m) =>
        && complete && |c.encChallenge(ch)| <= 65528
        && m == Message(1, 1, 0, |c.encChallenge(ch)|, c.encChallenge(ch))
      case Err(e) =>
        if complete then |c.encChallenge(ch)| > 65528 && e == MessageTooLarge else e == ValidationFailed
  {
  }

  /** The same for the other three messages: nothing essential may be empty. */
  lemma OthersAreSendableExactly(c: Codec, sol: Solution, q: Quote, f: Failure)
    ensures match SolutionMessage(c, sol)
      case Ok(m) =>
        && |m.payload| <= 65528 && m == Message(1, 2, 0, |m.payload|, c.encSolution(sol))
        && sol.prefix != "" && sol.solution != "" && sol.nonce != ""
      case Err(e) =>
        if sol.prefix != "" && sol.solution != "" && sol.nonce != ""
        then |c.encSolution(sol)| > 65528 && e == MessageTooLarge else e == ValidationFailed
    ensures match QuoteMessage(c, q)
      case Ok(m) => |m.payload| <= 65528 && m == Message(1, 3, 0, |m.payload|, c.encQuote(q)) && q.text != ""
      case Err(e) => if q.text != "" then |c.encQuote(q)| > 65528 && e == MessageTooLarge else e == ValidationFailed
    ensures match FailureMessage(c, f)
      case Ok(m) =>
        && |m.payload| <= 65528 && m == Message(1, 4, 0, |m.payload|, c.encFailure(f))
        && f.code != "" && f.message != ""
      case Err(e) =>
        if f.code != "" && f.message != ""
        then |c.encFailure(f)| > 65528 && e == MessageTooLarge else e == ValidationFailed
  {
  }

  /** A freshly created challenge is sent, unless its lifetime is over before that or it is too long. */
  lemma FreshChallengeIsSent(c: Codec, prefix: string, nonce: string, difficulty: byte, ttl: int,
                             created: int, sent: int)
    requires prefix != "" && nonce != "" && difficulty > 0 && created + ttl > -62_135_596_800_000_000_000
    ensures var ch := Challenge(prefix, difficulty, nonce, created + ttl);
      ChallengeMessage(c, ch, sent).Ok? <==> sent - created <= ttl && |c.encChallenge(ch)| <= 65528
  {
  }

  /** Only a frame of type 1 is taken for a challenge; what is wrong with another is told apart. */
  lemma OnlyChallengesAreAnswered(c: Codec, stream: seq<byte>)
    ensures match ReadFrame(stream)
      case Err(e) => ReceiveChallenge(c, stream) == Err(e)
      case Ok((m, left)) =>
        match ReceiveChallenge(c, stream)
        case Ok((ch, rest)) => m.msgType == 1 && c.decChallenge(m.payload) == Keyed.Some(ch) && rest == left
        case Err(e) =>
          if m.msgType != 1 then e == UnexpectedType
          else c.decChallenge(m.payload).None? && e == MalformedPayload
  {
  }

  /** Only a frame of type 2 is taken for a solution. */
  lemma OnlySolutionsAreJudged(c: Codec, stream: seq<byte>)
    ensures match ReadFrame(stream)
      case Err(e) => ReadSolution(c, stream) == Err(e)
      case Ok((m, left)) =>
        match ReadSolution(c, stream)
        case Ok((sol, rest)) => m.msgType == 2 && c.decSolution(m.payload) == Keyed.Some(sol) && rest == left
        case Err(e) =>
          if m.msgType != 2 then e == UnexpectedType
          else c.decSolution(m.payload).None? && e == MalformedPayload
  {
  }

  /** Only a frame of type 3 is taken for a quote; one of type 4 is reported as the server's error. */
  lemma OnlyQuotesAreReturned(c: Codec, stream: seq<byte>)
    ensures match ReadFrame(stream)
      case Err(e) => ReceiveQuote(c, stream) == Err(e)
      case Ok((m, _)) =>
        match ReceiveQuote(c, stream)
        case Ok(q) => m.msgType == 3 && c.decQuote(m.payload) == Keyed.Some(q)
        case Err(e) =>
          if m.msgType == 3 then c.decQuote(m.payload).None? && e == MalformedPayload
          else if m.msgType != 4 then e == UnexpectedType
          else if c.decFailure(m.payload).None? then e == MalformedPayload
          else e == ServerError(c.decFailure(m.payload).value.code, c.decFailure(m.payload).value.message)
  {
  }

  /** Whatever the search comes back with other than a solution, nothing is sent: an error ends GetQuote,
      and the empty string does not pass validation. */
  lemma NothingElseIsSent(c: Codec, sha: Hash, stream: seq<byte>, n: nat, schedule: seq<Search.Action>)
    requires ReceiveChallenge(c, stream).Ok?
    ensures var ch := ReceiveChallenge(c, stream).value.0;
      match Search.Exec(Target(sha, ch.prefix, ch.difficulty), n, schedule).outcome
      case None => ClientResult(c, sha, stream, n, schedule) == Err(Unsolved)
      case Some(NoSolution) => ClientResult(c, sha, stream, n, schedule) == Err(Unsolved)
      case Some(ContextError) => ClientResult(c, sha, stream, n, schedule) == Err(Unsolved)
      case Some(EmptyNil) => ClientResult(c, sha, stream, n, schedule) == Err(ValidationFailed)
      case Some(Solution(_)) => true
  {
  }

  /** Every error the server sends is read back as that error. */
  lemma ReadsOwnFailure(c: Codec, f: Failure, rest: seq<byte>)
    requires Lawful(c) && FailureMessage(c, f).Ok?
    ensures ReceiveQuote(c, Encode(FailureMessage(c, f).value) + rest) == Err(ServerError(f.code, f.message))
  {
    Frames.ReadsBackOne(FailureMessage(c, f).value, rest);
  }

  // ----- the exchange -----

  /** The messages of an exchange can be made, and the client's search returns j. */
  ghost predicate Honest(c: Codec, sha: Hash, ch: Challenge, sent: int, n: nat, schedule: seq<Search.Action>, j: nat,
                         q: Quote) {
    && Lawful(c) && n > 0
    && ChallengeMessage(c, ch, sent).Ok? && QuoteMessage(c, q).Ok? && |c.encSolution(Answer(ch, j))| <= MAX_PAYLOAD
    && Search.Exec(Target(sha, ch.prefix, ch.difficulty), n, schedule).outcome == Keyed.Some(Search.Solution(j))
  }

  /** There are honest exchanges for every challenge that some number solves, with any number of
      workers. */
  lemma HonestyIsPossible(c: Codec, sha: Hash, ch: Challenge, sent: int, n: nat, goal: nat, q: Quote)
    requires Lawful(c) && n > 0 && ChallengeMessage(c, ch, sent).Ok? && QuoteMessage(c, q).Ok?
    requires forall j: nat :: |c.encSolution(Answer(ch, j))| <= MAX_PAYLOAD
    requires ch.difficulty <= 64 && BigEndian(sha(ch.prefix + Decimal(goal))) < Pow2(256 - 4 * ch.difficulty)
    ensures exists schedule, j :: Honest(c, sha, ch, sent, n, schedule, j, q)
  {
    var target := Target(sha, ch.prefix, ch.difficulty);
    SolvesExactly(sha, ch.prefix, Decimal(goal), ch.difficulty);
    assert target(goal);
    SearchTheory.SolvedExactly(target, n);
    var schedule :| SearchTheory.Solved(target, Search.Exec(target, n, schedule));
    var j := Search.Exec(target, n, schedule).outcome.value.j;
    assert Honest(c, sha, ch, sent, n, schedule, j, q);
  }

  /** The client answers the challenge with its solution, whatever comes behind the challenge. */
  lemma ClientAnswers(c: Codec, sha: Hash, ch: Challenge, sent: int, n: nat, schedule: seq<Search.Action>, j: nat,
                      q: Quote, rest: seq<byte>)
    requires Honest(c, sha, ch, sent, n, schedule, j, q)
    ensures var answer := SolutionMessage(c, Answer(ch, j));
      && answer.Ok? && Sendable(answer.value)
      && ClientAnswer(c, sha, Encode(ChallengeMessage(c, ch, sent).value) + rest, n, schedule)
         == Ok((answer.value, rest))
  {
    ReadsOwnChallenge(c, ch, sent, rest);
  }

  /** The server's second message for a client that has been given ch, at time t. */
  function Second(c: Codec, ch: Challenge, q: Quote, t: int): Result<Message> {
    if t <= ch.expiresAt then QuoteMessage(c, q)
    else FailureMessage(c, Failure("INVALID_SOLUTION", "Solution verification failed"))
  }

  /** ... and what GetQuote makes of it. */
  function Received(ch: Challenge, q: Quote, t: int): Result<Quote> {
    if t <= ch.expiresAt then Ok(q) else Err(ServerError("INVALID_SOLUTION", "Solution verification failed"))
  }

  /** The two sides' messages fit together: while the challenge is in the store and not expired, the
      server answers the client's solution with the quote and the client reads it; once it has expired,
      evicted or not, the client is told that its solution is invalid. */
  lemma MessagesFit(c: Codec, sha: Hash, ch: Challenge, sent: int, n: nat, schedule: seq<Search.Action>, j: nat,
                    store: map<string, Challenge>, q: Quote, t: int)
    requires Honest(c, sha, ch, sent, n, schedule, j, q) && Second(c, ch, q, t).Ok?
    requires if ch.nonce in store then store[ch.nonce] == ch else t > ch.expiresAt
    ensures var challenge, second := ChallengeMessage(c, ch, sent).value, Second(c, ch, q, t).value;
      var answer := SolutionMessage(c, Answer(ch, j));
      && answer.Ok? && Sendable(answer.value)
      && ClientAnswer(c, sha, Encode(challenge) + Encode(second), n, schedule) == Ok((answer.value, Encode(second)))
      && ServerAnswer(c, sha, store, q, Encode(answer.value), t) == Ok(second)
      && ClientResult(c, sha, Encode(challenge) + Encode(second), n, schedule) == Received(ch, q, t)
  {
    var second := Second(c, ch, q, t).value;
    ClientAnswers(c, sha, ch, sent, n, schedule, j, q, Encode(second));
    ServerJudges(c, sha, ch, sent, n, schedule, j, store, q, t);
    SecondIsReceived(c, ch, q, t);
  }

  lemma ServerJudges(c: Codec, sha: Hash, ch: Challenge, sent: int, n: nat, schedule: seq<Search.Action>, j: nat,
                     store: map<string, Challenge>, q: Quote, t: int)
    requires Honest(c, sha, ch, sent, n, schedule, j, q) && SolutionMessage(c, Answer(ch, j)).Ok?
    requires if ch.nonce in store then store[ch.nonce] == ch else t > ch.expiresAt
    ensures ServerAnswer(c, sha, store, q, Encode(SolutionMessage(c, Answer(ch, j)).value), t) == Second(c, ch, q, t)
  {
    var message := SolutionMessage(c, Answer(ch, j)).value;
    if t <= ch.expiresAt {
      SolutionIsAccepted(sha, ch, n, schedule, j, store, t);
    }
    ReadsOwnSolution(c, Answer(ch, j), []);
    assert Encode(message) + [] == Encode(message);
  }

  lemma SecondIsReceived(c: Codec, ch: Challenge, q: Quote, t: int)
    requires Lawful(c) && Second(c, ch, q, t).Ok?
    ensures ReceiveQuote(c, Encode(Second(c, ch, q, t).value)) == Received(ch, q, t)
  {
    var second := Encode(Second(c, ch, q, t).value);
    assert second + [] == second;
    if t <= ch.expiresAt {
      ReadsOwnQuote(c, q, []);
    } else {
      ReadsOwnFailure(c, Failure("INVALID_SOLUTION", "Solution verification failed"), []);
    }
  }

  /** No quote without a valid solution, and none withheld: judged by the record of all challenges
      ever issued, the server answers a readable solution with the quote when it fulfils one of them
      and with the error otherwise. */
  lemma QuoteOnlyForAccepted(c: Codec, sha: Hash, start: int, run: seq<Event>, q: Quote, stream: seq<byte>, t: int)
    requires ReadSolution(c, stream).Ok? && Settled(start, run, ReadSolution(c, stream).value.0.nonce, t)
    ensures ServerAnswer(c, sha, Content(run), q, stream, t)
         == if AcceptsByRecord(sha, Issued(run), ReadSolution(c, stream).value.0, t)
            then QuoteMessage(c, q) else FailureMessage(c, Failure("INVALID_SOLUTION", "Solution verification failed"))
  {
    EvictionIsTransparent(sha, start, run, ReadSolution(c, stream).value.0, t);
  }

  /** An honest pair succeeds: the service issued the challenge, the search of the client returns a
      solution, and everything is delivered before the challenge expires.  Then, whatever else the
      service did meanwhile, the server's answer to the client's message is the quote, and GetQuote on
      the server's two messages returns it. */
  lemma HonestExchangeEndsWithQuote(c: Codec, sha: Hash, ch: Challenge, sent: int, n: nat,
                                    schedule: seq<Search.Action>, j: nat,
                                    start: int, run: seq<Event>, q: Quote, t: int)
    requires Honest(c, sha, ch, sent, n, schedule, j, q)
    requires Legal(start, run) && FreshNonces(run) && ch in Issued(run) && Clock(start, run) <= t < ch.expiresAt
    ensures var challenge, quote := ChallengeMessage(c, ch, sent).value, QuoteMessage(c, q).value;
      var answer := ClientAnswer(c, sha, Encode(challenge) + Encode(quote), n, schedule);
      && answer.Ok? && answer.value.1 == Encode(quote)
      && Sendable(answer.value.0)
      && ServerAnswer(c, sha, Content(run), q, Encode(answer.value.0), t) == Ok(quote)
      && ClientResult(c, sha, Encode(challenge) + Encode(quote), n, schedule) == Ok(q)
  {
    UnexpiredIsStored(start, run, ch);
    MessagesFit(c, sha, ch, sent, n, schedule, j, Content(run), q, t);
  }

  /** ... and once it has expired, whatever else the service did, the answer is the INVALID_SOLUTION
      error, which GetQuote returns. */
  lemma LateExchangeEndsWithError(c: Codec, sha: Hash, ch: Challenge, sent: int, n: nat,
                                  schedule: seq<Search.Action>, j: nat,
                                  start: int, run: seq<Event>, q: Quote, t: int)
    requires Honest(c, sha, ch, sent, n, schedule, j, q)
    requires FailureMessage(c, Failure("INVALID_SOLUTION", "Solution verification failed")).Ok?
    requires Settled(start, run, ch.nonce, t) && ch in Issued(run) && ch.expiresAt < t
    ensures var error := FailureMessage(c, Failure("INVALID_SOLUTION", "Solution verification failed")).value;
      && ServerAnswer(c, sha, Content(run), q, Encode(SolutionMessage(c, Answer(ch, j)).value), t) == Ok(error)
      && ClientResult(c, sha, Encode(ChallengeMessage(c, ch, sent).value) + Encode(error), n, schedule)
         == Err(ServerError("INVALID_SOLUTION", "Solution verification failed"))
  {
    StoredWasIssued(run);
    if ch.nonce in Content(run) {
      OneByNonce(run, ch, Content(run)[ch.nonce]);
    }
    MessagesFit(c, sha, ch, sent, n, schedule, j, Content(run), q, t);
  }

  /** Any client that sends a solution which fulfils no challenge ever issued is told so: the server's
      answer is the INVALID_SOLUTION error, and GetQuote returns it. */
  lemma WrongSolutionIsReported(c: Codec, sha: Hash, stream: seq<byte>, n: nat, schedule: seq<Search.Action>,
                                start: int, run: seq<Event>, q: Quote, t: int, sol: Solution)
    requires Lawful(c) && FailureMessage(c, Failure("INVALID_SOLUTION", "Solution verification failed")).Ok?
    requires SolutionMessage(c, sol).Ok? && Settled(start, run, sol.nonce, t)
    requires !AcceptsByRecord(sha, Issued(run), sol, t)
    requires var error := FailureMessage(c, Failure("INVALID_SOLUTION", "Solution verification failed")).value;
      ClientAnswer(c, sha, stream, n, schedule) == Ok((SolutionMessage(c, sol).value, Encode(error)))
    ensures var error := FailureMessage(c, Failure("INVALID_SOLUTION", "Solution verification failed")).value;
      ServerAnswer(c, sha, Content(run), q, Encode(SolutionMessage(c, sol).value), t) == Ok(error)
    ensures ClientResult(c, sha, stream, n, schedule)
         == Err(ServerError("INVALID_SOLUTION", "Solution verification failed"))
  {
    var message := Encode(SolutionMessage(c, sol).value);
    var failure := Failure("INVALID_SOLUTION", "Solution verification failed");
    ReadsOwnSolution(c, sol, []);
    assert message + [] == message;
    QuoteOnlyForAccepted(c, sha, start, run, q, message, t);
    ReadsOwnFailure(c, failure, []);
    assert Encode(FailureMessage(c, failure).value) + [] == Encode(FailureMessage(c, failure).value);
  }
}

/** The code that runs the conversation over a connection. */
module SessionCode {
  import opened Bytes
  import opened HashDifficulty
  import opened FrameFormat
  import opened FramingCode
  import opened ChallengeStore
  import opened SessionModel
  import Keyed
  import Search = SolvePowModel
  import Theory = SessionTheory

  /** Sends a message that NewMessage made, or passes its error on. */
  method Send(conn: Conn, m: Result<Message>) returns (r: Result<()>)
    requires m.Ok? ==> Sendable(m.value)
    modifies conn`written
    ensures r == if m.Ok? then Ok(()) else Err(m.error)
    ensures conn.written == old(conn.written) + if m.Ok? then Encode(m.value) else []
  {
    if m.Err? {
      return Err(m.error);
    }
    r := SendMessage(conn, m.value);
    r := Ok(());
  }

  /** handleConnection, with the random strings, the quote and the clock readings as parameters. */
  method HandleConnection(conn: Conn, service: Service, c: Codec, difficulty: byte,
                          prefix: string, nonce: string, q: Quote, created: int, sent: int, verified: int)
    returns (r: Result<()>)
    requires service.Valid()
    modifies conn, service
    ensures service.Valid()
    ensures difficulty == 0 ==>
      var m := FailureMessage(c, Failure("INTERNAL_ERROR", "Failed to create challenge"));
      && r == (if m.Ok? then Ok(()) else Err(m.error))
      && conn.written == old(conn.written) + (if m.Ok? then Encode(m.value) else [])
      && service.history == old(service.history)
    ensures difficulty > 0 ==>
      var ch := Challenge(prefix, difficulty, nonce, created + service.ttl);
      && service.history == old(service.history) + [Created(ch, created)]
      && match ChallengeMessage(c, ch, sent)
         case Err(e) => r == Err(e) && conn.written == old(conn.written)
         case Ok(first) =>
           match ServerAnswer(c, service.sha, service.challenges, q, old(conn.unread), verified)
           case Err(e) => r == Err(e) && conn.written == old(conn.written) + Encode(first)
           case Ok(second) => r == Ok(()) && conn.written == old(conn.written) + Encode(first) + Encode(second)
    ensures difficulty > 0 && r.Ok? ==>
      var ch := Challenge(prefix, difficulty, nonce, created + service.ttl);
      var first := Encode(ChallengeMessage(c, ch, sent).value);
      var sol := ReadSolution(c, old(conn.unread)).value.0;
      forall start :: Settled(start, service.history, sol.nonce, verified) ==>
        var paid := AcceptsByRecord(service.sha, Issued(service.history), sol, verified);
        var second := if paid then QuoteMessage(c, q)
                      else FailureMessage(c, Failure("INVALID_SOLUTION", "Solution verification failed"));
        second.Ok? && conn.written == old(conn.written) + first + Encode(second.value)
  {
    var challenge := service.CreateChallenge(difficulty, prefix, nonce, created);
    if challenge.None? {
      r := Send(conn, FailureMessage(c, INTERNAL_ERROR));
      return;
    }
    r := Send(conn, ChallengeMessage(c, challenge.value, sent));
    if r.Err? {
      return;
    }
    var m := ServerReadMessage(conn);
    if m.Err? {
      return Err(m.error);
    }
    if m.value.msgType != TYPE_SOLUTION {
      return Err(UnexpectedType);
    }
    var sol := c.decSolution(m.value.payload);
    if sol.None? {
      return Err(MalformedPayload);
    }
    var ok := service.VerifySolution(challenge.value, sol.value, verified);
    ghost var stream := old(conn.unread);
    assert ReadSolution(c, stream).Ok? && ReadSolution(c, stream).value.0 == sol.value;
    r := Send(conn, if ok then QuoteMessage(c, q) else FailureMessage(c, INVALID_SOLUTION));
  }

  /** The client's connection and its GetQuote.  The search runs under some schedule of its workers. */
  class Client {
    var conn: Conn

    constructor (conn: Conn)
      ensures this.conn == conn
    {
      this.conn := conn;
    }

    method GetQuote(c: Codec, sha: Hash, n: nat, schedule: seq<Search.Action>) returns (r: Result<Quote>)
      modifies conn
      ensures r == ClientResult(c, sha, old(conn.unread), n, schedule)
      ensures var answer := ClientAnswer(c, sha, old(conn.unread), n, schedule);
        conn.written == old(conn.written) + if answer.Ok? then Encode(answer.value.0) else []
    {
      var m := ClientReadMessage(conn);
      if m.Err? {
        return Err(m.error);
      }
      if m.value.msgType != TYPE_CHALLENGE {
        return Err(UnexpectedType);
      }
      var challenge := c.decChallenge(m.value.payload);
      if challenge.None? {
        return Err(MalformedPayload);
      }
      var ch := challenge.value;
      var solution := Solved(sha, ch.prefix, ch.difficulty, n, schedule);
      if solution.None? {
        return Err(Unsolved);
      }
      var sent := Send(conn, SolutionMessage(c, Solution(ch.prefix, solution.value, ch.nonce)));
      if sent.Err? {
        return Err(sent.error);
      }
      r := ReceiveQuote(c);
    }

    method ReceiveQuote(c: Codec) returns (r: Result<Quote>)
      modifies conn`unread
      ensures r == SessionModel.ReceiveQuote(c, old(conn.unread))
    {
      var m := ClientReadMessage(conn);
      if m.Err? {
        return Err(m.error);
      }
      if m.value.msgType == TYPE_QUOTE {
        var q := c.decQuote(m.value.payload);
        return if q.None? then Err(MalformedPayload) else Ok(q.value);
      }
      if m.value.msgType == TYPE_ERROR {
        var f := c.decFailure(m.value.payload);
        return if f.None? then Err(MalformedPayload) else Err(ServerError(f.value.code, f.value.message));
      }
      return Err(UnexpectedType);
    }
  }

  /** The handler's part of an honest exchange: it writes the challenge and then the quote, or the error
      if the challenge has expired by then. */
  method ServeHonestly(conn: Conn, service: Service, c: Codec, ghost ch: Challenge, difficulty: byte,
                       prefix: string, nonce: string, q: Quote, created: int, sent: int, verified: int,
                       ghost n: nat, ghost schedule: seq<Search.Action>, ghost j: nat)
    requires service.Valid() && ch == Challenge(prefix, difficulty, nonce, created + service.ttl)
    requires Theory.Honest(c, service.sha, ch, sent, n, schedule, j, q) && Theory.Second(c, ch, q, verified).Ok?
    requires SolutionMessage(c, Theory.Answer(ch, j)).Ok?
    requires conn.unread == Encode(SolutionMessage(c, Theory.Answer(ch, j)).value)
    modifies conn, service
    ensures conn.written == old(conn.written)
         + Encode(ChallengeMessage(c, ch, sent).value) + Encode(Theory.Second(c, ch, q, verified).value)
  {
    OneMoreEvent(0, service.history, Created(ch, created));
    var served := HandleConnection(conn, service, c, difficulty, prefix, nonce, q, created, sent, verified);
    Theory.MessagesFit(c, service.sha, ch, sent, n, schedule, j, service.challenges, q, verified);
  }

  /** GetQuote's part: given those bytes it sends the solution and returns the quote or the error. */
  method FetchHonestly(client: Client, sha: Hash, c: Codec, ghost ch: Challenge, ghost q: Quote,
                       ghost sent: int, ghost verified: int,
                       n: nat, schedule: seq<Search.Action>, ghost j: nat)
    returns (r: Result<Quote>)
    requires Theory.Honest(c, sha, ch, sent, n, schedule, j, q) && Theory.Second(c, ch, q, verified).Ok?
    requires client.conn.unread
          == Encode(ChallengeMessage(c, ch, sent).value) + Encode(Theory.Second(c, ch, q, verified).value)
    modifies client.conn
    ensures r == Theory.Received(ch, q, verified)
    ensures SolutionMessage(c, Theory.Answer(ch, j)).Ok?
    ensures client.conn.written == old(client.conn.written) + Encode(SolutionMessage(c, Theory.Answer(ch, j)).value)
  {
    Theory.MessagesFit(c, sha, ch, sent, n, schedule, j, map[ch.nonce := ch], q, verified);
    r := client.GetQuote(c, sha, n, schedule);
  }

  /** One honest conversation: the server's handler and GetQuote run against each other, each reading
      what the other has written.  Up to the expiry of the challenge the handler writes the challenge and
      then the quote, and the client ends up holding the quote; after it the client gets the error. */
  method HonestConversation(atServer: Conn, client: Client, service: Service, c: Codec, ghost ch: Challenge,
                            difficulty: byte, prefix: string, nonce: string, q: Quote,
                            created: int, sent: int, verified: int,
                            n: nat, schedule: seq<Search.Action>, ghost j: nat)
    returns (r: Result<Quote>)
    requires service.Valid() && atServer != client.conn
    requires ch == Challenge(prefix, difficulty, nonce, created + service.ttl)
    requires Theory.Honest(c, service.sha, ch, sent, n, schedule, j, q) && Theory.Second(c, ch, q, verified).Ok?
    requires SolutionMessage(c, Theory.Answer(ch, j)).Ok?
    requires atServer.unread == Encode(SolutionMessage(c, Theory.Answer(ch, j)).value)
    requires atServer.written == [] && client.conn.written == []
    modifies atServer, service, client.conn
    ensures verified <= created + service.ttl ==> r == Ok(q)
    ensures verified > created + service.ttl ==>
      r == Err(ServerError("INVALID_SOLUTION", "Solution verification failed"))
    ensures atServer.written
         == Encode(ChallengeMessage(c, ch, sent).value) + Encode(Theory.Second(c, ch, q, verified).value)
    ensures client.conn.written == old(atServer.unread)
  {
    ServeHonestly(atServer, service, c, ch, difficulty, prefix, nonce, q, created, sent, verified, n, schedule, j);
    client.conn.unread := atServer.written;
    r := FetchHonestly(client, service.sha, c, ch, q, sent, verified, n, schedule, j);
  }
}
