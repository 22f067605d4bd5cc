/**
 The outbound request loop: token wait, send, record with the breaker, retry or give up.  The
 provider, the limiter and the random jitter are oracles indexed by attempt.
 */
module ResilientClients {
  import opened Basics
  import B = TokenBuckets
  import C = CircuitBreakers

  /** `backoffBase`, `backoffMax` and `jitter` are what the policy's fields hold. */
  datatype RetryPolicy = RetryPolicy(
    maxAttempts: int, backoffBase: real, backoffMax: real, jitter: real, retryOn: set<int>)
  {
    ghost predicate Valid() {
      0.0 <= backoffBase && 0.0 <= backoffMax && 0.0 <= jitter
    }
  }

  const MAX_BUCKET_WAIT := 10.0
  const MIN_SLEEP := 0.05

  function Jittered(raw: real, noise: real): real {
    raw * (1.0 + noise)
  }

  function Backoff(p: RetryPolicy, attempt: int): real {
    var exponent: nat := Max(attempt - 1, 0);
    MinReal(p.backoffBase * Pow2(exponent) as real, p.backoffMax)
  }

  /** Seconds to wait after `attempt`; `noise` is the draw from `[-jitter, jitter]`. */
  function DelayFor(p: RetryPolicy, attempt: int, retryAfter: Option<real>, noise: real): real {
    if retryAfter.Some? && retryAfter.value >= 0.0 then MinReal(retryAfter.value, p.backoffMax * 4.0)
    else Jittered(Backoff(p, attempt), noise)
  }

  predicate CountsAsProviderFailure(status: int) {
    status in {401, 403, 408, 425, 429} || status >= 500
  }

  const IDEMPOTENT_METHODS := {"GET", "HEAD", "OPTIONS", "PUT", "DELETE"}

  // ----- waiting for a token ----------------------------------------------------------

  /** One answer of the limiter; other callers may drain the bucket between two of them. */
  datatype Grant = Allowed | Denied(wait: real) | Unavailable

  datatype TokenResult = Proceed | RateLimited(retryAfter: real)

  /** No sleep is shorter than a twentieth of a second. */
  function Pause(wait: real): (r: real)
    ensures r == wait >= 0.05 || r == 0.05 >= wait
  {
    MaxReal(wait, MIN_SLEEP)
  }

  ghost function Total(sleeps: seq<real>): real
    decreases |sleeps|
  {
    if sleeps == [] then 0.0 else Total(sleeps[..|sleeps| - 1]) + sleeps[|sleeps| - 1]
  }

  /** How the wait goes on after `k` sleeps that took `waited` seconds, and how long it slept. */
  function Awaited(limiter: nat -> Grant, k: nat, waited: real): (r: (TokenResult, real))
    requires MIN_SLEEP * k as real <= waited <= MAX_BUCKET_WAIT
    ensures waited <= r.1 <= MAX_BUCKET_WAIT
    decreases 201 - k
  {
    match limiter(k)
    case Denied(wait) =>
      if waited + Pause(wait) > MAX_BUCKET_WAIT then (RateLimited(Pause(wait)), waited)
      else Awaited(limiter, k + 1, waited + Pause(wait))
    case _ => (Proceed, waited)
  }

  function TokenFor(limiter: nat -> Grant): (TokenResult, real) {
    Awaited(limiter, 0, 0.0)
  }

  /** The limiter's answers are arbitrary.  The wait still ends after at most 200 sleeps of at most
      ten seconds in all, it sleeps exactly what the limiter asked for, and it gives up only on a
      wait that would not fit. */
  method AwaitToken(limiter: nat -> Grant) returns (r: TokenResult, waited: real, sleeps: seq<real>)
    ensures (r, waited) == TokenFor(limiter) && waited == Total(sleeps)
    ensures |sleeps| <= 200 && 0.0 <= waited <= MAX_BUCKET_WAIT
    ensures forall i :: 0 <= i < |sleeps| ==> limiter(i).Denied? && sleeps[i] == Pause(limiter(i).wait)
    ensures r.Proceed? <==> !limiter(|sleeps|).Denied?
    ensures r.RateLimited? ==>
      && r.retryAfter == Pause(limiter(|sleeps|).wait)
      && waited + r.retryAfter > MAX_BUCKET_WAIT
  {
    sleeps := [];
    waited := 0.0;
    while true
      invariant waited == Total(sleeps) && waited <= MAX_BUCKET_WAIT
      invariant MIN_SLEEP * |sleeps| as real <= waited
      invariant TokenFor(limiter) == Awaited(limiter, |sleeps|, waited)
      invariant forall i :: 0 <= i < |sleeps| ==> limiter(i).Denied? && sleeps[i] == Pause(limiter(i).wait)
      decreases 201 - |sleeps|
    {
      var grant := limiter(|sleeps|);
      if !grant.Denied? {
        return Proceed, waited, sleeps;
      }
      var waitFor := Pause(grant.wait);
      if waited + waitFor > MAX_BUCKET_WAIT {
        return RateLimited(waitFor), waited, sleeps;
      }
      assert (sleeps + [waitFor])[..|sleeps|] == sleeps;
      sleeps := sleeps + [waitFor];
      waited := waited + waitFor;
    }
  }

  // ----- the request ------------------------------------------------------------------

  datatype Reply = TransportError(timeout: bool) | Response(status: int, retryAfter: Option<real>)

  datatype Failure =
    | CircuitOpen
    | RateLimit(retryAfter: Option<real>)
    | Auth
    | Timeout
    | Unreachable
    | Rejected(status: int)

  datatype Outcome = Returned(status: int) | FromCache(cached: int) | Raised(failure: Failure)

  /** Everything one request did to the world outside it; `log` is what it told its breaker. */
  datatype Trace = Trace(sent: nat, slept: real, log: seq<C.Event>, outcome: Outcome)

  /** The world an attempt meets: the limiter's answers, what other processes told the breaker since
      the last report, what the provider sent back and when, whether the breaker's store could be
      reached then, and the random draw. */
  datatype Round = Round(
    limiter: nat -> Grant, others: seq<C.Event>, reply: Reply, at: real, up: bool, noise: real)

  ghost predicate Fair(p: RetryPolicy, rounds: int -> Round) {
    forall i :: -p.jitter <= rounds(i).noise <= p.jitter
  }

  function ErrorFor(status: int, retryAfter: Option<real>): Failure {
    if status in {401, 403} then Auth
    else if status == 429 then RateLimit(retryAfter)
    else if status in {408, 504} then Timeout
    else Rejected(status)
  }

  /** Whether a request that got `reply` on `attempt` sends again. */
  predicate TriesAgain(p: RetryPolicy, retryable: bool, attempt: int, reply: Reply) {
    && retryable && attempt < p.maxAttempts
    && match reply
       case TransportError(_) => true
       case Response(status, retryAfter) =>
         status >= 400 && status in p.retryOn
         && !(retryAfter.Some? && retryAfter.value > p.backoffMax * 2.0)
  }

  /** What a request that does not send again ends with. */
  function FinalOutcome(p: RetryPolicy, retryable: bool, attempt: int, reply: Reply): Outcome {
    match reply
    case TransportError(timeout) => Raised(if timeout then Timeout else Unreachable)
    case Response(status, retryAfter) =>
      if status < 400 then Returned(status)
      else if status in p.retryOn && retryable && attempt < p.maxAttempts then Raised(RateLimit(retryAfter))
      else Raised(ErrorFor(status, retryAfter))
  }

  function RetryHint(reply: Reply): Option<real> {
    if reply.Response? then reply.retryAfter else None
  }

  function Nap(delay: real): real {
    MaxReal(delay, 0.0)
  }

  predicate Succeeds(reply: Reply) {
    reply.Response? && reply.status < 400
  }

  predicate CountsAsFailure(reply: Reply) {
    reply.TransportError? || CountsAsProviderFailure(reply.status)
  }

  /** What the breaker is told about a reply. */
  function Report(r: Round): seq<C.Event> {
    if Succeeds(r.reply) then [C.Event(C.Succeeded, r.at, r.up)]
    else if CountsAsFailure(r.reply) then [C.Event(C.Failed, r.at, r.up)]
    else []
  }

  /** All that the breaker is told during `n` rounds from `attempt` on, by this client and the others. */
  function Told(rounds: int -> Round, attempt: int, n: nat): seq<C.Event>
    decreases n
  {
    if n == 0 then [] else Told(rounds, attempt, n - 1) + rounds(attempt + n - 1).others + Report(rounds(attempt + n - 1))
  }

  /** The rest of a request from `attempt` on. */
  function From(p: RetryPolicy, retryable: bool, rounds: int -> Round, attempt: int): Trace
    decreases p.maxAttempts - attempt
  {
    if attempt > p.maxAttempts then Trace(0, 0.0, [], Raised(Unreachable))
    else
      var r := rounds(attempt);
      var (token, waited) := TokenFor(r.limiter);
      if token.RateLimited? then Trace(0, waited, [], Raised(RateLimit(Some(token.retryAfter))))
      else if !TriesAgain(p, retryable, attempt, r.reply) then
        Trace(1, waited, Report(r), FinalOutcome(p, retryable, attempt, r.reply))
      else
        var rest := From(p, retryable, rounds, attempt + 1);
        var nap := Nap(DelayFor(p, attempt, RetryHint(r.reply), r.noise));
        Trace(1 + rest.sent, waited + nap + rest.slept, Report(r) + rest.log, rest.outcome)
  }

  /** Put what was done before `rest` in front of it. */
  function Resume(sent: nat, slept: real, log: seq<C.Event>, rest: Trace): Trace {
    Trace(sent + rest.sent, slept + rest.slept, log + rest.log, rest.outcome)
  }

  /** An attempt that is not followed by another one ends the request. */
  lemma EndsHere(p: RetryPolicy, retryable: bool, rounds: int -> Round, attempt: int,
                 sent: nat, slept: real, log: seq<C.Event>)
    requires attempt <= p.maxAttempts
    ensures var r := rounds(attempt);
      var (token, waited) := TokenFor(r.limiter);
      var whole := Resume(sent, slept, log, From(p, retryable, rounds, attempt));
      && (token.RateLimited? ==>
           whole == Trace(sent, slept + waited, log, Raised(RateLimit(Some(token.retryAfter)))))
      && (token.Proceed? && !TriesAgain(p, retryable, attempt, r.reply) ==>
           whole == Trace(sent + 1, slept + waited, log + Report(r), FinalOutcome(p, retryable, attempt, r.reply)))
  {
    hide TokenFor, TriesAgain, FinalOutcome, Report;
  }

  lemma GoesOn(p: RetryPolicy, retryable: bool, rounds: int -> Round, attempt: int,
               sent: nat, slept: real, log: seq<C.Event>)
    requires attempt <= p.maxAttempts && TokenFor(rounds(attempt).limiter).0.Proceed?
    requires TriesAgain(p, retryable, attempt, rounds(attempt).reply)
    ensures var r := rounds(attempt);
      Resume(sent, slept, log, From(p, retryable, rounds, attempt))
      == Resume(sent + 1, slept + TokenFor(r.limiter).1 + Nap(DelayFor(p, attempt, RetryHint(r.reply), r.noise)),
                log + Report(r), From(p, retryable, rounds, attempt + 1))
  {
    hide TokenFor, TriesAgain, FinalOutcome, Report, Nap, DelayFor;
    var rest := From(p, retryable, rounds, attempt + 1);
    assert log + (Report(rounds(attempt)) + rest.log) == log + Report(rounds(attempt)) + rest.log;
  }

  lemma NothingBefore(p: RetryPolicy, retryable: bool, rounds: int -> Round)
    ensures From(p, retryable, rounds, 1) == Resume(0, 0.0, [], From(p, retryable, rounds, 1))
    ensures p.maxAttempts < 1 ==> From(p, retryable, rounds, 1) == Trace(0, 0.0, [], Raised(Unreachable))
  {
  }

  predicate Retryable(name: string, idempotencyKey: bool) {
    name in IDEMPOTENT_METHODS || idempotencyKey
  }

  /** The request may be answered from the cache, which holds a reply to it. */
  predicate CachedReply(call: Call) {
    call.cacheable && call.name == "GET" && call.cached.Some?
  }

  /** A whole request: the cache, the breaker's verdict, then the attempts. */
  function Whole(p: RetryPolicy, call: Call, verdict: C.Verdict, checked: seq<C.Event>, rounds: int -> Round): Trace {
    if CachedReply(call) then Trace(0, 0.0, [], FromCache(call.cached.value))
    else if verdict == C.Refused then Trace(0, 0.0, checked, Raised(CircuitOpen))
    else Resume(0, 0.0, checked, From(p, Retryable(call.name, call.idempotencyKey), rounds, 1))
  }

  /** What the breaker is told by and during a whole request. */
  function WholeTold(call: Call, rounds: int -> Round, t: Trace): seq<C.Event> {
    if t.outcome.FromCache? then [] else [C.Event(C.Checked, call.now, call.up)] + Told(rounds, 1, t.sent)
  }

  lemma NothingTold(rounds: int -> Round)
    ensures Told(rounds, 1, 0) == []
  {
  }

  /** What is asked for, when, and whether the breaker's store can be reached at that time. */
  datatype Call = Call(name: string, idempotencyKey: bool, cached: Option<int>, cacheable: bool, now: real, up: bool)

  /** The client of one provider; it may have been built without a breaker. */
  class ResilientClient {
    const retry: RetryPolicy
    const breaker: C.CircuitBreaker?

    constructor (retry: RetryPolicy, breaker: C.CircuitBreaker?)
      ensures this.retry == retry && this.breaker == breaker
    {
      this.retry, this.breaker := retry, breaker;
    }

    function Verdict(call: Call): C.Verdict
      reads breaker
    {
      if breaker == null || !call.up then C.Passed else C.CheckVerdict(breaker.config, breaker.Keys(), call.now)
    }

    method Check(call: Call) returns (v: C.Verdict)
      modifies breaker
      ensures v == old(Verdict(call))
      ensures breaker != null ==>
        breaker.Keys() == C.After(breaker.config, old(breaker.Keys()), [C.Event(C.Checked, call.now, call.up)])
    {
      v := C.Passed;
      if breaker != null {
        v := breaker.Check(call.now, call.up);
        C.AfterOne(breaker.config, old(breaker.Keys()), C.Event(C.Checked, call.now, call.up));
      }
    }

    method RecordReply(r: Round)
      modifies breaker
      ensures breaker != null ==> breaker.Keys() == C.After(breaker.config, old(breaker.Keys()), Report(r))
    {
      if breaker != null {
        if Succeeds(r.reply) {
          breaker.RecordSuccess(r.up);
        } else if CountsAsFailure(r.reply) {
          breaker.RecordFailure(r.at, r.up);
        }
        if Report(r) != [] {
          C.AfterOne(breaker.config, old(breaker.Keys()), Report(r)[0]);
        }
      }
    }

    /** What the others do, then what this client reports. */
    method Overhear(rounds: int -> Round, sent: nat, ghost before: C.Store)
      requires breaker != null ==> breaker.Keys() == C.After(breaker.config, before, Told(rounds, 1, sent))
      modifies breaker
      ensures breaker != null ==> breaker.Keys() == C.After(breaker.config, before, Told(rounds, 1, sent + 1))
    {
      hide C.After, Report;
      if breaker != null {
        var r := rounds(sent + 1);
        breaker.OthersAct(r.others);
        RecordReply(r);
        C.AfterConcat(breaker.config, before, Told(rounds, 1, sent), r.others);
        C.AfterConcat(breaker.config, before, Told(rounds, 1, sent) + r.others, Report(r));
      }
    }

    /** The attempts: wait for a token, send, tell the breaker, then return, raise or pause. */
    method Attempts(retryable: bool, rounds: int -> Round) returns (t: Trace)
      modifies breaker
      ensures t == From(retry, retryable, rounds, 1)
      ensures breaker != null ==>
        breaker.Keys() == C.After(breaker.config, old(breaker.Keys()), Told(rounds, 1, t.sent))
    {
      hide C.After, TokenFor, DelayFor, Report, CountsAsFailure, From, Resume, Nap, Told;
      var lastError: Option<bool> := None;
      var sent, slept, attempt := 0, 0.0, 1;
      var log: seq<C.Event> := [];
      if breaker != null {
        NothingTold(rounds);
        C.AfterNone(breaker.config, breaker.Keys());
      }
      NothingBefore(retry, retryable, rounds);
      while attempt <= retry.maxAttempts
        invariant attempt == 1 || 1 < attempt <= retry.maxAttempts
        invariant sent == attempt - 1
        invariant attempt == 1 ==> lastError.None? && slept == 0.0 && log == []
        invariant From(retry, retryable, rounds, 1) == Resume(sent, slept, log, From(retry, retryable, rounds, attempt))
        invariant breaker != null ==>
          breaker.Keys() == C.After(breaker.config, old(breaker.Keys()), Told(rounds, 1, sent))
        decreases retry.maxAttempts - attempt
      {
        var r := rounds(attempt);
        EndsHere(retry, retryable, rounds, attempt, sent, slept, log);
        if TokenFor(r.limiter).0.Proceed? && TriesAgain(retry, retryable, attempt, r.reply) {
          GoesOn(retry, retryable, rounds, attempt, sent, slept, log);
        }
        var token, waited, _ := AwaitToken(r.limiter);
        slept := slept + waited;
        if token.RateLimited? {
          return Trace(sent, slept, log, Raised(RateLimit(Some(token.retryAfter))));
        }
        Overhear(rounds, sent, if breaker == null then C.EMPTY else old(breaker.Keys()));
        sent := sent + 1;
        log := log + Report(r);
        match r.reply {
          case TransportError(timeout) =>
            lastError := Some(timeout);
            if !retryable || attempt >= retry.maxAttempts {
              break;
            }
            slept := slept + Nap(DelayFor(retry, attempt, None, r.noise));
          case Response(status, retryAfter) =>
            if status < 400 {
              return Trace(sent, slept, log, Returned(status));
            }
            var shouldRetry := status in retry.retryOn && retryable && attempt < retry.maxAttempts;
            if !shouldRetry {
              return Trace(sent, slept, log, Raised(ErrorFor(status, retryAfter)));
            }
            var delay := DelayFor(retry, attempt, retryAfter, r.noise);
            if retryAfter.Some? && retryAfter.value > retry.backoffMax * 2.0 {
              return Trace(sent, slept, log, Raised(RateLimit(retryAfter)));
            }
            slept := slept + Nap(delay);
        }
        attempt := attempt + 1;
      }
      t := Trace(sent, slept, log, Raised(if lastError == Some(true) then Timeout else Unreachable));
    }

    method Request(call: Call, rounds: int -> Round) returns (t: Trace)
      modifies breaker
      ensures t == Whole(retry, call, old(Verdict(call)),
                         if breaker == null then [] else [C.Event(C.Checked, call.now, call.up)], rounds)
      ensures breaker != null ==>
        breaker.Keys() == C.After(breaker.config, old(breaker.Keys()), WholeTold(call, rounds, t))
    {
      hide C.After, From, Reports, Told;
      NothingTold(rounds);
      if breaker != null {
        C.AfterNone(breaker.config, breaker.Keys());
      }
      if call.cacheable && call.name == "GET" && call.cached.Some? {
        return Trace(0, 0.0, [], FromCache(call.cached.value));
      }
      var checked := if breaker == null then [] else [C.Event(C.Checked, call.now, call.up)];
      var verdict := Check(call);
      if verdict == C.Refused {
        assert checked + Told(rounds, 1, 0) == checked;
        return Trace(0, 0.0, checked, Raised(CircuitOpen));
      }
      var rest := Attempts(call.name in IDEMPOTENT_METHODS || call.idempotencyKey, rounds);
      if breaker != null {
        C.AfterConcat(breaker.config, old(breaker.Keys()), checked, Told(rounds, 1, rest.sent));
      }
      RequestReportsFaithfully(retry, Retryable(call.name, call.idempotencyKey), rounds, 1);
      t := Trace(rest.sent, rest.slept, checked + rest.log, rest.outcome);
    }
  }

  // ----- what the request promises ------------------------------------------------------

  /** The most one retry pause may take. */
  function LongestNap(p: RetryPolicy): real {
    MaxReal(2.0, 1.0 + p.jitter) * p.backoffMax
  }

  lemma NapBounded(p: RetryPolicy, attempt: int, reply: Reply, noise: real)
    requires p.Valid() && -p.jitter <= noise <= p.jitter
    requires TriesAgain(p, true, attempt, reply)
    ensures 0.0 <= Nap(DelayFor(p, attempt, RetryHint(reply), noise)) <= LongestNap(p)
  {
    hide Jittered, Backoff, LongestNap;
    var hint := RetryHint(reply);
    if hint.Some? && hint.value >= 0.0 {
      HintFits(p);
    } else {
      BackoffCapped(p, attempt);
      BackoffFits(p, Backoff(p, attempt), noise);
    }
  }

  lemma HintFits(p: RetryPolicy)
    requires p.Valid()
    ensures 0.0 <= 2.0 * p.backoffMax <= LongestNap(p)
  {
    ProductNotNegative(p.backoffMax, MaxReal(2.0, 1.0 + p.jitter) - 2.0);
  }

  lemma BackoffCapped(p: RetryPolicy, attempt: int)
    requires p.Valid()
    ensures 0.0 <= Backoff(p, attempt) <= p.backoffMax
  {
    ProductNotNegative(p.backoffBase, Pow2(Max(attempt - 1, 0)) as real);
  }

  /** Without a hint the pause starts at the base and doubles from attempt to attempt until it
      reaches the cap, and jitter moves it by at most its fraction. */
  lemma BackoffDoubles(p: RetryPolicy, attempt: int, noise: real)
    requires p.Valid() && attempt >= 1 && -p.jitter <= noise <= p.jitter
    ensures Backoff(p, 1) == MinReal(p.backoffBase, p.backoffMax)
    ensures Backoff(p, attempt + 1) == MinReal(2.0 * Backoff(p, attempt), p.backoffMax)
    ensures var d := DelayFor(p, attempt, None, noise);
      && Backoff(p, attempt) * (1.0 - p.jitter) <= d <= Backoff(p, attempt) * (1.0 + p.jitter)
      && forall hint :: hint < 0.0 ==> DelayFor(p, attempt, Some(hint), noise) == d
  {
    var raw := p.backoffBase * Pow2(attempt - 1) as real;
    assert Pow2(attempt) == 2 * Pow2(attempt - 1);
    assert p.backoffBase * Pow2(attempt) as real == 2.0 * raw;
    hide Pow2;
    BackoffCapped(p, attempt);
    ProductNotNegative(Backoff(p, attempt), p.jitter - noise);
    ProductNotNegative(Backoff(p, attempt), noise + p.jitter);
  }

  /** A hint is always honoured in full up to four times the cap. */
  lemma HintWins(p: RetryPolicy, attempt: int, hint: real, noise: real)
    requires p.Valid() && hint >= 0.0
    ensures DelayFor(p, attempt, Some(hint), noise) == hint <==> hint <= 4.0 * p.backoffMax
    ensures DelayFor(p, attempt, Some(hint), noise) <= 4.0 * p.backoffMax
    ensures hint > 4.0 * p.backoffMax ==> DelayFor(p, attempt, Some(hint), noise) == 4.0 * p.backoffMax
  {
  }

  lemma BackoffFits(p: RetryPolicy, raw: real, noise: real)
    requires p.Valid() && -p.jitter <= noise <= p.jitter && 0.0 <= raw <= p.backoffMax
    ensures Nap(Jittered(raw, noise)) <= LongestNap(p)
  {
    var factor := MaxReal(2.0, 1.0 + p.jitter);
    ProductNotNegative(raw, factor - (1.0 + noise));
    ProductNotNegative(p.backoffMax - raw, factor);
    ProductNotNegative(p.backoffMax, factor);
  }

  /** Against any provider, limiter and noise: the number of sends, the single send of a request
      that may not be repeated, the total voluntary sleep, and the breaker's bookkeeping. */
  lemma {:induction false} RequestIsBounded(p: RetryPolicy, retryable: bool, rounds: int -> Round, attempt: int)
    requires p.Valid() && Fair(p, rounds) && 1 <= attempt
    ensures var t := From(p, retryable, rounds, attempt);
      var left := Max(p.maxAttempts - attempt + 1, 0);
      && t.sent <= left
      && (!retryable ==> t.sent <= 1)
      && 0.0 <= t.slept <= MAX_BUCKET_WAIT * left as real + LongestNap(p) * Max(left - 1, 0) as real
    decreases p.maxAttempts - attempt
  {
    hide DelayFor, LongestNap, TriesAgain, FinalOutcome, Nap, Report, TokenFor;
    var left := Max(p.maxAttempts - attempt + 1, 0);
    if attempt <= p.maxAttempts {
      var r := rounds(attempt);
      TokenWaitBounded(r.limiter);
      NapsNonnegative(p, left - 1);
      if TokenFor(r.limiter).0.Proceed? && TriesAgain(p, retryable, attempt, r.reply) {
        TriesAgainMeans(p, retryable, attempt, r.reply);
        NapBounded(p, attempt, r.reply, r.noise);
        RequestIsBounded(p, retryable, rounds, attempt + 1);
        assert LongestNap(p) * (left - 1) as real == LongestNap(p) + LongestNap(p) * (left - 2) as real;
      }
    }
  }

  lemma TokenWaitBounded(limiter: nat -> Grant)
    ensures 0.0 <= TokenFor(limiter).1 <= MAX_BUCKET_WAIT
  {
  }

  lemma TriesAgainMeans(p: RetryPolicy, retryable: bool, attempt: int, reply: Reply)
    requires TriesAgain(p, retryable, attempt, reply)
    ensures retryable && attempt < p.maxAttempts && TriesAgain(p, true, attempt, reply)
  {
  }

  lemma NapsNonnegative(p: RetryPolicy, n: int)
    requires p.Valid() && n >= 0
    ensures 0.0 <= LongestNap(p) * n as real
  {
    ProductNotNegative(MaxReal(2.0, 1.0 + p.jitter), p.backoffMax);
    ProductNotNegative(LongestNap(p), n as real);
  }

  /** The reports about the rounds `attempt .. attempt + n`. */
  function Reports(rounds: int -> Round, attempt: int, n: nat): seq<C.Event>
    decreases n
  {
    if n == 0 then [] else Report(rounds(attempt)) + Reports(rounds, attempt + 1, n - 1)
  }

  /** The breaker hears of exactly the successes, transport errors and counted statuses that came
      back, in order, and a result is the last reply sent for, below 400, with every reply before
      it retryable. */
  lemma {:induction false} RequestReportsFaithfully(p: RetryPolicy, retryable: bool, rounds: int -> Round, attempt: int)
    ensures var t := From(p, retryable, rounds, attempt);
      && t.log == Reports(rounds, attempt, t.sent) && |t.log| <= t.sent
      && (forall i :: 0 <= i < |t.log| ==>
           (t.log[i].kind == C.Succeeded <==> i == |t.log| - 1 && t.outcome.Returned?))
      && (t.outcome.Returned? ==> t.log != [])
      && !t.outcome.FromCache?
      && (t.outcome.Returned? <==>
            && t.sent >= 1
            && Succeeds(rounds(attempt + t.sent - 1).reply))
      && (t.outcome.Returned? ==> rounds(attempt + t.sent - 1).reply.status == t.outcome.status)
      && (forall i :: attempt <= i < attempt + t.sent - 1 ==> TriesAgain(p, retryable, i, rounds(i).reply))
    decreases p.maxAttempts - attempt
  {
    hide TokenFor, DelayFor, Report;
    if attempt <= p.maxAttempts && TokenFor(rounds(attempt).limiter).0.Proceed? {
      OneReport(rounds, attempt);
      ReportKind(p, retryable, attempt, rounds(attempt));
      if TriesAgain(p, retryable, attempt, rounds(attempt).reply) {
        RequestReportsFaithfully(p, retryable, rounds, attempt + 1);
      }
    }
  }

  lemma ReportKind(p: RetryPolicy, retryable: bool, attempt: int, r: Round)
    ensures |Report(r)| <= 1
    ensures Report(r) != [] ==> (Report(r)[0].kind == C.Succeeded <==> Succeeds(r.reply))
    ensures Succeeds(r.reply) ==> Report(r) != [] && !TriesAgain(p, retryable, attempt, r.reply)
    ensures FinalOutcome(p, retryable, attempt, r.reply).Returned? <==> Succeeds(r.reply)
  {
  }

  lemma OneReport(rounds: int -> Round, attempt: int)
    ensures Reports(rounds, attempt, 1) == Report(rounds(attempt))
  {
    assert Reports(rounds, attempt + 1, 0) == [];
  }

  /** Whether an error fits the last reply that was sent for. */
  predicate Explains(p: RetryPolicy, f: Failure, last: Reply) {
    match f
    case CircuitOpen => false
    case Auth => last.Response? && last.status in {401, 403}
    case Timeout => (last.TransportError? && last.timeout) || (last.Response? && last.status in {408, 504})
    case Unreachable => last.TransportError? && !last.timeout
    case Rejected(status) =>
      last.Response? && last.status == status >= 400 && status !in {401, 403, 408, 429, 504}
    case RateLimit(hint) =>
      last.Response? && last.retryAfter == hint
      && (last.status == 429
          || (last.status in p.retryOn && hint.Some? && hint.value > 2.0 * p.backoffMax))
  }

  /** Every error a request raises names what the provider last said, or the limiter's refusal
      to grant the next token; a policy without attempts sends nothing. */
  lemma {:induction false} ErrorsNameTheirCause(p: RetryPolicy, retryable: bool, rounds: int -> Round, attempt: int)
    ensures var t := From(p, retryable, rounds, attempt);
      t.outcome.Raised? ==>
        if attempt > p.maxAttempts then t.sent == 0 && t.outcome.failure == Unreachable
        else if attempt + t.sent <= p.maxAttempts && TokenFor(rounds(attempt + t.sent).limiter).0.RateLimited?
           && (t.sent == 0 || TriesAgain(p, retryable, attempt + t.sent - 1, rounds(attempt + t.sent - 1).reply))
        then t.outcome.failure == RateLimit(Some(TokenFor(rounds(attempt + t.sent).limiter).0.retryAfter))
        else t.sent >= 1 && Explains(p, t.outcome.failure, rounds(attempt + t.sent - 1).reply)
    decreases p.maxAttempts - attempt
  {
    hide TokenFor, DelayFor, Report;
    if attempt <= p.maxAttempts && TokenFor(rounds(attempt).limiter).0.Proceed?
       && TriesAgain(p, retryable, attempt, rounds(attempt).reply) {
      ErrorsNameTheirCause(p, retryable, rounds, attempt + 1);
    }
  }

  // ----- when it tries again ---------------------------------------------------------------------

  /** A reply after which a retryable request has another go, as long as it has attempts left. */
  predicate Transient(p: RetryPolicy, reply: Reply) {
    || reply.TransportError?
    || (reply.Response? && reply.status >= 400 && reply.status in p.retryOn
        && (reply.retryAfter.None? || reply.retryAfter.value <= 2.0 * p.backoffMax))
  }

  /** A retryable request stops behind a transient reply only when its attempts are spent or the limiter
      refuses the next one; a request that is not retryable stops after one send; and nothing is sent
      only for want of attempts or of a first token. */
  lemma {:induction false} StopsOnlyWhenSpent(p: RetryPolicy, retryable: bool, rounds: int -> Round, attempt: int)
    ensures var t := From(p, retryable, rounds, attempt);
      && (t.sent == 0 <==> attempt > p.maxAttempts || TokenFor(rounds(attempt).limiter).0.RateLimited?)
      && (!retryable ==> t.sent <= 1)
      && (t.sent >= 1 && retryable && Transient(p, rounds(attempt + t.sent - 1).reply) ==>
           attempt + t.sent > p.maxAttempts || TokenFor(rounds(attempt + t.sent).limiter).0.RateLimited?)
      && (forall i :: attempt <= i < attempt + t.sent - 1 ==> retryable && Transient(p, rounds(i).reply))
    decreases p.maxAttempts - attempt
  {
    hide TokenFor, DelayFor, Report;
    if attempt <= p.maxAttempts && TokenFor(rounds(attempt).limiter).0.Proceed?
       && TriesAgain(p, retryable, attempt, rounds(attempt).reply) {
      StopsOnlyWhenSpent(p, retryable, rounds, attempt + 1);
    }
  }

  /** A retryable request outlives any transient replies that leave it an attempt: it returns the first
      reply below 400, having sent exactly up to it. */
  lemma {:induction false} OutlivesTransientReplies(
      p: RetryPolicy, rounds: int -> Round, attempt: int, good: int)
    requires attempt <= good <= p.maxAttempts
    requires forall i :: attempt <= i <= good ==> TokenFor(rounds(i).limiter).0.Proceed?
    requires forall i :: attempt <= i < good ==> Transient(p, rounds(i).reply)
    requires Succeeds(rounds(good).reply)
    ensures var t := From(p, true, rounds, attempt);
      t.outcome == Returned(rounds(good).reply.status) && t.sent == good - attempt + 1
    decreases good - attempt
  {
    hide TokenFor, DelayFor, Report;
    if attempt < good {
      OutlivesTransientReplies(p, rounds, attempt + 1, good);
    }
  }

  /** Which requests may be sent again: by their method, or because they carry an idempotency key. */
  lemma RetryableIff(name: string, idempotencyKey: bool)
    ensures Retryable(name, idempotencyKey) <==>
            name == "GET" || name == "HEAD" || name == "OPTIONS" || name == "PUT" || name == "DELETE" || idempotencyKey
  {
  }

  /** A request of any other method without a key is sent at most once, whatever comes back. */
  lemma OneSendWithoutKey(p: RetryPolicy, call: Call, verdict: C.Verdict, checked: seq<C.Event>, rounds: int -> Round)
    requires call.name != "GET" && call.name != "HEAD" && call.name != "OPTIONS"
    requires call.name != "PUT" && call.name != "DELETE" && !call.idempotencyKey
    ensures Whole(p, call, verdict, checked, rounds).sent <= 1
  {
    RetryableIff(call.name, call.idempotencyKey);
    StopsOnlyWhenSpent(p, false, rounds, 1);
  }

  /** The cache answers exactly the cacheable reads it holds a reply for, and then nothing else happens. */
  lemma CacheAnswersIff(p: RetryPolicy, call: Call, verdict: C.Verdict, checked: seq<C.Event>, rounds: int -> Round)
    ensures var t := Whole(p, call, verdict, checked, rounds);
      && (t.outcome.FromCache? <==> call.cacheable && call.name == "GET" && call.cached.Some?)
      && (t.outcome.FromCache? ==> t == Trace(0, 0.0, [], FromCache(call.cached.value)))
  {
    hide From, Reports;
    RequestReportsFaithfully(p, Retryable(call.name, call.idempotencyKey), rounds, 1);
  }

  /** What the breaker hears and what the caller gets, status by status. */
  lemma StatusesByNumber(r: Round)
    requires r.reply.Response?
    ensures var s := r.reply.status;
      && (Report(r) == [C.Event(C.Succeeded, r.at, r.up)] <==> s < 400)
      && (Report(r) == [C.Event(C.Failed, r.at, r.up)] <==>
           s == 401 || s == 403 || s == 408 || s == 425 || s == 429 || s >= 500)
      && (Report(r) == [] <==> 400 <= s < 500 && s != 401 && s != 403 && s != 408 && s != 425 && s != 429)
      && (ErrorFor(s, r.reply.retryAfter) == Auth <==> s == 401 || s == 403)
      && (ErrorFor(s, r.reply.retryAfter) == RateLimit(r.reply.retryAfter) <==> s == 429)
      && (ErrorFor(s, r.reply.retryAfter) == Timeout <==> s == 408 || s == 504)
      && (ErrorFor(s, r.reply.retryAfter) == Rejected(s) <==>
           s != 401 && s != 403 && s != 408 && s != 429 && s != 504)
  {
  }

  // ----- how long it pauses -----------------------------------------------------------------------

  /** The pause behind a reply: the provider's hint, or the backoff of the attempt give or take jitter. */
  predicate FitsReply(p: RetryPolicy, attempt: int, reply: Reply, nap: real) {
    if reply.Response? && reply.retryAfter.Some? && reply.retryAfter.value >= 0.0
    then nap == MinReal(reply.retryAfter.value, 4.0 * p.backoffMax)
    else MaxReal(Backoff(p, attempt) * (1.0 - p.jitter), 0.0) <= nap <= Backoff(p, attempt) * (1.0 + p.jitter)
  }

  /** Seconds slept for tokens in `n` rounds from `attempt` on. */
  function TokenWaits(rounds: int -> Round, attempt: int, n: nat): real
    decreases n
  {
    if n == 0 then 0.0 else TokenFor(rounds(attempt).limiter).1 + TokenWaits(rounds, attempt + 1, n - 1)
  }

  function Sum(naps: seq<real>): real
    decreases |naps|
  {
    if naps == [] then 0.0 else naps[0] + Sum(naps[1..])
  }

  /** All the sleep of a request is accounted for: the waits for its tokens, and behind every reply that
      is followed by another attempt the pause that fits it. */
  lemma {:induction false} SleepAddsUp(p: RetryPolicy, retryable: bool, rounds: int -> Round, attempt: int)
    returns (naps: seq<real>, waits: nat)
    requires p.Valid() && Fair(p, rounds) && 1 <= attempt
    ensures var t := From(p, retryable, rounds, attempt);
      && t.slept == TokenWaits(rounds, attempt, waits) + Sum(naps)
      && t.sent <= waits <= t.sent + 1
      && (waits == t.sent + 1 <==> attempt <= p.maxAttempts && |naps| == t.sent)
      && |naps| == Max(waits - 1, 0)
      && forall i :: 0 <= i < |naps| ==> FitsReply(p, attempt + i, rounds(attempt + i).reply, naps[i])
    decreases p.maxAttempts - attempt
  {
    hide TokenFor, Report, FitsReply, Nap, DelayFor;
    naps, waits := [], 0;
    if attempt <= p.maxAttempts {
      var r := rounds(attempt);
      waits := 1;
      assert TokenWaits(rounds, attempt + 1, 0) == 0.0;
      if TokenFor(r.limiter).0.Proceed? && TriesAgain(p, retryable, attempt, r.reply) {
        naps, waits := SleepAddsUp(p, retryable, rounds, attempt + 1);
        var nap := Nap(DelayFor(p, attempt, RetryHint(r.reply), r.noise));
        NapFits(p, attempt, r.reply, r.noise);
        assert ([nap] + naps)[1..] == naps;
        naps, waits := [nap] + naps, waits + 1;
      }
    }
  }

  /** The same for a whole request: one that the cache or the breaker answers neither sleeps nor sends. */
  lemma RequestSleepAddsUp(p: RetryPolicy, call: Call, verdict: C.Verdict, checked: seq<C.Event>, rounds: int -> Round)
    returns (naps: seq<real>, waits: nat)
    requires p.Valid() && Fair(p, rounds)
    ensures var t := Whole(p, call, verdict, checked, rounds);
      && t.slept == TokenWaits(rounds, 1, waits) + Sum(naps)
      && t.sent <= waits <= t.sent + 1 && |naps| == Max(waits - 1, 0)
      && (CachedReply(call) || verdict == C.Refused ==> waits == 0 && t.sent == 0)
      && forall i :: 0 <= i < |naps| ==> FitsReply(p, 1 + i, rounds(1 + i).reply, naps[i])
  {
    naps, waits := [], 0;
    assert TokenWaits(rounds, 1, 0) == 0.0;
    if !CachedReply(call) && verdict != C.Refused {
      naps, waits := SleepAddsUp(p, Retryable(call.name, call.idempotencyKey), rounds, 1);
    }
  }

  lemma NapFits(p: RetryPolicy, attempt: int, reply: Reply, noise: real)
    requires p.Valid() && attempt >= 1 && -p.jitter <= noise <= p.jitter
    ensures FitsReply(p, attempt, reply, Nap(DelayFor(p, attempt, RetryHint(reply), noise)))
  {
    hide Backoff;
    BackoffCapped(p, attempt);
    ProductNotNegative(Backoff(p, attempt), p.jitter - noise);
    ProductNotNegative(Backoff(p, attempt), noise + p.jitter);
    ProductNotNegative(Backoff(p, attempt), 1.0 + p.jitter);
  }

  // ----- with the breaker ----------------------------------------------------------------------

  /** A request that returns a reply leaves a closed circuit with a clean slate, whatever its breaker
      held before, however often it failed on the way and whatever others did meanwhile. */
  lemma ReturnedReplyClosesCircuit(
      p: RetryPolicy, call: Call, verdict: C.Verdict, checked: seq<C.Event>, rounds: int -> Round, c: C.Config, s: C.Store)
    ensures var t := Whole(p, call, verdict, checked, rounds);
      t.outcome.Returned? && rounds(t.sent).up ==> C.After(c, s, WholeTold(call, rounds, t)) == C.EMPTY
  {
    hide From, Report, Reports;
    var retryable := Retryable(call.name, call.idempotencyKey);
    var t := Whole(p, call, verdict, checked, rounds);
    RequestReportsFaithfully(p, retryable, rounds, 1);
    if t.outcome.Returned? && rounds(t.sent).up {
      var r := rounds(t.sent);
      SuccessReport(r);
      var before := [C.Event(C.Checked, call.now, call.up)] + (Told(rounds, 1, t.sent - 1) + r.others);
      assert WholeTold(call, rounds, t) == before + [Report(r)[0]];
      C.AfterSnoc(c, s, before, Report(r)[0]);
    }
  }

  lemma SuccessReport(r: Round)
    requires Succeeds(r.reply)
    ensures Report(r) == [C.Event(C.Succeeded, r.at, r.up)]
  {
  }

  /** The provider fails every attempt, the store can be reached, the failures come less than the
      failure window apart, and nobody succeeds between them. */
  ghost predicate Dead(c: C.Config, rounds: int -> Round) {
    Fails(rounds(1)) && forall i :: i >= 1 ==> DeadAfter(c, rounds(i), rounds(i + 1))
  }

  predicate Fails(r: Round) {
    CountsAsFailure(r.reply) && !Succeeds(r.reply) && r.up
  }

  ghost predicate DeadAfter(c: C.Config, r: Round, next: Round) {
    && Fails(next) && next.at < r.at + c.window as real
    && C.Ordered(next.others + [C.Event(C.Failed, next.at, true)], r.at)
    && forall e <- next.others :: !C.IsSuccess(e)
  }

  lemma DeadRound(c: C.Config, rounds: int -> Round, i: int)
    requires Dead(c, rounds) && i >= 1
    ensures Report(rounds(i)) == [C.Event(C.Failed, rounds(i).at, true)]
    ensures C.Unbroken(c, rounds(i + 1).others + Report(rounds(i + 1)), rounds(i).at)
    ensures C.LastFailure(rounds(i + 1).others + Report(rounds(i + 1)), rounds(i).at) == rounds(i + 1).at
    ensures C.Fails(rounds(i + 1).others + Report(rounds(i + 1))) >= 1
  {
    assert DeadAfter(c, rounds(i), rounds(i + 1));
    if i > 1 {
      assert DeadAfter(c, rounds(i - 1), rounds(i - 1 + 1));
    }
    assert Report(rounds(i + 1)) == [C.Event(C.Failed, rounds(i + 1).at, true)];
    C.UnbrokenBetween(c, rounds(i + 1).others, C.Event(C.Failed, rounds(i + 1).at, true), rounds(i).at, rounds(i).at);
  }

  /** What the breaker is told after the first report. */
  function ToldLater(rounds: int -> Round, n: nat): seq<C.Event>
    decreases n
  {
    if n == 0 then [] else ToldLater(rounds, n - 1) + (rounds(n + 1).others + Report(rounds(n + 1)))
  }

  lemma {:induction false} ToldSplits(rounds: int -> Round, n: nat)
    ensures Told(rounds, 1, n + 1) == rounds(1).others + Report(rounds(1)) + ToldLater(rounds, n)
    decreases n
  {
    hide Report;
    if n == 0 {
      assert Told(rounds, 1, 0) == [];
    } else {
      ToldSplits(rounds, n - 1);
      var first, later := rounds(1).others + Report(rounds(1)), ToldLater(rounds, n - 1);
      var others, own := rounds(n + 1).others, Report(rounds(n + 1));
      assert first + later + others + own == first + (later + (others + own));
    }
  }

  lemma {:induction false} DeadUnbroken(c: C.Config, rounds: int -> Round, n: nat)
    requires Dead(c, rounds)
    ensures C.Unbroken(c, ToldLater(rounds, n), rounds(1).at)
    ensures C.LastFailure(ToldLater(rounds, n), rounds(1).at) == rounds(n + 1).at
    ensures C.Fails(ToldLater(rounds, n)) >= n
    decreases n
  {
    hide Dead, Report;
    if n > 0 {
      DeadUnbroken(c, rounds, n - 1);
      DeadRound(c, rounds, n);
      C.UnbrokenConcat(c, ToldLater(rounds, n - 1), rounds(n + 1).others + Report(rounds(n + 1)), rounds(1).at);
    }
  }

  /** Against a dead provider every send is counted, whatever others check or fail in between, and once
      the count reaches the threshold the circuit is freshly tripped by the last send. */
  lemma DeadProviderTrips(c: C.Config, rounds: int -> Round, s: C.Store, sent: nat)
    requires c.Valid() && Dead(c, rounds) && sent >= 1
    ensures var z, last := C.After(c, s, Told(rounds, 1, sent)), rounds(sent).at;
      var n := C.FailureCount(C.After(c, s, rounds(1).others), rounds(1).at) + sent;
      && C.FailureCount(z, last) >= n
      && (n >= c.threshold ==> z.open == Some(C.Opened(last, last + (4 * c.cooldown) as real)))
  {
    hide Dead, Report, C.After, C.Unbroken, C.Fails, C.LastFailure, Told, ToldLater;
    DeadRound(c, rounds, 1);
    DeadUnbroken(c, rounds, sent - 1);
    ToldSplits(rounds, sent - 1);
    var others, own, later := rounds(1).others, Report(rounds(1)), ToldLater(rounds, sent - 1);
    var s1 := C.After(c, s, others);
    C.AfterConcat(c, s, others + own, later);
    C.AfterConcat(c, s, others, own);
    C.AfterOne(c, s1, own[0]);
    C.FailuresAddUp(c, C.After(c, s1, own), later, rounds(1).at);
  }

  /** And every request that starts afterwards is refused without a send (unless the cache answers it):
      whoever issues it and whatever else fails meanwhile, until a cooldown has passed or somebody
      succeeds. */
  lemma DeadProviderIsCutOff(c: C.Config, rounds: int -> Round, s: C.Store, sent: nat, later: seq<C.Event>,
                             p: RetryPolicy, call: Call, checked: seq<C.Event>, more: int -> Round)
    requires c.Valid() && Dead(c, rounds) && sent >= 1 && call.up
    requires C.FailureCount(C.After(c, s, rounds(1).others), rounds(1).at) + sent >= c.threshold
    requires C.Ordered(later + [C.Event(C.Checked, call.now, true)], rounds(sent).at)
    requires call.now < rounds(sent).at + c.cooldown as real && forall e <- later :: !C.IsSuccess(e)
    ensures var z := C.After(c, C.After(c, s, Told(rounds, 1, sent)), later);
      var verdict := C.CheckVerdict(c, z, call.now);
      var t := Whole(p, call, verdict, checked, more);
      && verdict == C.Refused && t.sent == 0 && t.slept == 0.0
      && (t.outcome == Raised(CircuitOpen) || (call.name == "GET" && call.cacheable && t.outcome.FromCache?))
  {
    hide Dead, C.After, Told;
    DeadProviderTrips(c, rounds, s, sent);
    var z, o := C.After(c, s, Told(rounds, 1, sent)), rounds(sent).at;
    var all := later + [C.Event(C.Checked, call.now, true)];
    assert all[..|later|] == later && forall i :: 0 <= i < |later| ==> all[i] in later;
    C.OpenRefusesForCooldown(c, z, o, o, all, |later|);
  }

  /** While failures in a row are fewer than the threshold, a healthy provider is reached: the request is
      sent once and its reply returned. */
  lemma HealthyProviderIsReached(p: RetryPolicy, c: C.Config, events: seq<C.Event>, call: Call,
                                 checked: seq<C.Event>, rounds: int -> Round)
    requires C.Streak(events) < c.threshold && p.maxAttempts >= 1
    requires TokenFor(rounds(1).limiter).0.Proceed? && Succeeds(rounds(1).reply)
    requires !CachedReply(call)
    ensures var verdict := C.CheckVerdict(c, C.After(c, C.EMPTY, events), call.now);
      var t := Whole(p, call, verdict, checked, rounds);
      t.outcome == Returned(rounds(1).reply.status) && t.sent == 1
  {
    hide TokenFor, Report, DelayFor;
    C.FewFailuresPass(c, events, call.now);
  }

  // ----- alone on the bucket -----------------------------------------------------------------

  /** A caller alone on a bucket large enough for its cost needs at most one sleep: after the
      pause for a denied call the token is there. */
  lemma OneSleepSuffices(c: B.Config, s: Option<B.Record>, now: real, cost: nat)
    requires c.Valid() && B.Sound(c, s, now) && cost <= c.capacity
    ensures var first := B.Answer(c, B.Level(c, s, now), cost);
      var again := now + Pause(first.wait);
      !first.allowed ==>
        B.Answer(c, B.Level(c, B.Stored(c, s, B.Call(now, cost)), again), cost).allowed
  {
    var first := B.Answer(c, B.Level(c, s, now), cost);
    if !first.allowed {
      B.WaitIsExact(c, s, now, cost, now + Pause(first.wait));
    }
  }

  /** What the bucket answers a lone caller that sleeps as it is told and asks again. */
  function Lone(c: B.Config, s: Option<B.Record>, now: real, cost: nat, k: nat): Grant
    requires c.Valid()
    decreases k
  {
    var answer := B.Answer(c, B.Level(c, s, now), cost);
    if k > 0 then
      Lone(c, B.Stored(c, s, B.Call(now, cost)), now + (if answer.allowed then 0.0 else Pause(answer.wait)), cost, k - 1)
    else if answer.allowed then Allowed
    else Denied(answer.wait)
  }

  /** On its own bucket a caller gets its token at once, or after exactly one pause, or is told to
      come back later without sleeping at all. */
  lemma LoneCallerWaitsOnce(c: B.Config, s: Option<B.Record>, now: real, cost: nat)
    requires c.Valid() && B.Sound(c, s, now) && cost <= c.capacity
    ensures var first := B.Answer(c, B.Level(c, s, now), cost);
      TokenFor((k: nat) => Lone(c, s, now, cost, k)) ==
        if first.allowed then (Proceed, 0.0)
        else if Pause(first.wait) > MAX_BUCKET_WAIT then (RateLimited(Pause(first.wait)), 0.0)
        else (Proceed, Pause(first.wait))
  {
    hide B.Level, B.Stored, B.Sound;
    var limiter := (k: nat) => Lone(c, s, now, cost, k);
    var first := B.Answer(c, B.Level(c, s, now), cost);
    if !first.allowed {
      OneSleepSuffices(c, s, now, cost);
      var again := now + Pause(first.wait);
      var s' := B.Stored(c, s, B.Call(now, cost));
      assert limiter(0) == Denied(first.wait);
      assert limiter(1) == Lone(c, s', again, cost, 0) == Allowed;
      if Pause(first.wait) <= MAX_BUCKET_WAIT {
        assert Awaited(limiter, 1, Pause(first.wait)) == (Proceed, Pause(first.wait));
      }
    }
  }
}
