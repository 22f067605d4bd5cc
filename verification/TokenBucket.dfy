/**
 The outbound token bucket.  Its state is one stored record with an expiry; time is the caller's
 clock, which never runs backwards, and token amounts are real numbers.
 */
module TokenBuckets {
  import opened Basics

  datatype Config = Config(capacity: nat, refill: real) {
    ghost predicate Valid() {
      refill > 0.0
    }
  }

  datatype Record = Record(tokens: real, ts: real, expiresAt: real)

  datatype Reply = Reply(allowed: bool, wait: real)

  datatype Call = Call(now: real, cost: nat)

  function Ceil(x: real): (r: int)
    ensures x <= r as real < x + 1.0
  {
    -((-x).Floor)
  }

  /** Seconds a record is kept after a call. */
  function Ttl(c: Config): int
    requires c.Valid()
  {
    Ceil(c.capacity as real / c.refill) + 60
  }

  /** What a read at `now` finds: an expired record is gone. */
  function Read(s: Option<Record>, now: real): Option<Record> {
    if s.Some? && now < s.value.expiresAt then s else None
  }

  function Level(c: Config, s: Option<Record>, now: real): real {
    match Read(s, now)
    case None => c.capacity as real
    case Some(r) => MinReal(c.capacity as real, r.tokens + MaxReal(0.0, now - r.ts) * c.refill)
  }

  function Answer(c: Config, level: real, cost: nat): Reply
    requires c.Valid()
  {
    if level >= cost as real then Reply(true, 0.0)
    else Reply(false, (cost as real - level) / c.refill)
  }

  function Spend(level: real, cost: nat): real {
    if level >= cost as real then level - cost as real else level
  }

  function Stored(c: Config, s: Option<Record>, call: Call): Option<Record>
    requires c.Valid()
  {
    Some(Record(Spend(Level(c, s, call.now), call.cost), call.now, call.now + Ttl(c) as real))
  }

  class TokenBucket {
    const config: Config
    var record: Option<Record>

    constructor (capacity: nat, refill: real)
      ensures config == Config(capacity, refill) && record == None
    {
      config := Config(capacity, refill);
      record := None;
    }

    method Acquire(now: real, cost: nat) returns (reply: Reply)
      requires config.Valid()
      modifies this`record
      ensures reply == Answer(config, Level(config, old(record), now), cost)
      ensures record == Stored(config, old(record), Call(now, cost))
    {
      var capacity := config.capacity as real;
      var tokens, ts := capacity, now;
      if record.Some? && now < record.value.expiresAt {
        tokens, ts := record.value.tokens, record.value.ts;
      }
      var elapsed := MaxReal(0.0, now - ts);
      tokens := MinReal(capacity, tokens + elapsed * config.refill);
      var allowed, wait := false, 0.0;
      if tokens >= cost as real {
        tokens := tokens - cost as real;
        allowed := true;
      } else {
        wait := (cost as real - tokens) / config.refill;
      }
      record := Some(Record(tokens, now, now + Ttl(config) as real));
      reply := Reply(allowed, wait);
    }
  }

  // ----- runs -------------------------------------------------------------------

  ghost predicate Ordered(calls: seq<Call>) {
    forall i, j :: 0 <= i < j < |calls| ==> calls[i].now <= calls[j].now
  }

  ghost predicate Within(calls: seq<Call>, opens: real, closes: real) {
    forall i :: 0 <= i < |calls| ==> opens <= calls[i].now <= closes
  }

  lemma TailWithin(calls: seq<Call>, opens: real, closes: real)
    requires calls != [] && Ordered(calls) && Within(calls, opens, closes)
    ensures opens <= calls[0].now <= closes
    ensures Ordered(calls[1..]) && Within(calls[1..], calls[0].now, closes)
  {
  }

  ghost predicate NotBefore(calls: seq<Call>, now: real) {
    forall i :: 0 <= i < |calls| ==> now <= calls[i].now
  }

  lemma TailNotBefore(calls: seq<Call>, now: real)
    requires calls != [] && Ordered(calls) && NotBefore(calls, now)
    ensures now <= calls[0].now
    ensures Ordered(calls[1..]) && NotBefore(calls[1..], calls[0].now)
  {
  }

  function After(c: Config, s: Option<Record>, calls: seq<Call>): Option<Record>
    requires c.Valid()
    decreases |calls|
  {
    if calls == [] then s else After(c, Stored(c, s, calls[0]), calls[1..])
  }

  function Answers(c: Config, s: Option<Record>, calls: seq<Call>): (r: seq<Reply>)
    requires c.Valid()
    ensures |r| == |calls|
    decreases |calls|
  {
    if calls == [] then []
    else [Answer(c, Level(c, s, calls[0].now), calls[0].cost)] + Answers(c, Stored(c, s, calls[0]), calls[1..])
  }

  /** Total cost of the calls that were let through. */
  function Admitted(c: Config, s: Option<Record>, calls: seq<Call>): nat
    requires c.Valid()
    decreases |calls|
  {
    if calls == [] then 0
    else (if Answer(c, Level(c, s, calls[0].now), calls[0].cost).allowed then calls[0].cost else 0)
         + Admitted(c, Stored(c, s, calls[0]), calls[1..])
  }

  /** A record some call could have left behind, no later than `now`. */
  ghost predicate Sound(c: Config, s: Option<Record>, now: real)
    requires c.Valid()
  {
    s.Some? ==>
      && 0.0 <= s.value.tokens <= c.capacity as real
      && s.value.ts <= now
      && s.value.expiresAt == s.value.ts + Ttl(c) as real
  }

  lemma LevelInRange(c: Config, s: Option<Record>, now: real)
    requires c.Valid() && Sound(c, s, now)
    ensures 0.0 <= Level(c, s, now) <= c.capacity as real
  {
    if s.Some? {
      ProductNotNegative(now - s.value.ts, c.refill);
    }
  }

  /** The bucket fills at the refill rate and never faster, whether or not its record expired. */
  lemma LevelGrowsAtRefill(c: Config, s: Option<Record>, now: real, later: real)
    requires c.Valid() && Sound(c, s, now) && now <= later
    ensures Sound(c, s, later)
    ensures Level(c, s, later) == MinReal(c.capacity as real, Level(c, s, now) + c.refill * (later - now))
  {
    ExpiryUnseen(c, s, now);
    ExpiryUnseen(c, s, later);
    ProductNotNegative(c.refill, later - now);
    if s.Some? {
      var t := s.value.ts;
      assert (later - t) * c.refill == (now - t) * c.refill + c.refill * (later - now);
    }
  }

  /** The level a store that never forgets would compute. */
  function EternalLevel(c: Config, s: Option<Record>, now: real): real {
    if s.None? then c.capacity as real
    else MinReal(c.capacity as real, s.value.tokens + MaxReal(0.0, now - s.value.ts) * c.refill)
  }

  lemma ExpiryUnseen(c: Config, s: Option<Record>, now: real)
    requires c.Valid() && Sound(c, s, now)
    ensures Level(c, s, now) == EternalLevel(c, s, now)
  {
    if s.Some? && now >= s.value.expiresAt {
      var full := c.capacity as real / c.refill;
      assert now - s.value.ts >= full;
      assert (now - s.value.ts) * c.refill >= full * c.refill == c.capacity as real;
    }
  }

  /** A call leaves a sound record behind, holding what it did not spend. */
  lemma StoredLevel(c: Config, s: Option<Record>, k: Call)
    requires c.Valid() && Sound(c, s, k.now)
    ensures Sound(c, Stored(c, s, k), k.now)
    ensures Level(c, Stored(c, s, k), k.now) == Spend(Level(c, s, k.now), k.cost)
  {
    LevelInRange(c, s, k.now);
    assert c.capacity as real / c.refill >= 0.0;
  }

  // ----- the window bound -----------------------------------------------------------

  /** What the refill rate yields over a stretch of time. */
  function Gain(c: Config, opens: real, closes: real): real {
    c.refill * (closes - opens)
  }

  lemma {:induction false} AdmittedFromLevel(c: Config, s: Option<Record>, calls: seq<Call>, opens: real, closes: real)
    requires c.Valid() && Ordered(calls) && Sound(c, s, opens) && opens <= closes
    requires Within(calls, opens, closes)
    ensures Admitted(c, s, calls) as real <= Level(c, s, opens) + Gain(c, opens, closes)
    decreases |calls|
  {
    hide Level, Sound, Ttl, Stored, Ordered, Within, Gain;
    LevelInRange(c, s, opens);
    if calls == [] {
      GainNotNegative(c, opens, closes);
    } else {
      var k := calls[0];
      TailWithin(calls, opens, closes);
      RefillSplits(c, s, opens, k.now, closes);
      StoredLevel(c, s, k);
      AdmittedFromLevel(c, Stored(c, s, k), calls[1..], k.now, closes);
    }
  }

  lemma GainNotNegative(c: Config, opens: real, closes: real)
    requires c.Valid() && opens <= closes
    ensures Gain(c, opens, closes) >= 0.0
  {
  }

  lemma RefillSplits(c: Config, s: Option<Record>, opens: real, mid: real, closes: real)
    requires c.Valid() && Sound(c, s, opens) && opens <= mid <= closes
    ensures Sound(c, s, mid)
    ensures Level(c, s, mid) + Gain(c, mid, closes) <= Level(c, s, opens) + Gain(c, opens, closes)
  {
    hide Level, Sound;
    LevelGrowsAtRefill(c, s, opens, mid);
    assert c.refill * (closes - opens) == c.refill * (closes - mid) + c.refill * (mid - opens);
  }

  lemma {:induction false} SoundAfter(c: Config, s: Option<Record>, calls: seq<Call>, opens: real, closes: real)
    requires c.Valid() && Ordered(calls) && Sound(c, s, opens) && opens <= closes
    requires Within(calls, opens, closes)
    ensures Sound(c, After(c, s, calls), closes)
    decreases |calls|
  {
    hide Level, Ttl, Stored;
    if calls != [] {
      TailWithin(calls, opens, closes);
      LevelGrowsAtRefill(c, s, opens, calls[0].now);
      StoredLevel(c, s, calls[0]);
      SoundAfter(c, Stored(c, s, calls[0]), calls[1..], calls[0].now, closes);
    }
  }

  lemma SoundBefore(c: Config, before: seq<Call>, opens: real)
    requires c.Valid() && Ordered(before)
    requires forall i :: 0 <= i < |before| ==> before[i].now <= opens
    ensures Sound(c, After(c, None, before), opens)
  {
    hide Level, Ttl, Stored;
    if before != [] {
      SoundAfter(c, None, before, before[0].now, opens);
    }
  }

  /** In any stretch `during` of any run, the cost let through is at most the capacity plus what
      the refill rate yields over the stretch. */
  lemma WindowBound(c: Config, before: seq<Call>, during: seq<Call>, opens: real, closes: real)
    requires c.Valid() && Ordered(before) && Ordered(during) && opens <= closes
    requires forall i :: 0 <= i < |before| ==> before[i].now <= opens
    requires Within(during, opens, closes)
    ensures Admitted(c, After(c, None, before), during) as real
              <= c.capacity as real + c.refill * (closes - opens)
  {
    hide Level, Sound, Ttl, Admitted, After, Ordered, Within;
    SoundBefore(c, before, opens);
    var s := After(c, None, before);
    LevelInRange(c, s, opens);
    AdmittedFromLevel(c, s, during, opens, closes);
  }

  // ----- the bound is reached ---------------------------------------------------------

  function Burst(n: nat): seq<Call> {
    seq(n, i => Call(0.0, 1))
  }

  /** Calls `first + 1` to `last` of a caller that asks once per refilled token. */
  function Drip(c: Config, first: nat, last: nat): seq<Call>
    requires c.Valid() && first <= last
  {
    seq(last - first, i requires 0 <= i => Call(TokenTime(c, first + 1 + i), 1))
  }

  lemma {:induction false} BurstDrains(c: Config, s: Option<Record>, n: nat, rest: seq<Call>)
    returns (drained: Option<Record>)
    requires c.Valid() && Sound(c, s, 0.0) && Level(c, s, 0.0) == n as real
    ensures Sound(c, drained, 0.0) && Level(c, drained, 0.0) == 0.0
    ensures Admitted(c, s, Burst(n) + rest) == n + Admitted(c, drained, rest)
    decreases n
  {
    hide Level, Sound, Ttl, Stored;
    if n == 0 {
      assert Burst(0) + rest == rest;
      drained := s;
    } else {
      var k := Call(0.0, 1);
      StoredLevel(c, s, k);
      assert (Burst(n) + rest)[0] == k && (Burst(n) + rest)[1..] == Burst(n - 1) + rest;
      drained := BurstDrains(c, Stored(c, s, k), n - 1, rest);
    }
  }

  /** When the `n`-th token has been refilled after the bucket ran dry. */
  function TokenTime(c: Config, n: nat): real
    requires c.Valid()
  {
    n as real / c.refill
  }

  lemma TokenTimes(c: Config, m: nat, n: nat)
    requires c.Valid() && m <= n
    ensures 0.0 <= TokenTime(c, m) <= TokenTime(c, n)
    ensures c.refill * (TokenTime(c, n) - TokenTime(c, m)) == (n - m) as real
  {
    assert c.refill * TokenTime(c, m) == m as real;
    assert c.refill * TokenTime(c, n) == n as real;
  }

  lemma {:induction false} DripFlows(c: Config, s: Option<Record>, first: nat, last: nat)
    requires c.Valid() && first <= last && c.capacity >= 1
    requires Sound(c, s, TokenTime(c, first)) && Level(c, s, TokenTime(c, first)) == 0.0
    ensures Admitted(c, s, Drip(c, first, last)) == last - first
    decreases last - first
  {
    hide Level, Sound, Ttl, Stored, TokenTime;
    if first < last {
      var calls := Drip(c, first, last);
      assert calls[0] == Call(TokenTime(c, first + 1), 1);
      assert calls[1..] == Drip(c, first + 1, last);
      TokenTimes(c, first, first + 1);
      LevelGrowsAtRefill(c, s, TokenTime(c, first), TokenTime(c, first + 1));
      StoredLevel(c, s, calls[0]);
      DripFlows(c, Stored(c, s, calls[0]), first + 1, last);
    }
  }

  /** The largest number of unit-cost calls a window of the given length can let through. */
  function MostPerWindow(c: Config, length: real): int {
    (c.capacity as real + c.refill * length).Floor
  }

  /** Tokens refilled within the window. */
  function Refilled(c: Config, length: real): nat
    requires c.Valid() && length >= 0.0
  {
    assert c.refill * length >= 0.0;
    (c.refill * length).Floor
  }

  function Busiest(c: Config, length: real): seq<Call>
    requires c.Valid() && length >= 0.0
  {
    Burst(c.capacity) + Drip(c, 0, Refilled(c, length))
  }

  lemma BusiestFits(c: Config, length: real)
    requires c.Valid() && length >= 0.0
    ensures Ordered(Busiest(c, length)) && Within(Busiest(c, length), 0.0, length)
  {
    hide TokenTime, Refilled;
    var calls, n := Busiest(c, length), Refilled(c, length);
    assert TokenTime(c, n) <= length by {
      LastTokenWithin(c, length);
    }
    forall i, j | 0 <= i <= j < |calls|
      ensures 0.0 <= calls[i].now <= calls[j].now <= length
    {
      var tokensAtI := if i < c.capacity then 0 else i - c.capacity + 1;
      var tokensAtJ := if j < c.capacity then 0 else j - c.capacity + 1;
      TokenTimes(c, 0, tokensAtI);
      TokenTimes(c, tokensAtI, tokensAtJ);
      TokenTimes(c, tokensAtJ, n);
    }
  }

  lemma LastTokenWithin(c: Config, length: real)
    requires c.Valid() && length >= 0.0
    ensures TokenTime(c, Refilled(c, length)) <= length
  {
    TokenTimes(c, 0, Refilled(c, length));
    var t := TokenTime(c, Refilled(c, length));
    if t > length {
      assert c.refill * t > c.refill * length;
    }
  }

  lemma BusiestReachesBound(c: Config, length: real)
    requires c.Valid() && length >= 0.0 && c.capacity >= 1
    ensures Admitted(c, None, Busiest(c, length)) == MostPerWindow(c, length)
  {
    var drained := BurstDrains(c, None, c.capacity, Drip(c, 0, Refilled(c, length)));
    TokenTimes(c, 0, 0);
    DripFlows(c, drained, 0, Refilled(c, length));
  }

  /** A run up to `opens`, and the calls of the window that follows. */
  ghost predicate Window(before: seq<Call>, during: seq<Call>, opens: real, length: real) {
    && Ordered(before) && Ordered(during)
    && (forall i :: 0 <= i < |before| ==> before[i].now <= opens)
    && Within(during, opens, opens + length)
  }

  ghost predicate NeverExceeds(c: Config, length: real, limit: int)
    requires c.Valid() && length >= 0.0
  {
    forall before: seq<Call>, during: seq<Call>, opens: real :: Window(before, during, opens, length)
      ==> Admitted(c, After(c, None, before), during) <= limit
  }

  lemma WindowCount(c: Config, before: seq<Call>, during: seq<Call>, opens: real, length: real)
    requires c.Valid() && length >= 0.0 && Window(before, during, opens, length)
    ensures Admitted(c, After(c, None, before), during) <= MostPerWindow(c, length)
  {
    hide Admitted, After, Level;
    WindowBound(c, before, during, opens, opens + length);
    assert (opens + length) - opens == length;
  }

  /** A published allowance of `limit` calls per window is kept by every caller exactly when the
      capacity plus one window's refill stays within it. */
  lemma AllowanceKeptIff(c: Config, length: real, limit: int)
    requires c.Valid() && length >= 0.0 && c.capacity >= 1
    ensures NeverExceeds(c, length, limit) <==> MostPerWindow(c, length) <= limit
  {
    hide Admitted, MostPerWindow, Within, Ordered, Busiest;
    forall before: seq<Call>, during: seq<Call>, opens: real | Window(before, during, opens, length)
      ensures Admitted(c, After(c, None, before), during) <= MostPerWindow(c, length)
    {
      WindowCount(c, before, during, opens, length);
    }
    BusiestFits(c, length);
    BusiestReachesBound(c, length);
    NoCallsOrdered();
    assert 0.0 + length == length;
    assert Window([], Busiest(c, length), 0.0, length);
  }

  lemma NoCallsOrdered()
    ensures Ordered([])
  {
  }

  /** How the NVD client sizes its bucket from an allowance per 30 seconds. */
  function NvdConfig(per30s: nat): Config {
    Config(Max(per30s - 1, 1), per30s as real / 30.0)
  }

  /** The NVD sizing lets up to `2 * per30s - 1` calls through in 30 seconds (two for an allowance
      of one), so it never keeps the published allowance of `per30s` itself. */
  lemma NvdWindow(per30s: nat, limit: int)
    requires per30s >= 1
    ensures NvdConfig(per30s).Valid()
    ensures NeverExceeds(NvdConfig(per30s), 30.0, limit) <==> Max(2 * per30s - 1, 2) <= limit
    ensures !NeverExceeds(NvdConfig(per30s), 30.0, per30s)
  {
    var c := NvdConfig(per30s);
    assert c.refill * 30.0 == per30s as real;
    assert c.capacity as real + c.refill * 30.0 == Max(2 * per30s - 1, 2) as real;
    AllowanceKeptIff(c, 30.0, limit);
    AllowanceKeptIff(c, 30.0, per30s);
  }

  // ----- forgetting and denying are unobservable ------------------------------------------

  /** Two stores that no call from `now` on can tell apart. */
  ghost predicate Alike(c: Config, s: Option<Record>, t: Option<Record>, now: real)
    requires c.Valid()
  {
    Sound(c, s, now) && Sound(c, t, now) && Level(c, s, now) == Level(c, t, now)
  }

  lemma AlikeStep(c: Config, s: Option<Record>, t: Option<Record>, k: Call, now: real)
    requires c.Valid() && Alike(c, s, t, now) && now <= k.now
    ensures Level(c, s, k.now) == Level(c, t, k.now)
    ensures Alike(c, Stored(c, s, k), Stored(c, t, k), k.now)
  {
    hide Level, Sound, Ttl, Stored;
    var gain := c.refill * (k.now - now);
    LevelGrowsAtRefill(c, s, now, k.now);
    LevelGrowsAtRefill(c, t, now, k.now);
    assert Level(c, s, now) == Level(c, t, now);
    assert Level(c, s, k.now) == MinReal(c.capacity as real, Level(c, s, now) + gain);
    assert Level(c, t, k.now) == MinReal(c.capacity as real, Level(c, t, now) + gain);
    assert Level(c, s, k.now) == Level(c, t, k.now);
    StoredLevel(c, s, k);
    StoredLevel(c, t, k);
  }

  lemma {:induction false} AlikeAnswerAlike(
      c: Config, s: Option<Record>, t: Option<Record>, calls: seq<Call>, now: real)
    requires c.Valid() && Ordered(calls) && Alike(c, s, t, now)
    requires NotBefore(calls, now)
    ensures Answers(c, s, calls) == Answers(c, t, calls)
    ensures Admitted(c, s, calls) == Admitted(c, t, calls)
    decreases |calls|
  {
    hide Level, Answer, Alike, Ttl, Stored, Ordered, NotBefore;
    if calls != [] {
      var k := calls[0];
      TailNotBefore(calls, now);
      AlikeStep(c, s, t, k, now);
      AlikeAnswerAlike(c, Stored(c, s, k), Stored(c, t, k), calls[1..], k.now);
    }
  }

  /** What a bucket answers when its store never drops a record. */
  function EternalAnswers(c: Config, s: Option<Record>, calls: seq<Call>): (r: seq<Reply>)
    requires c.Valid()
    decreases |calls|
  {
    if calls == [] then []
    else
      var k := calls[0];
      var level := EternalLevel(c, s, k.now);
      [Answer(c, level, k.cost)]
      + EternalAnswers(c, Some(Record(Spend(level, k.cost), k.now, k.now + Ttl(c) as real)), calls[1..])
  }

  lemma {:induction false} ForgettingIsUnobservable(c: Config, s: Option<Record>, calls: seq<Call>, now: real)
    requires c.Valid() && Ordered(calls) && Sound(c, s, now)
    requires NotBefore(calls, now)
    ensures Answers(c, s, calls) == EternalAnswers(c, s, calls)
    decreases |calls|
  {
    hide Level, EternalLevel, Answer, Ttl, Ordered, NotBefore;
    if calls != [] {
      var k := calls[0];
      TailNotBefore(calls, now);
      ExpiryUnseen(c, s, k.now);
      StoredLevel(c, s, k);
      ForgettingIsUnobservable(c, Stored(c, s, k), calls[1..], k.now);
    }
  }

  /** A call that is denied changes no later answer: dropping it from the run is unobservable. */
  lemma DeniedCallLeavesNoTrace(c: Config, s: Option<Record>, denied: Call, rest: seq<Call>)
    requires c.Valid() && Sound(c, s, denied.now) && Ordered([denied] + rest)
    requires !Answer(c, Level(c, s, denied.now), denied.cost).allowed
    ensures Answers(c, s, [denied] + rest)[1..] == Answers(c, s, rest)
  {
    var calls := [denied] + rest;
    assert calls[1..] == rest;
    assert NotBefore(rest, denied.now) by {
      forall i | 0 <= i < |rest| ensures denied.now <= rest[i].now {
        assert calls[i + 1] == rest[i] && calls[0] == denied;
      }
    }
    assert Ordered(rest) by {
      forall i, j | 0 <= i < j < |rest| ensures rest[i].now <= rest[j].now {
        assert calls[i + 1] == rest[i] && calls[j + 1] == rest[j];
      }
    }
    StoredLevel(c, s, denied);
    AlikeAnswerAlike(c, Stored(c, s, denied), s, rest, denied.now);
  }

  // ----- the returned wait is exact --------------------------------------------------------

  /** A caller that was denied at `now` and is alone on the bucket is let through from `now + wait`
      on, and not a moment earlier. */
  lemma WaitIsExact(c: Config, s: Option<Record>, now: real, cost: nat, later: real)
    requires c.Valid() && Sound(c, s, now) && now <= later && cost <= c.capacity
    requires !Answer(c, Level(c, s, now), cost).allowed
    ensures var s' := Stored(c, s, Call(now, cost));
      Answer(c, Level(c, s', later), cost).allowed <==> later >= now + Answer(c, Level(c, s, now), cost).wait
  {
    hide Level, Ttl, Stored, Sound;
    var s' := Stored(c, s, Call(now, cost));
    var level := Level(c, s, now);
    var wait := (cost as real - level) / c.refill;
    StoredLevel(c, s, Call(now, cost));
    LevelGrowsAtRefill(c, s', now, later);
    assert wait * c.refill == cost as real - level;
    if later >= now + wait {
      assert c.refill * (later - now) >= c.refill * wait;
    } else {
      assert c.refill * (later - now) < c.refill * wait;
    }
  }

  /** A cost above the capacity is never let through, however long the caller waits. */
  lemma OversizedCostNeverAdmitted(c: Config, s: Option<Record>, now: real, cost: nat)
    requires c.Valid() && Sound(c, s, now)
    ensures (exists later :: later >= now && Answer(c, Level(c, s, later), cost).allowed) <==> cost <= c.capacity
  {
    if cost <= c.capacity {
      var later := if Answer(c, Level(c, s, now), cost).allowed then now
                   else now + Answer(c, Level(c, s, now), cost).wait;
      var wait := later - now;
      if later != now {
        LevelInRange(c, s, now);
        assert wait * c.refill == cost as real - Level(c, s, now);
        assert wait >= 0.0;
        LevelGrowsAtRefill(c, s, now, later);
      }
      assert later >= now && Answer(c, Level(c, s, later), cost).allowed;
    } else {
      forall later: real | later >= now
        ensures !Answer(c, Level(c, s, later), cost).allowed
      {
        LevelInRange(c, s, later);
      }
    }
  }

  /** A record outlives the call that left it by a minute and the time the bucket takes to fill, rounded
      up to whole seconds, and is gone from then on. */
  lemma RecordLives(c: Config, s: Option<Record>, call: Call, later: real)
    requires c.Valid()
    ensures var fill := c.capacity as real / c.refill;
      && (later < call.now + fill + 60.0 ==> Read(Stored(c, s, call), later).Some?)
      && (later >= call.now + fill + 61.0 ==> Read(Stored(c, s, call), later).None?)
      && (fill == fill.Floor as real ==>
           (Read(Stored(c, s, call), later).Some? <==> later < call.now + fill + 60.0))
  {
    hide Level, Spend, Ttl;
    TtlIs(c, c.capacity as real / c.refill);
  }

  lemma TtlIs(c: Config, fill: real)
    requires c.Valid() && fill == c.capacity as real / c.refill
    ensures fill + 60.0 <= Ttl(c) as real < fill + 61.0
    ensures fill == fill.Floor as real ==> Ttl(c) as real == fill + 60.0
  {
    hide Ceil;
    CeilIs(fill);
  }

  lemma CeilIs(x: real)
    ensures x <= Ceil(x) as real < x + 1.0
    ensures x == x.Floor as real ==> Ceil(x) as real == x
  {
    if x == x.Floor as real {
      assert Ceil(x) < x.Floor + 1;
    }
  }

  /** Who is let through need not wait, and who is not must. */
  lemma WaitsIffDenied(c: Config, level: real, cost: nat)
    requires c.Valid()
    ensures Answer(c, level, cost).allowed <==> cost as real <= level
    ensures Answer(c, level, cost).allowed <==> Answer(c, level, cost).wait == 0.0
    ensures !Answer(c, level, cost).allowed <==> Answer(c, level, cost).wait > 0.0
  {
    if level < cost as real {
      QuotientPositive(cost as real - level, c.refill);
    }
  }

  lemma QuotientPositive(a: real, b: real)
    requires a > 0.0 && b > 0.0
    ensures a / b > 0.0
  {
  }
}
