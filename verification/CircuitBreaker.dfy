/**
 The circuit breaker as three keys with expiry times in a shared store: a failure counter, the
 time the circuit opened, and the claim on the half-open probe.
 */
module CircuitBreakers {
  import opened Basics

  datatype Config = Config(threshold: nat, cooldown: nat, window: nat) {
    predicate Valid() {
      cooldown >= 1 && window >= 1
    }

    function ProbeTtl(): nat {
      Max(cooldown, 5)
    }
  }

  datatype Counter = Counter(count: nat, expiresAt: real)
  datatype Opened = Opened(at: real, expiresAt: real)

  datatype Store = Store(failures: Option<Counter>, open: Option<Opened>, probe: Option<real>)

  const EMPTY := Store(None, None, None)

  datatype State = Closed | Open(reopensIn: real) | HalfOpen

  datatype Verdict = Passed | Probing | Refused

  function FailureCount(s: Store, now: real): nat {
    if s.failures.Some? && now < s.failures.value.expiresAt then s.failures.value.count else 0
  }

  predicate ProbeClaimed(s: Store, now: real) {
    s.probe.Some? && now < s.probe.value
  }

  function Status(c: Config, s: Store, now: real): State {
    if s.open.None? || now >= s.open.value.expiresAt then Closed
    else
      var elapsed := now - s.open.value.at;
      if elapsed >= c.cooldown as real then HalfOpen else Open(c.cooldown as real - elapsed)
  }

  function CheckVerdict(c: Config, s: Store, now: real): Verdict {
    match Status(c, s, now)
    case Closed => Passed
    case Open(_) => Refused
    case HalfOpen => if ProbeClaimed(s, now) then Refused else Probing
  }

  function AfterCheck(c: Config, s: Store, now: real): Store {
    if CheckVerdict(c, s, now) == Probing then s.(probe := Some(now + c.ProbeTtl() as real)) else s
  }

  function AfterFailure(c: Config, s: Store, now: real): Store {
    var n := FailureCount(s, now) + 1;
    var counted := s.(failures := Some(Counter(n, now + c.window as real)));
    if n >= c.threshold then
      counted.(open := Some(Opened(now, now + (4 * c.cooldown) as real)), probe := None)
    else counted
  }

  /** The breaker's methods; `up` says whether the store answers.  With the store down every
      call passes and nothing is recorded. */
  class CircuitBreaker {
    const config: Config
    var failures: Option<Counter>
    var open: Option<Opened>
    var probe: Option<real>

    constructor (config: Config)
      ensures this.config == config && Keys() == EMPTY
    {
      this.config := config;
      failures, open, probe := None, None, None;
    }

    function Keys(): Store
      reads this
    {
      Store(failures, open, probe)
    }

    method GetStatus(now: real, up: bool) returns (state: State, count: nat)
      ensures state == if up then Status(config, Keys(), now) else Closed
      ensures count == if up then FailureCount(Keys(), now) else 0
    {
      if !up {
        return Closed, 0;
      }
      count := 0;
      if failures.Some? && now < failures.value.expiresAt {
        count := failures.value.count;
      }
      if open.None? || now >= open.value.expiresAt {
        return Closed, count;
      }
      var elapsed := now - open.value.at;
      if elapsed >= config.cooldown as real {
        return HalfOpen, count;
      }
      state := Open(config.cooldown as real - elapsed);
    }

    method Check(now: real, up: bool) returns (v: Verdict)
      modifies this`probe
      ensures v == if up then CheckVerdict(config, old(Keys()), now) else Passed
      ensures Keys() == if up then AfterCheck(config, old(Keys()), now) else old(Keys())
    {
      var state, _ := GetStatus(now, up);
      match state
      case Closed => v := Passed;
      case Open(_) => v := Refused;
      case HalfOpen =>
        if probe.Some? && now < probe.value {
          v := Refused;
        } else {
          probe := Some(now + config.ProbeTtl() as real);
          v := Probing;
        }
    }

    method RecordSuccess(up: bool)
      modifies this
      ensures Keys() == if up then EMPTY else old(Keys())
    {
      if up {
        failures, open, probe := None, None, None;
      }
    }

    method RecordFailure(now: real, up: bool)
      modifies this
      ensures Keys() == if up then AfterFailure(config, old(Keys()), now) else old(Keys())
    {
      if !up {
        return;
      }
      var n := 1;
      if failures.Some? && now < failures.value.expiresAt {
        n := failures.value.count + 1;
      }
      failures := Some(Counter(n, now + config.window as real));
      if n >= config.threshold {
        open := Some(Opened(now, now + (config.cooldown * 4) as real));
        probe := None;
      }
    }

    /** What other processes do to the shared keys meanwhile, one whole call after the other. */
    method OthersAct(events: seq<Event>)
      modifies this
      ensures Keys() == After(config, old(Keys()), events)
    {
      assert events[..0] == [];
      for i := 0 to |events|
        invariant Keys() == After(config, old(Keys()), events[..i])
      {
        var e := events[i];
        assert events[..i + 1] == events[..i] + [e];
        AfterSnoc(config, old(Keys()), events[..i], e);
        match e.kind
        case Checked => var _ := Check(e.now, e.up);
        case Failed => RecordFailure(e.now, e.up);
        case Succeeded => RecordSuccess(e.up);
      }
      assert events[..|events|] == events;
    }

    method Reset(up: bool)
      modifies this
      ensures Keys() == if up then EMPTY else old(Keys())
    {
      RecordSuccess(up);
    }
  }

  // ----- runs of whole operations ---------------------------------------------------

  datatype Kind = Checked | Failed | Succeeded

  datatype Event = Event(kind: Kind, now: real, up: bool)

  function AfterEvent(c: Config, s: Store, e: Event): Store {
    if !e.up then s
    else match e.kind
      case Checked => AfterCheck(c, s, e.now)
      case Failed => AfterFailure(c, s, e.now)
      case Succeeded => EMPTY
  }

  function After(c: Config, s: Store, events: seq<Event>): Store
    decreases |events|
  {
    if events == [] then s else After(c, AfterEvent(c, s, events[0]), events[1..])
  }

  lemma AfterNone(c: Config, s: Store)
    ensures After(c, s, []) == s
  {
  }

  lemma AfterOne(c: Config, s: Store, e: Event)
    ensures After(c, s, [e]) == AfterEvent(c, s, e)
  {
    assert After(c, AfterEvent(c, s, e), []) == AfterEvent(c, s, e);
  }

  lemma {:induction false} AfterConcat(c: Config, s: Store, a: seq<Event>, b: seq<Event>)
    ensures After(c, s, a + b) == After(c, After(c, s, a), b)
    decreases |a|
  {
    if a == [] {
      assert a + b == b;
    } else {
      assert (a + b)[0] == a[0] && (a + b)[1..] == a[1..] + b;
      AfterConcat(c, AfterEvent(c, s, a[0]), a[1..], b);
    }
  }

  lemma AfterSnoc(c: Config, s: Store, events: seq<Event>, e: Event)
    ensures After(c, s, events + [e]) == AfterEvent(c, After(c, s, events), e)
  {
    AfterConcat(c, s, events, [e]);
    AfterOne(c, After(c, s, events), e);
  }

  /** Times never run backwards, and none lies before `start`. */
  ghost predicate Ordered(events: seq<Event>, start: real)
    decreases |events|
  {
    events == [] || (start <= events[0].now && Ordered(events[1..], events[0].now))
  }

  /** The open key as a trip at `o` or a later one left it. */
  ghost predicate TrippedSince(c: Config, s: Store, o: real, now: real) {
    s.open.Some? && o <= s.open.value.at <= now
    && s.open.value.expiresAt == s.open.value.at + (4 * c.cooldown) as real
  }

  /** A trip at `o` refuses every check of the next `cooldown` seconds, whatever failures arrive
      meanwhile, unless a success is recorded or the store cannot be reached. */
  lemma {:induction false} OpenRefusesForCooldown(c: Config, s: Store, o: real, now: real, events: seq<Event>, k: nat)
    requires c.Valid() && TrippedSince(c, s, o, now) && Ordered(events, now)
    requires k < |events| && events[k].now < o + c.cooldown as real
    requires forall i :: 0 <= i < k ==> events[i].kind == Succeeded ==> !events[i].up
    ensures Status(c, After(c, s, events[..k]), events[k].now).Open?
    ensures CheckVerdict(c, After(c, s, events[..k]), events[k].now) == Refused
    decreases k
  {
    if k > 0 {
      OrderedAt(events, now, 0, k);
      assert events[..k][0] == events[0] && events[..k][1..] == events[1..][..k - 1];
      var s' := AfterEvent(c, s, events[0]);
      OpenRefusesForCooldown(c, s', o, events[0].now, events[1..], k - 1);
    } else {
      assert events[..0] == [];
    }
  }

  lemma {:induction false} OrderedAt(events: seq<Event>, start: real, i: nat, j: nat)
    requires Ordered(events, start) && i <= j < |events|
    ensures start <= events[i].now <= events[j].now
    decreases |events|
  {
    if i > 0 {
      OrderedAt(events[1..], events[0].now, i - 1, j - 1);
    } else if j > 0 {
      OrderedAt(events[1..], events[0].now, 0, j - 1);
    }
  }

  /** Left without further records, a circuit tripped at `o` is open until `o + cooldown`,
      half-open until `o + 4 * cooldown` and closed from then on, whoever checks it meanwhile. */
  lemma {:induction false} TripRunsOut(c: Config, s: Store, o: real, checks: seq<Event>, now: real)
    requires c.Valid() && s.open == Some(Opened(o, o + (4 * c.cooldown) as real)) && o <= now
    requires forall i :: 0 <= i < |checks| ==> checks[i].kind == Checked
    ensures var state := Status(c, After(c, s, checks), now);
      && (state.Open? <==> now < o + c.cooldown as real)
      && (state.HalfOpen? <==> o + c.cooldown as real <= now < o + (4 * c.cooldown) as real)
      && (state.Closed? <==> o + (4 * c.cooldown) as real <= now)
    decreases |checks|
  {
    if checks != [] {
      TripRunsOut(c, AfterEvent(c, s, checks[0]), o, checks[1..], now);
    }
  }

  /** A probe admitted at `t` keeps every other check from probing until its claim runs out, unless
      an outcome is recorded; from then on a circuit still half-open admits the next. */
  lemma ProbeExcludesOthers(c: Config, s: Store, t: real, events: seq<Event>, k: nat)
    requires c.Valid() && CheckVerdict(c, s, t) == Probing && Ordered(events, t) && k < |events|
    requires forall i :: 0 <= i < k ==> events[i].kind == Checked || !events[i].up
    ensures var before := After(c, AfterCheck(c, s, t), events[..k]);
      events[k].now < t + Max(c.cooldown, 5) as real ==> CheckVerdict(c, before, events[k].now) != Probing
    ensures forall later :: later >= t + Max(c.cooldown, 5) as real && Status(c, s, later).HalfOpen?
              ==> CheckVerdict(c, AfterCheck(c, s, t), later) == Probing
  {
    if events[k].now < t + Max(c.cooldown, 5) as real {
      ClaimHolds(c, AfterCheck(c, s, t), t + Max(c.cooldown, 5) as real, t, events, k);
    }
  }

  lemma {:induction false} ClaimHolds(c: Config, s: Store, until: real, now: real, events: seq<Event>, k: nat)
    requires c.Valid() && s.probe.Some? && s.probe.value >= until && Ordered(events, now)
    requires k < |events| && events[k].now < until
    requires forall i :: 0 <= i < k ==> events[i].kind == Checked || !events[i].up
    ensures CheckVerdict(c, After(c, s, events[..k]), events[k].now) != Probing
    decreases k
  {
    if k > 0 {
      OrderedAt(events, now, 0, k);
      assert events[..k][0] == events[0] && events[..k][1..] == events[1..][..k - 1];
      ClaimHolds(c, AfterEvent(c, s, events[0]), until, events[0].now, events[1..], k - 1);
    } else {
      assert events[..0] == [];
    }
  }

  // ----- only consecutive failures count ---------------------------------------------------

  /** Failures recorded since the last recorded success. */
  function Streak(events: seq<Event>): nat
    decreases |events|
  {
    if events == [] then 0
    else
      var e, before := events[|events| - 1], Streak(events[..|events| - 1]);
      if !e.up || e.kind == Checked then before
      else if e.kind == Failed then before + 1
      else 0
  }

  /** As long as no counter can run out, the failure counter is the streak. */
  lemma {:induction false} CounterIsStreak(c: Config, events: seq<Event>, t: real, now: real)
    requires c.Valid() && now < t + c.window as real
    requires forall e <- events :: t <= e.now < t + c.window as real
    ensures FailureCount(After(c, EMPTY, events), now) == Streak(events)
    decreases |events|
  {
    if events != [] {
      var front, e := events[..|events| - 1], events[|events| - 1];
      CounterIsStreak(c, front, t, now);
      CounterIsStreak(c, front, t, e.now);
      assert events == front + [e];
      AfterSnoc(c, EMPTY, front, e);
    }
  }

  /** A circuit is open or half-open only after at least a threshold's worth of failures with no
      success among them; a recorded success wipes the slate clean. */
  lemma {:induction false} OnlyStreaksOpen(c: Config, events: seq<Event>, now: real)
    ensures var s := After(c, EMPTY, events);
      && FailureCount(s, now) <= Streak(events)
      && (s.failures.Some? ==> s.failures.value.count <= Streak(events))
      && (s.open.Some? ==> Streak(events) >= c.threshold)
      && (!Status(c, s, now).Closed? ==> Streak(events) >= c.threshold)
    decreases |events|
  {
    if events != [] {
      var front, e := events[..|events| - 1], events[|events| - 1];
      assert events == front + [e];
      AfterSnoc(c, EMPTY, front, e);
      OnlyStreaksOpen(c, front, e.now);
    }
  }

  predicate IsFailure(e: Event) {
    e.kind == Failed && e.up
  }

  predicate IsSuccess(e: Event) {
    e.kind == Succeeded && e.up
  }

  function Fails(events: seq<Event>): nat
    decreases |events|
  {
    if events == [] then 0 else (if IsFailure(events[0]) then 1 else 0) + Fails(events[1..])
  }

  /** When the last failure was recorded; `last` when there was none. */
  function LastFailure(events: seq<Event>, last: real): real
    decreases |events|
  {
    if events == [] then last
    else LastFailure(events[1..], if IsFailure(events[0]) then events[0].now else last)
  }

  /** No success, and every failure comes before the counter of the one before it expired; the failure
      before all of them was recorded at `last`. */
  ghost predicate Unbroken(c: Config, events: seq<Event>, last: real)
    decreases |events|
  {
    events == []
    || (!IsSuccess(events[0])
        && (IsFailure(events[0]) ==> last <= events[0].now < last + c.window as real)
        && Unbroken(c, events[1..], if IsFailure(events[0]) then events[0].now else last))
  }

  lemma {:induction false} UnbrokenConcat(c: Config, a: seq<Event>, b: seq<Event>, last: real)
    ensures Unbroken(c, a + b, last) <==> Unbroken(c, a, last) && Unbroken(c, b, LastFailure(a, last))
    ensures LastFailure(a + b, last) == LastFailure(b, LastFailure(a, last))
    ensures Fails(a + b) == Fails(a) + Fails(b)
    decreases |a|
  {
    hide IsFailure, IsSuccess;
    if a == [] {
      assert a + b == b;
    } else {
      assert (a + b)[0] == a[0] && (a + b)[1..] == a[1..] + b;
      UnbrokenConcat(c, a[1..], b, if IsFailure(a[0]) then a[0].now else last);
    }
  }

  /** Failures close enough together add up, whoever records them and whatever is checked in between,
      and once they reach the threshold the last one leaves the circuit freshly tripped. */
  lemma {:induction false} FailuresAddUp(c: Config, s: Store, events: seq<Event>, last: real)
    requires c.Valid() && Unbroken(c, events, last)
    requires s.failures.Some? && s.failures.value.expiresAt == last + c.window as real
    ensures var z, t := After(c, s, events), LastFailure(events, last);
      var n := s.failures.value.count + Fails(events);
      && z.failures == Some(Counter(n, t + c.window as real))
      && (Fails(events) == 0 ==> z.open == s.open)
      && (Fails(events) > 0 && n >= c.threshold ==> z.open == Some(Opened(t, t + (4 * c.cooldown) as real)))
    decreases |events|
  {
    if events != [] {
      var next := if IsFailure(events[0]) then events[0].now else last;
      FailuresAddUp(c, AfterEvent(c, s, events[0]), events[1..], next);
      NoneFailed(events[1..], next);
    }
  }

  lemma {:induction false} NoneFailed(events: seq<Event>, last: real)
    ensures Fails(events) == 0 ==> LastFailure(events, last) == last
    decreases |events|
  {
    if events != [] {
      NoneFailed(events[1..], if IsFailure(events[0]) then events[0].now else last);
    }
  }

  /** What others record between two failures of one process keeps them unbroken, as long as nobody
      succeeds and the two come less than the failure window apart. */
  lemma {:induction false} UnbrokenBetween(c: Config, others: seq<Event>, own: Event, last: real, start: real)
    requires IsFailure(own) && Ordered(others + [own], start) && last <= start && own.now < last + c.window as real
    requires forall e <- others :: !IsSuccess(e)
    ensures Unbroken(c, others + [own], last)
    ensures LastFailure(others + [own], last) == own.now && Fails(others + [own]) >= 1
    decreases |others|
  {
    var all := others + [own];
    if others == [] {
      assert all == [own] && all[1..] == [];
      assert Fails(all[1..]) == 0 && LastFailure(all[1..], own.now) == own.now;
    } else {
      assert all[0] == others[0] && all[1..] == others[1..] + [own];
      OrderedAt(all, start, 0, |all| - 1);
      assert others[0] in others;
      UnbrokenBetween(c, others[1..], own, if IsFailure(others[0]) then others[0].now else last, others[0].now);
    }
  }

  /** When the circuit was last tripped, unless a success came after it. */
  function LastTrip(c: Config, events: seq<Event>): Option<real>
    decreases |events|
  {
    if events == [] then None
    else
      var front, e := events[..|events| - 1], events[|events| - 1];
      if IsSuccess(e) then None
      else if IsFailure(e) && FailureCount(After(c, EMPTY, front), e.now) + 1 >= c.threshold then Some(e.now)
      else LastTrip(c, front)
  }

  lemma {:induction false} OpenKeyIsLastTrip(c: Config, events: seq<Event>)
    ensures After(c, EMPTY, events).open
            == match LastTrip(c, events)
               case None => None
               case Some(t) => Some(Opened(t, t + (4 * c.cooldown) as real))
    decreases |events|
  {
    if events != [] {
      var front, e := events[..|events| - 1], events[|events| - 1];
      assert events == front + [e];
      AfterSnoc(c, EMPTY, front, e);
      OpenKeyIsLastTrip(c, front);
    }
  }

  /** What a check answers, over every history: it passes when nothing tripped the circuit since the last
      success or four cooldowns have gone by, it is refused for one cooldown after a trip, and in
      between it probes unless somebody holds the probe. */
  lemma CheckAnswers(c: Config, events: seq<Event>, now: real)
    requires c.Valid()
    ensures var s := After(c, EMPTY, events);
      match LastTrip(c, events)
      case None => CheckVerdict(c, s, now) == Passed
      case Some(t) =>
        && (CheckVerdict(c, s, now) == Passed <==> now >= t + (4 * c.cooldown) as real)
        && (now < t + c.cooldown as real ==> CheckVerdict(c, s, now) == Refused)
        && (t + c.cooldown as real <= now < t + (4 * c.cooldown) as real ==>
             CheckVerdict(c, s, now) == if ProbeClaimed(s, now) then Refused else Probing)
  {
    OpenKeyIsLastTrip(c, events);
  }

  /** Below a threshold's worth of failures in a row every check passes. */
  lemma FewFailuresPass(c: Config, events: seq<Event>, now: real)
    requires Streak(events) < c.threshold
    ensures CheckVerdict(c, After(c, EMPTY, events), now) == Passed
  {
    OnlyStreaksOpen(c, events, now);
  }

  /** The time an open circuit promises is exact: left alone it is half-open from then on, and not a
      moment earlier. */
  lemma ReopensInIsExact(c: Config, s: Store, now: real, later: real)
    requires c.Valid() && Status(c, s, now).Open? && now <= later
    requires s.open.value.expiresAt == s.open.value.at + (4 * c.cooldown) as real
    ensures 0.0 < Status(c, s, now).reopensIn
    ensures Status(c, s, later).Open? <==> later < now + Status(c, s, now).reopensIn
    ensures later == now + Status(c, s, now).reopensIn ==> Status(c, s, later).HalfOpen?
  {
  }

  // ----- when a failed probe re-opens the circuit ----------------------------------------

  /** A failure at `f` opens the circuit for a whole cooldown exactly when the failures counted
      since the counter last expired reach the threshold. */
  lemma FailureOpensIff(c: Config, s: Store, f: real)
    requires c.Valid()
    requires s.open.Some? ==> s.open.value.at <= f
    requires !Status(c, s, f).Open?
    ensures Status(c, AfterFailure(c, s, f), f).Open? <==> FailureCount(s, f) + 1 >= c.threshold
    ensures Status(c, AfterFailure(c, s, f), f).Open? ==>
              Status(c, AfterFailure(c, s, f), f) == Open(c.cooldown as real)
              && !ProbeClaimed(AfterFailure(c, s, f), f)
  {
  }

  /** While the open key lives, so does a counter that has reached the threshold. */
  ghost predicate CounterOutlives(c: Config, s: Store, now: real) {
    && (s.open.Some? ==> s.open.value.at <= now)
    && (s.open.Some? && now < s.open.value.expiresAt ==>
         && s.failures.Some?
         && s.failures.value.count >= c.threshold
         && s.failures.value.expiresAt >= s.open.value.expiresAt)
  }

  lemma {:induction false} CounterOutlivesAlways(c: Config, s: Store, events: seq<Event>, now: real, last: real)
    requires c.Valid() && 4 * c.cooldown <= c.window
    requires CounterOutlives(c, s, now) && Ordered(events, now) && now <= last
    requires forall i :: 0 <= i < |events| ==> events[i].now <= last
    ensures CounterOutlives(c, After(c, s, events), last)
    decreases |events|
  {
    if events != [] {
      CounterOutlivesAlways(c, AfterEvent(c, s, events[0]), events[1..], events[0].now, last);
    }
  }

  ghost predicate History(events: seq<Event>, f: real) {
    Ordered(events, 0.0) && 0.0 <= f && forall i :: 0 <= i < |events| ==> events[i].now <= f
  }

  /** In every history, a failure recorded while half-open re-opens the circuit. */
  ghost predicate FailedProbeReopens(c: Config) {
    forall events: seq<Event>, f: real :: History(events, f) && Status(c, After(c, EMPTY, events), f).HalfOpen?
      ==> Status(c, AfterFailure(c, After(c, EMPTY, events), f), f).Open?
  }

  function Failures(n: nat): seq<Event> {
    seq(n, i => Event(Failed, 0.0, true))
  }

  lemma {:induction false} FailuresAtOnce(c: Config, s: Store, n: nat)
    requires c.Valid()
    requires s.failures.Some? ==> s.failures.value == Counter(s.failures.value.count, c.window as real)
    requires s.open.None? && FailureCount(s, 0.0) + n == c.threshold && n >= 1
    ensures Ordered(Failures(n), 0.0)
    ensures After(c, s, Failures(n)) ==
            Store(Some(Counter(c.threshold, c.window as real)), Some(Opened(0.0, (4 * c.cooldown) as real)), None)
    decreases n
  {
    var s' := AfterFailure(c, s, 0.0);
    assert Failures(n)[0] == Event(Failed, 0.0, true) && Failures(n)[1..] == Failures(n - 1);
    if n > 1 {
      FailuresAtOnce(c, s', n - 1);
    } else {
      assert Failures(0) == [];
      assert After(c, s', []) == s';
    }
  }

  /** With whole calls as steps, the re-opening is guaranteed exactly for the configurations whose
      counter outlasts the open key, or that trip on a single failure. */
  lemma ReopeningGuaranteedIff(c: Config)
    requires c.Valid()
    ensures FailedProbeReopens(c) <==> c.threshold <= 1 || 4 * c.cooldown <= c.window
  {
    if c.threshold <= 1 || 4 * c.cooldown <= c.window {
      forall events: seq<Event>, f: real | History(events, f) && Status(c, After(c, EMPTY, events), f).HalfOpen?
        ensures Status(c, AfterFailure(c, After(c, EMPTY, events), f), f).Open?
      {
        if c.threshold > 1 {
          CounterOutlivesAlways(c, EMPTY, events, 0.0, f);
        }
        FailureOpensIff(c, After(c, EMPTY, events), f);
      }
    } else {
      FailuresAtOnce(c, EMPTY, c.threshold);
      var f := Max(c.window, c.cooldown) as real;
      assert History(Failures(c.threshold), f);
      assert Status(c, After(c, EMPTY, Failures(c.threshold)), f).HalfOpen?;
      assert FailureCount(After(c, EMPTY, Failures(c.threshold)), f) == 0;
    }
  }

  /** As long as calls do not interleave, the default configuration keeps the guarantee; the NVD client's
      does not. */
  lemma DefaultReopensNvdDoesNot()
    ensures FailedProbeReopens(Config(5, 60, 300))
    ensures !FailedProbeReopens(Config(6, 120, 300))
  {
    ReopeningGuaranteedIff(Config(5, 60, 300));
    ReopeningGuaranteedIff(Config(6, 120, 300));
  }

  // ----- many processes, one command at a time ----------------------------------------------

  /** Where a process stands inside `check` or `record_failure`, or how its last check ended. */
  datatype Phase =
    | SawClosed | SawOpen | SawHalfOpen | Won | Lost
    | AboutToOpen(since: real) | AboutToRelease | Done

  /** `released` counts the times a live probe claim was deleted or ran out. */
  datatype System = System(store: Store, now: real, phases: map<nat, Phase>, won: nat, released: nat)

  const START := System(EMPTY, 0.0, map[], 0, 0)

  datatype Command =
    | ReadStatus(pid: nat)
    | ClaimProbe(pid: nat)
    | IncrementFailures(pid: nat)
    | SetOpen(pid: nat)
    | DeleteProbe(pid: nat)
    | DeleteAll(pid: nat)
    | Tick(seconds: real)

  predicate At(y: System, p: nat, phase: Phase) {
    p in y.phases && y.phases[p] == phase
  }

  /** A process in the middle of a check or of recording a failure starts nothing else. */
  predicate Busy(y: System, p: nat) {
    At(y, p, SawHalfOpen) || Tripping(y, p) || At(y, p, AboutToRelease)
  }

  /** A process that counted a failure up to the threshold and has yet to write the open key. */
  predicate Tripping(y: System, p: nat) {
    p in y.phases && y.phases[p].AboutToOpen?
  }

  function Releases(y: System): nat {
    if ProbeClaimed(y.store, y.now) then y.released + 1 else y.released
  }

  function Seen(state: State): Phase {
    match state
    case Closed => SawClosed
    case Open(_) => SawOpen
    case HalfOpen => SawHalfOpen
  }

  /** One command reaching the store; a command its process has no reason to issue does nothing. */
  function Obey(c: Config, y: System, cmd: Command): System {
    match cmd
    case ReadStatus(p) =>
      if Busy(y, p) then y else y.(phases := y.phases[p := Seen(Status(c, y.store, y.now))])
    case ClaimProbe(p) =>
      if !At(y, p, SawHalfOpen) then y
      else if ProbeClaimed(y.store, y.now) then y.(phases := y.phases[p := Lost])
      else y.(phases := y.phases[p := Won], won := y.won + 1,
              store := y.store.(probe := Some(y.now + c.ProbeTtl() as real)))
    case IncrementFailures(p) =>
      if Busy(y, p) then y
      else
        var n := FailureCount(y.store, y.now) + 1;
        y.(store := y.store.(failures := Some(Counter(n, y.now + c.window as real))),
           phases := y.phases[p := if n >= c.threshold then AboutToOpen(y.now) else Done])
    case SetOpen(p) =>
      if !Tripping(y, p) then y
      else y.(store := y.store.(open := Some(Opened(y.now, y.now + (4 * c.cooldown) as real))),
              phases := y.phases[p := AboutToRelease])
    case DeleteProbe(p) =>
      if !At(y, p, AboutToRelease) then y
      else y.(store := y.store.(probe := None), released := Releases(y), phases := y.phases[p := Done])
    case DeleteAll(p) =>
      if Busy(y, p) then y
      else y.(store := EMPTY, released := Releases(y), phases := y.phases[p := Done])
    case Tick(seconds) =>
      var later := y.now + MaxReal(seconds, 0.0);
      y.(now := later,
         released := if ProbeClaimed(y.store, y.now) && !ProbeClaimed(y.store, later) then y.released + 1
                     else y.released)
  }

  function ObeyAll(c: Config, y: System, commands: seq<Command>): System
    decreases |commands|
  {
    if commands == [] then y else ObeyAll(c, Obey(c, y, commands[0]), commands[1..])
  }

  lemma {:induction false} ObeyConcat(c: Config, y: System, a: seq<Command>, b: seq<Command>)
    ensures ObeyAll(c, y, a + b) == ObeyAll(c, ObeyAll(c, y, a), b)
    decreases |a|
  {
    hide Obey;
    if a == [] {
      assert a + b == b;
    } else {
      assert (a + b)[0] == a[0] && (a + b)[1..] == a[1..] + b;
      ObeyConcat(c, Obey(c, y, a[0]), a[1..], b);
    }
  }

  lemma ObeySnoc(c: Config, y: System, a: seq<Command>, cmd: Command)
    ensures ObeyAll(c, y, a + [cmd]) == Obey(c, ObeyAll(c, y, a), cmd)
  {
    hide Obey;
    ObeyConcat(c, y, a, [cmd]);
    var z := ObeyAll(c, y, a);
    assert ObeyAll(c, Obey(c, z, cmd), []) == Obey(c, z, cmd);
  }

  /** Every claim won is either the one still held or has been released. */
  ghost predicate ClaimsBalance(y: System) {
    y.won == y.released + if ProbeClaimed(y.store, y.now) then 1 else 0
  }

  /** However the processes interleave their reads, claims and records, each lifetime of the
      probe key admits exactly one of them. */
  lemma {:induction false} OneWinnerPerClaim(c: Config, y: System, commands: seq<Command>)
    requires c.Valid() && ClaimsBalance(y)
    ensures ClaimsBalance(ObeyAll(c, y, commands))
    ensures ObeyAll(c, y, commands).won <= ObeyAll(c, y, commands).released + 1
    ensures ClaimsBalance(START)
    decreases |commands|
  {
    if commands != [] {
      OneWinnerPerClaim(c, Obey(c, y, commands[0]), commands[1..]);
    }
  }

  /** Read and claim with nothing in between amount to the check as one step, which admits a
      probe only while half-open. */
  lemma UninterruptedCheckIsAtomic(c: Config, y: System, p: nat)
    requires c.Valid() && !Busy(y, p)
    ensures var z := ObeyAll(c, y, [ReadStatus(p), ClaimProbe(p)]);
      && z.won == y.won + (if CheckVerdict(c, y.store, y.now) == Probing then 1 else 0)
      && z.store == AfterCheck(c, y.store, y.now)
      && p in z.phases
      && match CheckVerdict(c, y.store, y.now)
         case Passed => z.phases[p] == SawClosed
         case Probing => z.phases[p] == Won
         case Refused => z.phases[p] == SawOpen || z.phases[p] == Lost
  {
    assert [ReadStatus(p), ClaimProbe(p)][1..] == [ClaimProbe(p)];
    var y1 := Obey(c, y, ReadStatus(p));
    assert ObeyAll(c, y1, [ClaimProbe(p)]) == Obey(c, y1, ClaimProbe(p));
  }

  /** So do the commands of one recorded failure. */
  lemma UninterruptedFailureIsAtomic(c: Config, y: System, p: nat)
    requires c.Valid() && !Busy(y, p)
    ensures ObeyAll(c, y, [IncrementFailures(p), SetOpen(p), DeleteProbe(p)]).store == AfterFailure(c, y.store, y.now)
  {
    var commands := [IncrementFailures(p), SetOpen(p), DeleteProbe(p)];
    assert commands[1..] == [SetOpen(p), DeleteProbe(p)] && commands[1..][1..] == [DeleteProbe(p)];
    var y2 := Obey(c, Obey(c, y, IncrementFailures(p)), SetOpen(p));
    assert ObeyAll(c, y2, [DeleteProbe(p)]) == Obey(c, y2, DeleteProbe(p));
  }

  // ----- a probe admitted by a stale read -------------------------------------------------------

  datatype Write = Untouched | Wiped | Tripped(at: real)

  function WriteOf(y: System, cmd: Command): Write {
    match cmd
    case SetOpen(p) => if Tripping(y, p) then Tripped(y.now) else Untouched
    case DeleteAll(p) => if Busy(y, p) then Untouched else Wiped
    case _ => Untouched
  }

  /** What the commands last did to the open key. */
  function LastWrite(c: Config, y: System, commands: seq<Command>): Write
    decreases |commands|
  {
    if commands == [] then Untouched
    else
      var later := LastWrite(c, Obey(c, y, commands[0]), commands[1..]);
      if later != Untouched then later else WriteOf(y, commands[0])
  }

  lemma {:induction false} OpenKeyIsLastWrite(c: Config, y: System, commands: seq<Command>)
    ensures var z := ObeyAll(c, y, commands);
      && y.now <= z.now
      && match LastWrite(c, y, commands)
         case Untouched => z.store.open == y.store.open
         case Wiped => z.store.open == None
         case Tripped(t) => y.now <= t <= z.now && z.store.open == Some(Opened(t, t + (4 * c.cooldown) as real))
    decreases |commands|
  {
    hide Obey;
    if commands != [] {
      WriteIsWritten(c, y, commands[0]);
      OpenKeyIsLastWrite(c, Obey(c, y, commands[0]), commands[1..]);
    }
  }

  lemma WriteIsWritten(c: Config, y: System, cmd: Command)
    ensures var z := Obey(c, y, cmd);
      && y.now <= z.now
      && match WriteOf(y, cmd)
         case Untouched => z.store.open == y.store.open
         case Wiped => z.store.open == None
         case Tripped(t) => t == y.now && z.store.open == Some(Opened(t, t + (4 * c.cooldown) as real))
  {
  }

  predicate IssuedBy(cmd: Command, p: nat) {
    !cmd.Tick? && cmd.pid == p
  }

  lemma {:induction false} OthersKeepPhase(c: Config, y: System, commands: seq<Command>, p: nat, phase: Phase)
    requires forall cmd <- commands :: !IssuedBy(cmd, p)
    ensures At(ObeyAll(c, y, commands), p, phase) <==> At(y, p, phase)
    decreases |commands|
  {
    if commands != [] {
      assert !IssuedBy(commands[0], p);
      OthersKeepPhase(c, Obey(c, y, commands[0]), commands[1..], p, phase);
    }
  }

  /** The half-open state found at `y` is over after the commands: the open key ran out, was wiped,
      or was written anew and the new cooldown runs, or the new key ran out too. */
  predicate HalfOpenEnded(c: Config, y: System, commands: seq<Command>)
    requires y.store.open.Some?
  {
    var now := ObeyAll(c, y, commands).now;
    match LastWrite(c, y, commands)
    case Untouched => now >= y.store.open.value.expiresAt
    case Wiped => true
    case Tripped(t) => now < t + c.cooldown as real || now >= t + (4 * c.cooldown) as real
  }

  /** Within a cooldown of a trip, a process that reads the status is refused exactly when the open key
      was not wiped last, whatever the other processes did meanwhile. */
  lemma OpenReadIff(c: Config, y: System, q: nat, commands: seq<Command>)
    requires c.Valid() && Tripping(y, q)
    requires ObeyAll(c, Obey(c, y, SetOpen(q)), commands).now < y.now + c.cooldown as real
    ensures var y1 := Obey(c, y, SetOpen(q));
      var z := ObeyAll(c, y1, commands);
      Status(c, z.store, z.now).Open? <==> LastWrite(c, y1, commands) != Wiped
  {
    hide ObeyAll, LastWrite;
    OpenKeyIsLastWrite(c, Obey(c, y, SetOpen(q)), commands);
  }

  /** A process that read half-open is admitted although the circuit is not half-open any more
      exactly when, between its read and its claim, an expiry, a wipe or a new trip ended the
      half-open state and the probe key is free. */
  lemma StaleClaimIff(c: Config, y: System, p: nat, between: seq<Command>)
    requires c.Valid() && !Busy(y, p) && Status(c, y.store, y.now).HalfOpen?
    requires forall cmd <- between :: !IssuedBy(cmd, p)
    ensures var y1 := Obey(c, y, ReadStatus(p));
      var z := ObeyAll(c, y1, between);
      var after := Obey(c, z, ClaimProbe(p));
      && (At(after, p, Won) <==> !ProbeClaimed(z.store, z.now))
      && (At(after, p, Won) && !Status(c, after.store, after.now).HalfOpen?
          <==> !ProbeClaimed(z.store, z.now) && HalfOpenEnded(c, y1, between))
  {
    hide ObeyAll, LastWrite;
    var y1 := Obey(c, y, ReadStatus(p));
    OpenKeyIsLastWrite(c, y1, between);
    OthersKeepPhase(c, y1, between, p, SawHalfOpen);
  }

  /** A process fails until its count reaches the threshold. */
  lemma {:induction false} FailUntilTrip(c: Config, y: System, q: nat) returns (commands: seq<Command>)
    requires c.Valid() && !Busy(y, q)
    ensures var z := ObeyAll(c, y, commands);
      && At(z, q, AboutToOpen(y.now)) && z.now == y.now && z.won == y.won
      && z.store.open == y.store.open && z.store.probe == y.store.probe
    ensures forall cmd <- commands :: cmd == IncrementFailures(q)
    decreases c.threshold - FailureCount(y.store, y.now)
  {
    var y1 := Obey(c, y, IncrementFailures(q));
    commands := [];
    assert ObeyAll(c, y1, []) == y1;
    if !Tripping(y1, q) {
      commands := FailUntilTrip(c, y1, q);
    }
    assert ([IncrementFailures(q)] + commands)[1..] == commands;
    commands := [IncrementFailures(q)] + commands;
  }

  /** From a circuit whose failures just reached the threshold to the next half-open state. */
  lemma TripAndCool(c: Config, y: System, q: nat)
    requires c.Valid() && Tripping(y, q)
    ensures var z := ObeyAll(c, y, [SetOpen(q), DeleteProbe(q), Tick(c.cooldown as real)]);
      && Status(c, z.store, z.now).HalfOpen? && z.store.probe == None && z.won == y.won && At(z, q, Done)
      && (forall p :: p != q && p !in y.phases ==> p !in z.phases)
  {
    ObeyThree(c, y, SetOpen(q), DeleteProbe(q), Tick(c.cooldown as real));
  }

  lemma ObeyThree(c: Config, y: System, a: Command, b: Command, d: Command)
    ensures ObeyAll(c, y, [a, b, d]) == Obey(c, Obey(c, Obey(c, y, a), b), d)
  {
    hide Obey;
    assert [a, b, d] == ([] + [a] + [b]) + [d];
    ObeySnoc(c, y, [] + [a] + [b], d);
    ObeySnoc(c, y, [] + [a], b);
    ObeySnoc(c, y, [], a);
  }

  /** Two processes read half-open; the first one's probe fails and re-opens the circuit, and the
      second one's claim is then admitted too. */
  lemma SecondProbeAfterTrip(c: Config, y: System, p: nat, q: nat) returns (commands: seq<Command>)
    requires c.Valid() && p != q && !Busy(y, p) && !Busy(y, q)
    requires Status(c, y.store, y.now).HalfOpen? && y.store.probe == None
    ensures var z := ObeyAll(c, y, commands);
      && At(z, p, Won) && z.won == y.won + 2 && Status(c, z.store, z.now) == Open(c.cooldown as real)
  {
    hide ObeyAll;
    var probe := [ReadStatus(p), ReadStatus(q), ClaimProbe(q)];
    ObeyThree(c, y, probe[0], probe[1], probe[2]);
    var y1 := ObeyAll(c, y, probe);
    var fail := FailUntilTrip(c, y1, q);
    var y2 := ObeyAll(c, y1, fail);
    OthersKeepPhase(c, y1, fail, p, SawHalfOpen);
    var again := [SetOpen(q), DeleteProbe(q), ClaimProbe(p)];
    ObeyThree(c, y2, again[0], again[1], again[2]);
    ObeyConcat(c, y, probe, fail);
    ObeyConcat(c, y, probe + fail, again);
    commands := probe + fail + again;
  }

  /** It happens in every configuration, starting from an empty store: two processes that read
      half-open are both admitted, the second one after the first one's failure opened the circuit. */
  lemma StaleProbeHappens(c: Config) returns (commands: seq<Command>)
    requires c.Valid()
    ensures var z := ObeyAll(c, START, commands);
      && At(z, 1, Won) && z.won == 2 && Status(c, z.store, z.now) == Open(c.cooldown as real)
  {
    hide ObeyAll, Obey;
    var fail := FailUntilTrip(c, START, 0);
    var trip := [SetOpen(0), DeleteProbe(0), Tick(c.cooldown as real)];
    OthersKeepNobody(c, fail, 0, 1);
    TripAndCool(c, ObeyAll(c, START, fail), 0);
    var rest := SecondProbeAfterTrip(c, ObeyAll(c, ObeyAll(c, START, fail), trip), 1, 0);
    ObeyConcat(c, START, fail, trip);
    ObeyConcat(c, START, fail + trip, rest);
    commands := fail + trip + rest;
  }

  lemma {:induction false} OthersKeepNobody(c: Config, commands: seq<Command>, q: nat, p: nat)
    requires p != q && forall cmd <- commands :: cmd == IncrementFailures(q)
    ensures p !in ObeyAll(c, START, commands).phases
    decreases |commands|
  {
    if commands != [] {
      var front, last := commands[..|commands| - 1], commands[|commands| - 1];
      assert commands == front + [last] && last in commands;
      assert forall cmd <- front :: cmd in commands;
      ObeySnoc(c, START, front, last);
      OthersKeepNobody(c, front, q, p);
    }
  }

  // ----- a success overtaken by a failure ----------------------------------------------------------

  ghost predicate NobodyAboutToOpen(y: System) {
    forall q <- y.phases :: !Tripping(y, q)
  }

  predicate WithoutFailures(commands: seq<Command>) {
    forall cmd <- commands :: !cmd.IncrementFailures?
  }

  lemma {:induction false} StaysClosed(c: Config, y: System, commands: seq<Command>)
    requires y.store.open == None && NobodyAboutToOpen(y) && WithoutFailures(commands)
    ensures Status(c, ObeyAll(c, y, commands).store, ObeyAll(c, y, commands).now).Closed?
    decreases |commands|
  {
    if commands != [] {
      assert NobodyAboutToOpen(Obey(c, y, commands[0]));
      StaysClosed(c, Obey(c, y, commands[0]), commands[1..]);
    }
  }

  /** A recorded success keeps the circuit closed until the next failure exactly when no process
      stands between counting a failure and writing the open key at that moment. */
  lemma SuccessSticksIff(c: Config, y: System, p: nat)
    requires c.Valid() && !Busy(y, p)
    ensures var z := Obey(c, y, DeleteAll(p));
      (forall commands :: WithoutFailures(commands)
         ==> Status(c, ObeyAll(c, z, commands).store, ObeyAll(c, z, commands).now).Closed?)
      <==> NobodyAboutToOpen(z)
  {
    var z := Obey(c, y, DeleteAll(p));
    if NobodyAboutToOpen(z) {
      forall commands | WithoutFailures(commands)
        ensures Status(c, ObeyAll(c, z, commands).store, ObeyAll(c, z, commands).now).Closed?
      {
        StaysClosed(c, z, commands);
      }
    } else {
      var q :| q in z.phases && Tripping(z, q);
      ObeySnoc(c, z, [], SetOpen(q));
      assert [] + [SetOpen(q)] == [SetOpen(q)];
      assert WithoutFailures([SetOpen(q)]);
      assert !Status(c, ObeyAll(c, z, [SetOpen(q)]).store, ObeyAll(c, z, [SetOpen(q)]).now).Closed?;
    }
  }

  /** It happens in every configuration: the circuit is opened by a failure counted before a success,
      with no failure after it. */
  lemma SuccessIsOvertaken(c: Config) returns (before: seq<Command>, after: seq<Command>)
    requires c.Valid()
    ensures WithoutFailures(after)
    ensures var y := ObeyAll(c, START, before);
      && !Busy(y, 1)
      && Status(c, Obey(c, y, DeleteAll(1)).store, y.now).Closed?
      && Status(c, ObeyAll(c, Obey(c, y, DeleteAll(1)), after).store, y.now) == Open(c.cooldown as real)
  {
    before := FailUntilTrip(c, START, 0);
    after := [SetOpen(0)];
    OthersKeepNobody(c, before, 0, 1);
    ObeySnoc(c, Obey(c, ObeyAll(c, START, before), DeleteAll(1)), [], SetOpen(0));
    assert [] + [SetOpen(0)] == after;
  }

  /** Failures counted since the counter was last wiped. */
  function CountedInARow(c: Config, commands: seq<Command>): nat
    decreases |commands|
  {
    if commands == [] then 0
    else
      var front, cmd := commands[..|commands| - 1], commands[|commands| - 1];
      match cmd
      case IncrementFailures(p) =>
        CountedInARow(c, front) + if Busy(ObeyAll(c, START, front), p) then 0 else 1
      case DeleteAll(p) => if Busy(ObeyAll(c, START, front), p) then CountedInARow(c, front) else 0
      case _ => CountedInARow(c, front)
  }

  /** The same for single commands, as long as no time passes. */
  lemma {:induction false} CounterIsCountedInARow(c: Config, commands: seq<Command>)
    requires c.Valid() && forall cmd <- commands :: !cmd.Tick?
    ensures ObeyAll(c, START, commands).now == 0.0
    ensures FailureCount(ObeyAll(c, START, commands).store, 0.0) == CountedInARow(c, commands)
    decreases |commands|
  {
    if commands != [] {
      var front, cmd := commands[..|commands| - 1], commands[|commands| - 1];
      assert commands == front + [cmd];
      CounterIsCountedInARow(c, front);
      ObeySnoc(c, START, front, cmd);
    }
  }

  ghost predicate ThresholdReached(c: Config, commands: seq<Command>) {
    exists k :: 0 <= k <= |commands| && CountedInARow(c, commands[..k]) >= c.threshold
  }

  lemma ReachedStays(c: Config, front: seq<Command>, cmd: Command)
    ensures ThresholdReached(c, front) ==> ThresholdReached(c, front + [cmd])
    ensures CountedInARow(c, front + [cmd]) >= c.threshold ==> ThresholdReached(c, front + [cmd])
  {
    hide CountedInARow;
    if ThresholdReached(c, front) {
      var k :| 0 <= k <= |front| && CountedInARow(c, front[..k]) >= c.threshold;
      assert (front + [cmd])[..k] == front[..k];
    }
    assert (front + [cmd])[..|front + [cmd]|] == front + [cmd];
  }

  lemma CountedSnoc(c: Config, front: seq<Command>, cmd: Command)
    ensures var y := ObeyAll(c, START, front);
      CountedInARow(c, front + [cmd]) ==
        match cmd
        case IncrementFailures(p) => CountedInARow(c, front) + (if Busy(y, p) then 0 else 1)
        case DeleteAll(p) => if Busy(y, p) then CountedInARow(c, front) else 0
        case _ => CountedInARow(c, front)
  {
    assert (front + [cmd])[..|front|] == front;
  }

  ghost predicate ExplainedBy(c: Config, y: System, count: nat, reached: bool) {
    && (y.store.failures.Some? ==> y.store.failures.value.count <= count)
    && (y.store.open.Some? ==> reached)
    && (!NobodyAboutToOpen(y) ==> reached)
  }

  lemma ExplainedStep(c: Config, y: System, cmd: Command, count: nat, reached: bool)
    requires ExplainedBy(c, y, count, reached)
    ensures var more := match cmd
                        case IncrementFailures(p) => count + (if Busy(y, p) then 0 else 1)
                        case DeleteAll(p) => if Busy(y, p) then count else 0
                        case _ => count;
      ExplainedBy(c, Obey(c, y, cmd), more, reached || more >= c.threshold)
  {
    var z := Obey(c, y, cmd);
    if !NobodyAboutToOpen(z) {
      var q :| q in z.phases && Tripping(z, q);
      if Tripping(y, q) {
        assert !NobodyAboutToOpen(y);
      }
    }
  }

  /** Under any interleaving, the circuit is open or half-open only after a threshold's worth of
      failures was counted with no success among them; a success can only come between the last of
      them and the write of the open key. */
  lemma {:induction false} OnlyCountedStreaksOpen(c: Config, commands: seq<Command>)
    ensures ExplainedBy(c, ObeyAll(c, START, commands), CountedInARow(c, commands), ThresholdReached(c, commands))
    ensures !Status(c, ObeyAll(c, START, commands).store, ObeyAll(c, START, commands).now).Closed?
            ==> ThresholdReached(c, commands)
    decreases |commands|
  {
    hide ExplainedBy, Obey, CountedInARow, ThresholdReached;
    if commands == [] {
      NothingToExplain(c);
    } else {
      var front, cmd := commands[..|commands| - 1], commands[|commands| - 1];
      assert commands == front + [cmd];
      OnlyCountedStreaksOpen(c, front);
      ObeySnoc(c, START, front, cmd);
      CountedSnoc(c, front, cmd);
      ReachedStays(c, front, cmd);
      ExplainedStep(c, ObeyAll(c, START, front), cmd, CountedInARow(c, front), ThresholdReached(c, front));
      ExplainedWeakens(c, ObeyAll(c, START, commands), CountedInARow(c, commands),
                       ThresholdReached(c, front) || CountedInARow(c, commands) >= c.threshold,
                       ThresholdReached(c, commands));
    }
    OpenIsExplained(c, ObeyAll(c, START, commands), CountedInARow(c, commands), ThresholdReached(c, commands));
  }

  lemma NothingToExplain(c: Config)
    ensures ExplainedBy(c, START, CountedInARow(c, []), ThresholdReached(c, []))
  {
  }

  lemma ExplainedWeakens(c: Config, y: System, count: nat, reached: bool, more: bool)
    requires ExplainedBy(c, y, count, reached) && (reached ==> more)
    ensures ExplainedBy(c, y, count, more)
  {
  }

  lemma OpenIsExplained(c: Config, y: System, count: nat, reached: bool)
    requires ExplainedBy(c, y, count, reached)
    ensures !Status(c, y.store, y.now).Closed? ==> reached
  {
  }

  // ----- a failed probe under interleaving ---------------------------------------------------------

  /** Whether a process that reached the threshold is still within its time to write the open key; with
      no bound on the delay it always is. */
  predicate InTime(y: System, q: nat, delay: Option<real>) {
    Tripping(y, q) && (delay.Some? ==> y.now <= y.phases[q].since + delay.value)
  }

  /** The open key is written in time, and, unless `overtaking`, no success is recorded while a process
      is in time to write it. */
  ghost predicate Allowed(delay: Option<real>, overtaking: bool, y: System, cmd: Command) {
    && (cmd.SetOpen? && Tripping(y, cmd.pid) ==> InTime(y, cmd.pid, delay))
    && (cmd.DeleteAll? && !Busy(y, cmd.pid) && !overtaking ==> forall q <- y.phases :: !InTime(y, q, delay))
  }

  ghost predicate AllAllowed(c: Config, delay: Option<real>, overtaking: bool, y: System, commands: seq<Command>)
    decreases |commands|
  {
    commands == []
    || (Allowed(delay, overtaking, y, commands[0])
        && AllAllowed(c, delay, overtaking, Obey(c, y, commands[0]), commands[1..]))
  }

  lemma {:induction false} AllowedConcat(
      c: Config, delay: Option<real>, overtaking: bool, y: System, a: seq<Command>, b: seq<Command>)
    ensures AllAllowed(c, delay, overtaking, y, a + b)
            <==> AllAllowed(c, delay, overtaking, y, a) && AllAllowed(c, delay, overtaking, ObeyAll(c, y, a), b)
    decreases |a|
  {
    hide Obey, Allowed;
    if a == [] {
      assert a + b == b;
    } else {
      assert (a + b)[0] == a[0] && (a + b)[1..] == a[1..] + b;
      AllowedConcat(c, delay, overtaking, Obey(c, y, a[0]), a[1..], b);
    }
  }

  lemma {:induction false} OthersAllowed(
      c: Config, delay: Option<real>, overtaking: bool, y: System, commands: seq<Command>)
    requires forall cmd <- commands :: !cmd.SetOpen? && !cmd.DeleteAll?
    ensures AllAllowed(c, delay, overtaking, y, commands)
    decreases |commands|
  {
    if commands != [] {
      assert commands[0] in commands;
      OthersAllowed(c, delay, overtaking, Obey(c, y, commands[0]), commands[1..]);
    }
  }

  /** The probe of `p` fails and its failure is recorded without interruption. */
  predicate ReopenedBy(c: Config, y: System, p: nat) {
    var z := ObeyAll(c, y, [IncrementFailures(p), SetOpen(p), DeleteProbe(p)]);
    Status(c, z.store, z.now).Open?
  }

  /** After every allowed run, a failure of a process admitted as the probe of a half-open circuit
      re-opens it. */
  ghost predicate ReopensInterleaved(c: Config, delay: Option<real>, overtaking: bool) {
    forall commands: seq<Command>, p: nat ::
      AllAllowed(c, delay, overtaking, START, commands)
      && At(ObeyAll(c, START, commands), p, Won)
      && Status(c, ObeyAll(c, START, commands).store, ObeyAll(c, START, commands).now).HalfOpen?
      ==> ReopenedBy(c, ObeyAll(c, START, commands), p)
  }

  lemma ReopenedIff(c: Config, y: System, p: nat)
    requires c.Valid() && At(y, p, Won) && Status(c, y.store, y.now).HalfOpen?
    ensures ReopenedBy(c, y, p) <==> FailureCount(y.store, y.now) + 1 >= c.threshold
  {
    UninterruptedFailureIsAtomic(c, y, p);
    ObeyThree(c, y, IncrementFailures(p), SetOpen(p), DeleteProbe(p));
    FailureOpensIff(c, y.store, y.now);
  }

  /** While the open key lives or is about to be written in time, so does a counter that has reached
      the threshold. */
  ghost predicate CounterHolds(c: Config, delay: real, y: System) {
    && (y.store.open.Some? ==>
         y.store.open.value.at <= y.now && y.store.open.value.expiresAt == y.store.open.value.at + (4 * c.cooldown) as real)
    && (y.store.open.Some? && y.now < y.store.open.value.expiresAt ==> CountedUntil(c, y, y.store.open.value.expiresAt))
    && (forall q <- y.phases :: Tripping(y, q) ==> y.phases[q].since <= y.now)
    && (forall q <- y.phases :: InTime(y, q, Some(delay)) ==> CountedUntil(c, y, y.phases[q].since + c.window as real))
  }

  predicate CountedUntil(c: Config, y: System, t: real) {
    y.store.failures.Some? && y.store.failures.value.count >= c.threshold && y.store.failures.value.expiresAt >= t
  }

  lemma HoldsStep(c: Config, delay: real, y: System, cmd: Command)
    requires c.Valid() && delay >= 0.0 && (4 * c.cooldown) as real + delay <= c.window as real
    requires CounterHolds(c, delay, y) && Allowed(Some(delay), false, y, cmd)
    ensures CounterHolds(c, delay, Obey(c, y, cmd))
  {
    var z := Obey(c, y, cmd);
    forall q | q in z.phases && InTime(z, q, Some(delay))
      ensures CountedUntil(c, z, z.phases[q].since + c.window as real)
    {
      if Tripping(y, q) {
        assert InTime(y, q, Some(delay));
      }
    }
  }

  lemma {:induction false} HoldsAlways(c: Config, delay: real, y: System, commands: seq<Command>)
    requires c.Valid() && delay >= 0.0 && (4 * c.cooldown) as real + delay <= c.window as real
    requires CounterHolds(c, delay, y) && AllAllowed(c, Some(delay), false, y, commands)
    ensures CounterHolds(c, delay, ObeyAll(c, y, commands))
    decreases |commands|
  {
    hide CounterHolds, Obey, Allowed;
    if commands != [] {
      HoldsStep(c, delay, y, commands[0]);
      HoldsAlways(c, delay, Obey(c, y, commands[0]), commands[1..]);
    }
  }

  /** A success falls between the count and the write of the open key: the circuit is then open with
      nothing counted, and a failed probe adds one failure only. */
  lemma OvertakenProbe(c: Config, delay: Option<real>) returns (commands: seq<Command>)
    requires c.Valid() && c.threshold > 1 && (delay.Some? ==> delay.value >= 0.0)
    ensures var z := ObeyAll(c, START, commands);
      && AllAllowed(c, delay, true, START, commands)
      && At(z, 2, Won) && Status(c, z.store, z.now).HalfOpen? && !ReopenedBy(c, z, 2)
  {
    hide ObeyAll, AllAllowed, Obey;
    var fail := FailUntilTrip(c, START, 0);
    var y := ObeyAll(c, START, fail);
    OthersKeepNobody(c, fail, 0, 1);
    OthersKeepNobody(c, fail, 0, 2);
    assert forall cmd <- fail :: !cmd.SetOpen? && !cmd.DeleteAll?;
    OthersAllowed(c, delay, true, START, fail);
    Overtake(c, y, delay);
    var trip := [DeleteAll(1), SetOpen(0), DeleteProbe(0)];
    var y1 := ObeyAll(c, y, trip);
    ProbeAfter(c, y1, c.cooldown as real, delay, true);
    var probe := [Tick(c.cooldown as real), ReadStatus(2), ClaimProbe(2)];
    commands := fail + trip + probe;
    ObeyConcat(c, START, fail, trip);
    ObeyConcat(c, START, fail + trip, probe);
    AllowedConcat(c, delay, true, START, fail, trip);
    AllowedConcat(c, delay, true, START, fail + trip, probe);
    ReopenedIff(c, ObeyAll(c, START, commands), 2);
  }

  lemma Overtake(c: Config, y: System, delay: Option<real>)
    requires c.Valid() && At(y, 0, AboutToOpen(y.now)) && 1 !in y.phases && 2 !in y.phases
    requires delay.Some? ==> delay.value >= 0.0
    ensures var trip := [DeleteAll(1), SetOpen(0), DeleteProbe(0)];
      var z := ObeyAll(c, y, trip);
      && AllAllowed(c, delay, true, y, trip)
      && z.store == Store(None, Some(Opened(y.now, y.now + (4 * c.cooldown) as real)), None)
      && z.now == y.now && 2 !in z.phases
  {
    var trip := [DeleteAll(1), SetOpen(0), DeleteProbe(0)];
    ObeyThree(c, y, trip[0], trip[1], trip[2]);
    AllowedThree(c, delay, true, y, trip[0], trip[1], trip[2]);
  }

  lemma AllowedThree(c: Config, delay: Option<real>, overtaking: bool, y: System, a: Command, b: Command, d: Command)
    ensures AllAllowed(c, delay, overtaking, y, [a, b, d]) <==>
            && Allowed(delay, overtaking, y, a)
            && Allowed(delay, overtaking, Obey(c, y, a), b)
            && Allowed(delay, overtaking, Obey(c, Obey(c, y, a), b), d)
  {
    hide Obey, Allowed;
    assert [a, b, d][1..] == [b, d] && [b, d][1..] == [d] && [d][1..] == [];
    var y2 := Obey(c, Obey(c, y, a), b);
    assert AllAllowed(c, delay, overtaking, y2, [d]) <==> Allowed(delay, overtaking, y2, d);
  }

  /** A probe is admitted once the open key is old enough and not yet gone. */
  lemma ProbeAfter(c: Config, y: System, wait: real, delay: Option<real>, overtaking: bool)
    requires c.Valid() && y.store.open.Some? && y.store.probe == None && 2 !in y.phases && wait >= 0.0
    requires y.store.open.value.at + c.cooldown as real <= y.now + wait < y.store.open.value.expiresAt
    ensures var probe := [Tick(wait), ReadStatus(2), ClaimProbe(2)];
      var z := ObeyAll(c, y, probe);
      && AllAllowed(c, delay, overtaking, y, probe)
      && At(z, 2, Won) && Status(c, z.store, z.now).HalfOpen?
      && z.now == y.now + wait && z.store.failures == y.store.failures
  {
    ObeyThree(c, y, Tick(wait), ReadStatus(2), ClaimProbe(2));
    OthersAllowed(c, delay, overtaking, y, [Tick(wait), ReadStatus(2), ClaimProbe(2)]);
  }

  /** The open key is written `late` after the count and outlives the counter. */
  lemma LateProbe(c: Config, delay: Option<real>, late: real) returns (commands: seq<Command>)
    requires c.Valid() && c.threshold > 1 && late >= 0.0 && (4 * c.cooldown) as real + late > c.window as real
    requires delay.Some? ==> late <= delay.value
    ensures var z := ObeyAll(c, START, commands);
      && AllAllowed(c, delay, false, START, commands)
      && At(z, 2, Won) && Status(c, z.store, z.now).HalfOpen? && !ReopenedBy(c, z, 2)
  {
    hide ObeyAll, AllAllowed, Obey;
    var fail := FailUntilTrip(c, START, 0);
    var y := ObeyAll(c, START, fail);
    OthersKeepNobody(c, fail, 0, 2);
    FailuresCountNow(c, fail, 0);
    assert forall cmd <- fail :: !cmd.SetOpen? && !cmd.DeleteAll?;
    OthersAllowed(c, delay, false, START, fail);
    WriteLate(c, y, delay, late);
    var trip := [Tick(late), SetOpen(0), DeleteProbe(0)];
    var y1 := ObeyAll(c, y, trip);
    var wait := MaxReal(c.window as real, late + c.cooldown as real) - late;
    ProbeAfter(c, y1, wait, delay, false);
    var probe := [Tick(wait), ReadStatus(2), ClaimProbe(2)];
    commands := fail + trip + probe;
    ObeyConcat(c, START, fail, trip);
    ObeyConcat(c, START, fail + trip, probe);
    AllowedConcat(c, delay, false, START, fail, trip);
    AllowedConcat(c, delay, false, START, fail + trip, probe);
    ReopenedIff(c, ObeyAll(c, START, commands), 2);
  }

  lemma WriteLate(c: Config, y: System, delay: Option<real>, late: real)
    requires c.Valid() && At(y, 0, AboutToOpen(y.now)) && 2 !in y.phases && late >= 0.0
    requires delay.Some? ==> late <= delay.value
    ensures var trip := [Tick(late), SetOpen(0), DeleteProbe(0)];
      var z := ObeyAll(c, y, trip);
      && AllAllowed(c, delay, false, y, trip)
      && z.store == Store(y.store.failures, Some(Opened(z.now, z.now + (4 * c.cooldown) as real)), None)
      && z.now == y.now + late && 2 !in z.phases
  {
    var trip := [Tick(late), SetOpen(0), DeleteProbe(0)];
    ObeyThree(c, y, trip[0], trip[1], trip[2]);
    AllowedThree(c, delay, false, y, trip[0], trip[1], trip[2]);
  }

  lemma {:induction false} FailuresCountNow(c: Config, commands: seq<Command>, q: nat)
    requires c.Valid() && forall cmd <- commands :: cmd == IncrementFailures(q)
    ensures var z := ObeyAll(c, START, commands);
      z.now == 0.0 && (z.store.failures.Some? ==> z.store.failures.value.expiresAt == c.window as real)
    decreases |commands|
  {
    if commands != [] {
      var front, last := commands[..|commands| - 1], commands[|commands| - 1];
      assert commands == front + [last] && last in commands;
      assert forall cmd <- front :: cmd in commands;
      ObeySnoc(c, START, front, last);
      FailuresCountNow(c, front, q);
    }
  }

  /** With single commands as steps, a failed probe is sure to re-open the circuit
      - if successes may fall between a count and the write of the open key: exactly for a threshold
        of at most one;
      - if they may not, and the write follows within `delay`: exactly for a threshold of at most one
        or a failure window of at least four cooldowns and the delay;
      - if they may not, but the write may take any time: exactly for a threshold of at most one. */
  lemma InterleavedReopeningIff(c: Config, delay: Option<real>)
    requires c.Valid() && (delay.Some? ==> delay.value >= 0.0)
    ensures ReopensInterleaved(c, delay, true) <==> c.threshold <= 1
    ensures delay.Some? ==> (ReopensInterleaved(c, delay, false)
                             <==> c.threshold <= 1 || (4 * c.cooldown) as real + delay.value <= c.window as real)
    ensures delay.None? ==> (ReopensInterleaved(c, delay, false) <==> c.threshold <= 1)
  {
    hide AllAllowed, ObeyAll, ReopenedBy;
    if c.threshold <= 1 {
      OneFailureReopens(c, delay, true);
      OneFailureReopens(c, delay, false);
    } else {
      var overtaken := OvertakenProbe(c, delay);
      if delay.Some? && (4 * c.cooldown) as real + delay.value <= c.window as real {
        CounterHoldsReopens(c, delay.value);
      } else {
        var late := LateProbe(c, delay, if delay.Some? then delay.value else c.window as real);
      }
    }
  }

  lemma OneFailureReopens(c: Config, delay: Option<real>, overtaking: bool)
    requires c.Valid() && c.threshold <= 1
    ensures ReopensInterleaved(c, delay, overtaking)
  {
    hide AllAllowed, ObeyAll, ReopenedBy;
    forall commands: seq<Command>, p: nat |
      At(ObeyAll(c, START, commands), p, Won)
      && Status(c, ObeyAll(c, START, commands).store, ObeyAll(c, START, commands).now).HalfOpen?
      ensures ReopenedBy(c, ObeyAll(c, START, commands), p)
    {
      ReopenedIff(c, ObeyAll(c, START, commands), p);
    }
  }

  lemma CounterHoldsReopens(c: Config, delay: real)
    requires c.Valid() && delay >= 0.0 && (4 * c.cooldown) as real + delay <= c.window as real
    ensures ReopensInterleaved(c, Some(delay), false)
  {
    hide AllAllowed, ObeyAll, ReopenedBy;
    forall commands: seq<Command>, p: nat |
      AllAllowed(c, Some(delay), false, START, commands)
      && At(ObeyAll(c, START, commands), p, Won)
      && Status(c, ObeyAll(c, START, commands).store, ObeyAll(c, START, commands).now).HalfOpen?
      ensures ReopenedBy(c, ObeyAll(c, START, commands), p)
    {
      HoldsAlways(c, delay, START, commands);
      ReopenedIff(c, ObeyAll(c, START, commands), p);
    }
  }

  /** No configuration in use trips on one failure, so none is safe from an overtaking success; the
      default one is safe without it as long as the open key is written within a minute, the NVD
      client's never is. */
  lemma DefaultReopensWithinAMinute()
    ensures !ReopensInterleaved(Config(5, 60, 300), Some(0.0), true)
    ensures ReopensInterleaved(Config(5, 60, 300), Some(60.0), false)
    ensures !ReopensInterleaved(Config(6, 120, 300), Some(0.0), false)
  {
    InterleavedReopeningIff(Config(5, 60, 300), Some(0.0));
    InterleavedReopeningIff(Config(5, 60, 300), Some(60.0));
    InterleavedReopeningIff(Config(6, 120, 300), Some(0.0));
  }
}
