/** Fitting tool output and whole prompts into a budget counted in characters. */
module PromptBudget {
  import opened Basics
  import opened ChatTurns

  // ----- decimal numerals ---------------------------------------------------------------

  function Decimal(n: nat): string {
    if n < 10 then [Digit(n)] else Decimal(n / 10) + [Digit(n % 10)]
  }

  function Digit(d: nat): char
    requires d < 10
  {
    "0123456789"[d]
  }

  function Width(n: nat): nat {
    |Decimal(n)|
  }

  function Value(s: string): int
    decreases |s|
  {
    if s == "" then 0 else Value(s[..|s| - 1]) * 10 + (s[|s| - 1] as int - '0' as int)
  }

  /** A numeral reads back as the number it was made from. */
  lemma {:induction false} DecimalReadsBack(n: nat)
    ensures Value(Decimal(n)) == n
    decreases n
  {
    var front := if n < 10 then "" else Decimal(n / 10);
    assert Decimal(n)[..|Decimal(n)| - 1] == front;
    if n >= 10 {
      DecimalReadsBack(n / 10);
    }
  }

  lemma {:induction false} WidthMonotone(m: nat, n: nat)
    requires m <= n
    ensures 1 <= Width(m) <= Width(n)
    decreases n
  {
    if n >= 10 {
      WidthMonotone(m / 10, n / 10);
    }
  }

  // ----- one tool's output ----------------------------------------------------------------

  const NOTICE_A := "\n\n[... "
  const NOTICE_B := " characters of "
  const NOTICE_C := " output omitted. This is a TRUNCATED fragment: "
  const NOTICE_D := " of "
  const NOTICE_E := " characters are shown. Do not draw conclusions about the omitted portion, and say so"
                    + " if the answer depends on it. ...]"

  function Notice(dropped: nat, tool: string, kept: nat, total: nat): string {
    NOTICE_A + Decimal(dropped) + NOTICE_B + tool + NOTICE_C + Decimal(kept) + NOTICE_D + Decimal(total) + NOTICE_E
  }

  datatype Clipped = Clipped(text: string, truncated: bool)

  function NoticeBudget(total: nat, tool: string, limit: nat): nat {
    |Notice(total, tool, limit, total)|
  }

  /** How many characters of the output survive. */
  function Usable(total: nat, limit: nat, tool: string): nat {
    Max(limit - NoticeBudget(total, tool, limit), limit / 2)
  }

  datatype BudgetError = LimitMustBePositive

  /** A head of about two thirds of `keep` characters, and a tail of the rest. */
  function Ends(text: string, keep: nat): (r: (string, string))
    requires keep < |text|
    ensures |r.0| + |r.1| == keep && |r.0| == keep * 2 / 3
    ensures r.0 <= text && r.1 == text[|text| - |r.1|..]
  {
    var headLen := keep * 2 / 3;
    var tailLen := keep - headLen;
    (text[..headLen], text[|text| - tailLen..])
  }

  function Cut(text: string, keep: nat, tool: string): string
    requires keep < |text|
  {
    var (head, tail) := Ends(text, keep);
    head + Notice(|text| - keep, tool, keep, |text|) + "\n" + tail
  }

  function TruncateToolOutput(text: string, limit: int, tool: string): Result<Clipped, BudgetError> {
    if limit <= 0 then Err(LimitMustBePositive)
    else if |text| <= limit then Ok(Clipped(text, false))
    else
      UsableBelowLimit(|text|, tool, limit);
      Ok(Clipped(Cut(text, Usable(|text|, limit, tool), tool), true))
  }

  lemma UsableBelowLimit(total: nat, tool: string, limit: nat)
    requires limit > 0
    ensures Usable(total, limit, tool) < limit
  {
    hide Notice;
    NoticeLength(total, tool, limit, total);
    WidthMonotone(0, total);
  }

  lemma NoticeLength(dropped: nat, tool: string, kept: nat, total: nat)
    ensures |Notice(dropped, tool, kept, total)| == NOTICE_TEXT + |tool| + Width(dropped) + Width(kept) + Width(total)
  {
    hide Decimal;
  }

  const NOTICE_TEXT := |NOTICE_A| + |NOTICE_B| + |NOTICE_C| + |NOTICE_D| + |NOTICE_E|

  /** `keep` characters of the text, two thirds from its front and the rest from its end. */
  ghost predicate BothEnds(text: string, keep: nat, head: string, tail: string) {
    && |head| + |tail| == keep < |text|
    && |head| == keep * 2 / 3
    && head <= text && tail == text[|text| - |tail|..]
  }

  lemma EndsAreBoth(text: string, keep: nat)
    requires keep < |text|
    ensures BothEnds(text, keep, Ends(text, keep).0, Ends(text, keep).1)
  {
  }

  /** A truncated output is a true prefix, the notice and a true suffix, which do not overlap,
      and the notice's numbers account for every character. */
  lemma TruncationKeepsBothEnds(text: string, limit: nat, tool: string)
    requires 0 < limit < |text|
    ensures var keep := Usable(|text|, limit, tool);
      exists head, tail :: BothEnds(text, keep, head, tail)
        && TruncateToolOutput(text, limit, tool)
           == Ok(Clipped(head + Notice(|text| - keep, tool, keep, |text|) + "\n" + tail, true))
  {
    hide Notice, Usable, BothEnds, Ends;
    UsableBelowLimit(|text|, tool, limit);
    var keep := Usable(|text|, limit, tool);
    EndsAreBoth(text, keep);
    var (head, tail) := Ends(text, keep);
    assert Cut(text, keep, tool) == head + Notice(|text| - keep, tool, keep, |text|) + "\n" + tail;
  }

  lemma CutLength(text: string, keep: nat, tool: string)
    requires keep < |text|
    ensures |Cut(text, keep, tool)|
            == keep + NOTICE_TEXT + |tool| + Width(|text| - keep) + Width(keep) + Width(|text|) + 1
  {
    hide Notice, Decimal;
    NoticeLength(|text| - keep, tool, keep, |text|);
  }

  /** The exact length of a truncated output, and the bound it never exceeds. */
  lemma TruncatedLength(text: string, limit: nat, tool: string)
    requires 0 < limit < |text|
    ensures var out := TruncateToolOutput(text, limit, tool).value.text;
      var budget := NoticeBudget(|text|, tool, limit);
      var usable := Max(limit - budget, limit / 2);
      && |out| == usable + budget - (Width(|text|) - Width(|text| - usable)) - (Width(limit) - Width(usable)) + 1
      && |out| <= Max(limit, limit / 2 + budget) + 1
  {
    hide Notice, Cut, Decimal;
    var usable := Usable(|text|, limit, tool);
    UsableBelowLimit(|text|, tool, limit);
    CutLength(text, usable, tool);
    NoticeLength(|text|, tool, limit, |text|);
    WidthMonotone(|text| - usable, |text|);
    WidthMonotone(usable, limit);
  }

  /** Digits by which the numbers in the notice are shorter than the ones budgeted for. */
  function DigitsSaved(total: nat, limit: nat, usable: nat): int
    requires usable <= total
  {
    Width(total) - Width(total - usable) + Width(limit) - Width(usable)
  }

  /** A truncated output exceeds its limit exactly when the digits saved are no more than what the
      limit lacks for half of it and the notice; with room for both, exactly when no digit is
      saved, and then by one character only. */
  lemma TruncationExceedsLimitIff(text: string, limit: nat, tool: string)
    requires 0 < limit < |text|
    ensures var out := TruncateToolOutput(text, limit, tool).value.text;
      var usable := Usable(|text|, limit, tool);
      var lacking := Max(limit / 2 + NoticeBudget(|text|, tool, limit) - limit, 0);
      && usable <= |text|
      && (|out| > limit <==> DigitsSaved(|text|, limit, usable) <= lacking)
      && (lacking == 0 ==> (|out| > limit <==> DigitsSaved(|text|, limit, usable) == 0) && |out| <= limit + 1)
  {
    hide Notice, Decimal, TruncateToolOutput;
    var usable := Usable(|text|, limit, tool);
    UsableBelowLimit(|text|, tool, limit);
    TruncatedLength(text, limit, tool);
    WidthMonotone(|text| - usable, |text|);
    WidthMonotone(usable, limit);
  }

  function Power10(n: nat): nat {
    if n == 0 then 1 else 10 * Power10(n - 1)
  }

  /** A numeral has `digits` digits exactly for the numbers from one power of ten to the next. */
  lemma {:induction false} WidthIs(n: nat, digits: nat)
    requires digits >= 2 && Power10(digits - 1) <= n < Power10(digits)
    ensures Width(n) == digits
    decreases digits
  {
    if digits > 2 {
      WidthIs(n / 10, digits - 1);
    } else {
      assert Power10(1) == 10 && Power10(2) == 100;
      assert |Decimal(n / 10)| == 1;
    }
  }

  /** It happens with the configured limit: every output of half a million characters comes back one
      character longer than the 60000 allowed. */
  lemma LimitIsExceeded(text: string, tool: string)
    requires |text| == 500000 && |tool| == 4
    ensures var r := TruncateToolOutput(text, 60000, tool);
      r.Ok? && r.value.truncated && |r.value.text| == 60001
  {
    hide Notice, Decimal, Cut, Power10;
    NoticeLength(500000, tool, 60000, 500000);
    PowersOfTen();
    WidthIs(500000, 6);
    WidthIs(60000, 5);
    var usable := Usable(500000, 60000, tool);
    assert 10000 <= usable < 60000;
    WidthIs(usable, 5);
    WidthIs(500000 - usable, 6);
    TruncatedLength(text, 60000, tool);
  }

  lemma PowersOfTen()
    ensures Power10(4) == 10000 && Power10(5) == 100000 && Power10(6) == 1000000
  {
    assert Power10(3) == 1000;
  }

  // ----- what the notice says -----------------------------------------------------------------

  /** `s` is the decimal numeral of `n`: digits only, none of them a leading zero. */
  ghost predicate Spells(s: string, n: nat) {
    && s != "" && (forall i :: 0 <= i < |s| ==> '0' <= s[i] <= '9')
    && (|s| > 1 ==> s[0] != '0')
    && Value(s) == n
  }

  lemma {:induction false} DecimalSpells(n: nat)
    ensures Spells(Decimal(n), n)
    ensures n > 0 ==> Decimal(n)[0] != '0'
    decreases n
  {
    DecimalReadsBack(n);
    if n >= 10 {
      DecimalSpells(n / 10);
    }
  }

  /** How a truncated output reads: two thirds of what is kept, the notice, the rest.  Its three
      numbers are the characters omitted, shown and there are in all. */
  lemma TruncatedReads(text: string, limit: nat, tool: string)
      returns (head: string, tail: string, omitted: string, shown: string, total: string)
    requires 0 < limit < |text|
    ensures TruncateToolOutput(text, limit, tool) == Ok(Clipped(
              head + ("\n\n[... " + omitted + " characters of " + tool
                      + " output omitted. This is a TRUNCATED fragment: " + shown + " of " + total
                      + (" characters are shown. Do not draw conclusions about the omitted portion, and say so"
                         + " if the answer depends on it. ...]"))
                + "\n" + tail, true))
    ensures |head| + |tail| < |text| && head <= text && tail == text[|text| - |tail|..]
    ensures |head| == (|head| + |tail|) * 2 / 3
    ensures |head| + |tail| == Max(limit - |Notice(|text|, tool, limit, |text|)|, limit / 2)
    ensures Spells(omitted, |text| - (|head| + |tail|)) && Spells(shown, |head| + |tail|) && Spells(total, |text|)
  {
    hide Decimal, Spells;
    UsableBelowLimit(|text|, tool, limit);
    var keep := Usable(|text|, limit, tool);
    var ends := Ends(text, keep);
    head, tail := ends.0, ends.1;
    omitted, shown, total := Decimal(|text| - keep), Decimal(keep), Decimal(|text|);
    DecimalSpells(|text| - keep);
    DecimalSpells(keep);
    DecimalSpells(|text|);
  }

  /** A limit must be positive, and only longer outputs are cut. */
  lemma TruncatedIff(text: string, limit: int, tool: string)
    ensures var r := TruncateToolOutput(text, limit, tool);
      && (r.Ok? <==> limit > 0)
      && (r.Ok? ==> (r.value.truncated <==> |text| > limit) && (|text| <= limit ==> r.value.text == text))
  {
    hide Cut;
  }

  // ----- a whole prompt -----------------------------------------------------------------------

  function OfRole(ms: seq<Message>, system: bool): seq<Message>
    decreases |ms|
  {
    if ms == [] then []
    else
      var front := OfRole(ms[..|ms| - 1], system);
      if (ms[|ms| - 1].role == System) == system then front + [ms[|ms| - 1]] else front
  }

  const MIN_NEWEST := 2000

  /** The newest turn cut down to what is left, but never below `MIN_NEWEST` characters. */
  function Squeezed(m: Message, remaining: int): Message {
    Message(m.role, TruncateToolOutput(m.content, Max(remaining, MIN_NEWEST), "conversation").value.text)
  }

  /** The turns that survive `remaining` characters, walked newest first, in their own order. */
  function Keep(turns: seq<Message>, remaining: int, keptAny: bool): seq<Message>
    decreases |turns|
  {
    if turns == [] then []
    else
      var older, m := turns[..|turns| - 1], turns[|turns| - 1];
      if Size(m) <= remaining then Keep(older, remaining - Size(m), true) + [m]
      else if !keptAny then Keep(older, 0, true) + [Squeezed(m, remaining)]
      else Keep(older, remaining, true)
  }

  const MARKER_A := "["
  const MARKER_B := " earlier turn(s) omitted to fit the context budget."
                    + " Refer to the conversation summary above for their content.]"

  function Marker(dropped: nat): Message {
    Message(User, MARKER_A + Decimal(dropped) + MARKER_B)
  }

  function Reverse(ms: seq<Message>): seq<Message>
    decreases |ms|
  {
    if ms == [] then [] else [ms[|ms| - 1]] + Reverse(ms[..|ms| - 1])
  }

  function Marked(kept: seq<Message>, dropped: nat): seq<Message> {
    if dropped > 0 then [Marker(dropped)] + kept else kept
  }

  lemma {:induction false} KeepNoMore(turns: seq<Message>, remaining: int, keptAny: bool)
    ensures |Keep(turns, remaining, keptAny)| <= |turns|
    decreases |turns|
  {
    if turns != [] {
      var older, m := turns[..|turns| - 1], turns[|turns| - 1];
      KeepNoMore(older, remaining - Size(m), true);
      KeepNoMore(older, 0, true);
      KeepNoMore(older, remaining, true);
    }
  }

  function Fitted(messages: seq<Message>, limit: int): seq<Message> {
    var system, turns := OfRole(messages, true), OfRole(messages, false);
    var kept := Keep(turns, limit - TotalSize(system), false);
    KeepNoMore(turns, limit - TotalSize(system), false);
    system + Marked(kept, |turns| - |kept|)
  }

  /** The newest-first walk: turns are appended as they are met, then put back in order. */
  method KeepNewest(turns: seq<Message>, budget: int) returns (kept: seq<Message>)
    ensures kept == Keep(turns, budget, false)
  {
    hide Squeezed, Size;
    kept := [];
    var remaining := budget;
    var i := |turns|;
    assert turns[..i] == turns;
    while i > 0
      invariant 0 <= i <= |turns|
      invariant Keep(turns, budget, false) == Keep(turns[..i], remaining, kept != []) + Reverse(kept)
    {
      i := i - 1;
      var message := turns[i];
      assert turns[..i + 1][..i] == turns[..i];
      if Size(message) <= remaining {
        ReverseSnoc(kept, message);
        kept := kept + [message];
        remaining := remaining - Size(message);
      } else if kept == [] {
        ReverseSnoc([], Squeezed(message, remaining));
        kept := kept + [Squeezed(message, remaining)];
        remaining := 0;
      }
    }
    kept := Reverse(kept);
  }

  lemma ReverseSnoc(kept: seq<Message>, m: Message)
    ensures Reverse(kept + [m]) == [m] + Reverse(kept)
  {
    assert (kept + [m])[..|kept|] == kept;
  }

  function Enforced(messages: seq<Message>, limit: int): Result<seq<Message>, BudgetError> {
    if limit <= 0 then Err(LimitMustBePositive)
    else if TotalSize(messages) <= limit then Ok(messages)
    else Ok(Fitted(messages, limit))
  }

  method EnforcePromptBudget(messages: seq<Message>, limit: int) returns (r: Result<seq<Message>, BudgetError>)
    ensures r == Enforced(messages, limit)
  {
    hide Keep, OfRole, TotalSize, Marker;
    if limit <= 0 {
      return Err(LimitMustBePositive);
    }
    if TotalSize(messages) <= limit {
      return Ok(messages);
    }
    var system, turns := OfRole(messages, true), OfRole(messages, false);
    var kept := KeepNewest(turns, limit - TotalSize(system));
    KeepNoMore(turns, limit - TotalSize(system), false);
    var dropped := |turns| - |kept|;
    if dropped > 0 {
      kept := [Marker(dropped)] + kept;
    }
    r := Ok(system + kept);
  }

  // ----- what survives ------------------------------------------------------------------------

  /** `ix` picks `kept` out of `turns`, in order. */
  ghost predicate Picks(ix: seq<nat>, kept: seq<Message>, turns: seq<Message>) {
    && |ix| == |kept|
    && (forall i :: 0 <= i < |ix| ==> ix[i] < |turns| && kept[i] == turns[ix[i]])
    && (forall i :: 0 < i < |ix| ==> ix[i - 1] < ix[i])
  }

  lemma PicksSnoc(ix: seq<nat>, kept: seq<Message>, turns: seq<Message>)
    requires turns != [] && Picks(ix, kept, turns[..|turns| - 1])
    ensures Picks(ix, kept, turns)
    ensures Picks(ix + [|turns| - 1], kept + [turns[|turns| - 1]], turns)
  {
  }

  lemma NothingPicked()
    ensures Picks([], [], [])
  {
  }

  /** Once a turn was kept, the older turns that survive are an ordered selection of them. */
  lemma {:induction false} OlderTurnsPicked(turns: seq<Message>, remaining: int) returns (ix: seq<nat>)
    ensures Picks(ix, Keep(turns, remaining, true), turns)
    decreases |turns|
  {
    hide Picks, Squeezed, Size;
    ix := [];
    NothingPicked();
    if turns != [] {
      var older, m := turns[..|turns| - 1], turns[|turns| - 1];
      if Size(m) <= remaining {
        ix := OlderTurnsPicked(older, remaining - Size(m));
        PicksSnoc(ix, Keep(older, remaining - Size(m), true), turns);
        ix := ix + [|turns| - 1];
      } else {
        ix := OlderTurnsPicked(older, remaining);
        PicksSnoc(ix, Keep(older, remaining, true), turns);
      }
    }
  }

  /** And they fit into what was left. */
  lemma {:induction false} OlderTurnsFit(turns: seq<Message>, remaining: int)
    ensures TotalSize(Keep(turns, remaining, true)) <= Max(remaining, 0)
    decreases |turns|
  {
    hide TotalSize, Squeezed;
    if turns == [] {
      NothingSize();
    } else {
      var older, m := turns[..|turns| - 1], turns[|turns| - 1];
      if Size(m) <= remaining {
        OlderTurnsFit(older, remaining - Size(m));
        TotalSizeConcat(Keep(older, remaining - Size(m), true), [m]);
        SingleSize(m);
      } else {
        OlderTurnsFit(older, remaining);
      }
    }
  }

  lemma NothingSize()
    ensures TotalSize([]) == 0
  {
  }

  lemma SingleSize(m: Message)
    ensures TotalSize([m]) == Size(m)
  {
    assert [m][..0] == [];
  }

  /** A Python string never holds more characters than this. */
  const MAX_STRING := 0x7fff_ffff_ffff_ffff

  lemma {:induction false} WidthBelowPower(n: nat, digits: nat)
    requires digits >= 1 && n < Power10(digits)
    ensures Width(n) <= digits
    decreases digits
  {
    if n >= 10 {
      WidthBelowPower(n / 10, digits - 1);
    }
  }

  lemma MaxStringDigits()
    ensures MAX_STRING < Power10(19)
  {
    assert Power10(5) == 100000;
    assert Power10(10) == 10000000000;
    assert Power10(15) == 1000000000000000;
    assert Power10(19) == 10000000000000000000;
  }

  lemma SqueezedSize(m: Message, remaining: int)
    requires Size(m) <= MAX_STRING
    ensures Size(Squeezed(m, remaining)) <= Max(remaining, MIN_NEWEST) + 1
  {
    hide Notice, Decimal;
    var limit := Max(remaining, MIN_NEWEST);
    if Size(m) > limit {
      TruncatedLength(m.content, limit, "conversation");
      NoticeLength(Size(m), "conversation", limit, Size(m));
      WidthMonotone(limit, Size(m));
      MaxStringDigits();
      WidthBelowPower(Size(m), 19);
      assert NOTICE_TEXT <= 300;
    }
  }

  /** The surviving turns are an order-preserving selection that always ends with the newest
      turn, whole when it fits and cut down otherwise. */
  lemma NewestTurnSurvives(turns: seq<Message>, budget: int) returns (ix: seq<nat>)
    requires turns != [] && forall i :: 0 <= i < |turns| ==> Size(turns[i]) <= MAX_STRING
    ensures var kept := Keep(turns, budget, false);
      var newest := turns[|turns| - 1];
      && kept != []
      && kept[|kept| - 1] == (if Size(newest) <= budget then newest else Squeezed(newest, budget))
      && Picks(ix, kept[..|kept| - 1], turns[..|turns| - 1])
      && TotalSize(kept) <= Max(budget, MIN_NEWEST) + 1
      && (Size(newest) <= budget ==> TotalSize(kept) <= budget)
  {
    hide Squeezed;
    var older, newest := turns[..|turns| - 1], turns[|turns| - 1];
    var fits := Size(newest) <= budget;
    var left := if fits then budget - Size(newest) else 0;
    var last := if fits then newest else Squeezed(newest, budget);
    ix := OlderTurnsPicked(older, left);
    OlderTurnsFit(older, left);
    assert Keep(turns, budget, false) == Keep(older, left, true) + [last];
    TotalSizeConcat(Keep(older, left, true), [last]);
    SingleSize(last);
    SqueezedSize(newest, budget);
  }

  /** Whether the survivors are simply the newest turns: once the first turn has been dropped
      with `left` characters to spare, exactly the turns longer than that are dropped from there
      on, so the oldest turns go first if and only if none of them would fit. */
  lemma {:induction false} NothingOlderKeptIff(older: seq<Message>, left: int)
    ensures Keep(older, left, true) == [] <==> forall i :: 0 <= i < |older| ==> Size(older[i]) > left
    decreases |older|
  {
    if older != [] {
      NothingOlderKeptIff(older[..|older| - 1], left);
    }
  }

  lemma {:induction false} OldestDroppedFirstIff(older: seq<Message>, m: Message, newer: seq<Message>, budget: int)
    requires newer != [] && TotalSize(newer) <= budget < TotalSize(newer) + Size(m)
    ensures Keep(older + [m] + newer, budget, false) == newer
            <==> forall i :: 0 <= i < |older| ==> Size(older[i]) > budget - TotalSize(newer)
  {
    hide Size, Squeezed;
    var left := budget - TotalSize(newer);
    NewerAllKept(older + [m], newer, budget, false);
    assert older + [m] + newer == (older + [m]) + newer;
    assert (older + [m])[..|older|] == older;
    NothingOlderKeptIff(older, left);
    if Keep(older, left, true) + newer == newer {
      assert |Keep(older, left, true)| == 0;
    }
  }

  /** It happens: a turn too long for the rest of the budget is skipped and the turn before it kept. */
  lemma MiddleTurnIsSkipped(first: Message, long: Message, newest: Message, limit: int)
    requires System !in {first.role, long.role, newest.role}
    requires Size(first) + Size(newest) <= limit < Size(long) + Size(newest)
    ensures limit > 0 ==> Enforced([first, long, newest], limit) == Ok([Marker(1), first, newest])
  {
    hide Marker, Squeezed, Size, OfRole, TotalSize;
    var turns := [first, long, newest];
    OfRoleOfAll(turns, false);
    NothingSize();
    assert turns == [first, long] + [newest] && [first, long] == [first] + [long];
    TotalSizeConcat([first, long], [newest]);
    TotalSizeConcat([first], [long]);
    SingleSize(first);
    SingleSize(long);
    SingleSize(newest);
    SizeNotNegative(first);
    assert turns[..2] == [first, long] && [first, long][..1] == [first] && [first][..0] == [];
    var left := limit - Size(newest);
    assert Keep([first], left, true) == [first];
    assert Keep([first, long], left, true) == [first];
    assert Keep(turns, limit, false) == [first, newest];
    assert [] + ([Marker(1)] + [first, newest]) == [Marker(1), first, newest];
  }

  lemma SizeNotNegative(m: Message)
    ensures Size(m) >= 0
  {
  }

  /** A prompt of three turns, fitted into 40 characters: the answer in the middle goes, the question
      before it stays. */
  lemma MiddleTurnIsSkippedHere()
    ensures Enforced([Message(User, "Which hosts?"),
                      Message(Assistant, "10.0.0.5, 10.0.0.6, 10.0.0.7 and 10.0.0.8"),
                      Message(User, "Scan the first.")], 40)
            == Ok([Marker(1), Message(User, "Which hosts?"), Message(User, "Scan the first.")])
  {
    MiddleTurnIsSkipped(Message(User, "Which hosts?"), Message(Assistant, "10.0.0.5, 10.0.0.6, 10.0.0.7 and 10.0.0.8"),
                        Message(User, "Scan the first."), 40);
  }

  lemma {:induction false} NewerAllKept(rest: seq<Message>, newer: seq<Message>, budget: int, keptAny: bool)
    requires TotalSize(newer) <= budget
    ensures Keep(rest + newer, budget, keptAny) == Keep(rest, budget - TotalSize(newer), keptAny || newer != []) + newer
    decreases |newer|
  {
    if newer == [] {
      assert rest + newer == rest;
    } else {
      var m := newer[|newer| - 1];
      assert (rest + newer)[..|rest + newer| - 1] == rest + newer[..|newer| - 1];
      NewerAllKept(rest, newer[..|newer| - 1], budget - Size(m), true);
    }
  }

  ghost predicate AllOf(ms: seq<Message>, system: bool) {
    forall i :: 0 <= i < |ms| ==> (ms[i].role == System) == system
  }

  lemma {:induction false} OfRoleIsOfRole(ms: seq<Message>, system: bool)
    ensures AllOf(OfRole(ms, system), system)
    decreases |ms|
  {
    if ms != [] {
      OfRoleIsOfRole(ms[..|ms| - 1], system);
    }
  }

  lemma {:induction false} OfRoleSplits(ms: seq<Message>)
    ensures TotalSize(ms) == TotalSize(OfRole(ms, true)) + TotalSize(OfRole(ms, false))
    decreases |ms|
  {
    hide TotalSize, Size;
    if ms == [] {
      NothingSize();
    } else {
      var front, m := ms[..|ms| - 1], ms[|ms| - 1];
      OfRoleSplits(front);
      assert ms == front + [m];
      TotalSizeConcat(front, [m]);
      TotalSizeConcat(OfRole(front, m.role == System), [m]);
    }
  }

  lemma {:induction false} OfRoleOfAll(ms: seq<Message>, system: bool)
    requires AllOf(ms, system)
    ensures OfRole(ms, system) == ms && OfRole(ms, !system) == []
    decreases |ms|
  {
    if ms != [] {
      OfRoleOfAll(ms[..|ms| - 1], system);
    }
  }

  lemma {:induction false} OfRoleConcat(a: seq<Message>, b: seq<Message>, system: bool)
    ensures OfRole(a + b, system) == OfRole(a, system) + OfRole(b, system)
    decreases |b|
  {
    if b == [] {
      assert a + b == a;
    } else {
      assert (a + b)[..|a + b| - 1] == a + b[..|b| - 1];
      OfRoleConcat(a, b[..|b| - 1], system);
    }
  }

  lemma {:induction false} KeptAreTurns(turns: seq<Message>, remaining: int, keptAny: bool)
    requires AllOf(turns, false)
    ensures AllOf(Keep(turns, remaining, keptAny), false)
    decreases |turns|
  {
    hide Squeezed, Size;
    if turns != [] {
      var older, m := turns[..|turns| - 1], turns[|turns| - 1];
      KeptAreTurns(older, remaining - Size(m), true);
      KeptAreTurns(older, 0, true);
      KeptAreTurns(older, remaining, true);
      SqueezedKeepsRole(m, remaining);
    }
  }

  lemma SqueezedKeepsRole(m: Message, remaining: int)
    ensures Squeezed(m, remaining).role == m.role
  {
  }

  /** The system prompt is never touched: system messages come back all, in order, and first. */
  lemma SystemPromptUntouched(messages: seq<Message>, limit: int)
    ensures OfRole(messages, true) <= Fitted(messages, limit)
    ensures OfRole(Fitted(messages, limit), true) == OfRole(messages, true)
  {
    hide OfRole, Keep, Marker;
    var system, turns := OfRole(messages, true), OfRole(messages, false);
    var kept := Keep(turns, limit - TotalSize(system), false);
    KeepNoMore(turns, limit - TotalSize(system), false);
    OfRoleIsOfRole(messages, true);
    OfRoleIsOfRole(messages, false);
    OfRoleOfAll(system, true);
    KeptAreTurns(turns, limit - TotalSize(system), false);
    MarkedAreTurns(kept, |turns| - |kept|);
    OfRoleOfAll(Marked(kept, |turns| - |kept|), false);
    OfRoleConcat(system, Marked(kept, |turns| - |kept|), true);
  }

  lemma MarkedAreTurns(kept: seq<Message>, dropped: nat)
    requires AllOf(kept, false)
    ensures AllOf(Marked(kept, dropped), false)
    ensures TotalSize(Marked(kept, dropped)) == TotalSize(kept) + if dropped > 0 then Size(Marker(dropped)) else 0
  {
    hide Decimal;
    if dropped > 0 {
      TotalSizeConcat([Marker(dropped)], kept);
      SingleSize(Marker(dropped));
    }
  }

  /** A prompt over its budget comes back within the budget, or what the system prompt and the
      least allowance for the newest turn come to, plus one and the marker. */
  lemma FittedSize(messages: seq<Message>, limit: nat)
    requires forall i :: 0 <= i < |messages| ==> Size(messages[i]) <= MAX_STRING
    requires 0 < limit < TotalSize(messages)
    ensures var system, turns := OfRole(messages, true), OfRole(messages, false);
      var kept := Keep(turns, limit - TotalSize(system), false);
      && |kept| <= |turns|
      && TotalSize(Fitted(messages, limit))
         <= Max(limit, TotalSize(system) + MIN_NEWEST) + 1
            + (if |kept| < |turns| then Size(Marker(|turns| - |kept|)) else 0)
  {
    hide Keep, Marker, TotalSize, OfRole, Marked, AllOf, Size;
    var system, turns := OfRole(messages, true), OfRole(messages, false);
    var kept := Keep(turns, limit - TotalSize(system), false);
    KeepNoMore(turns, limit - TotalSize(system), false);
    OfRoleSplits(messages);
    OfRoleIsOfRole(messages, false);
    OfRoleBounded(messages, false);
    if turns == [] {
      NothingSize();
    } else {
      var _ := NewestTurnSurvives(turns, limit - TotalSize(system));
    }
    KeptAreTurns(turns, limit - TotalSize(system), false);
    MarkedAreTurns(kept, |turns| - |kept|);
    TotalSizeConcat(system, Marked(kept, |turns| - |kept|));
  }

  lemma {:induction false} OfRoleBounded(ms: seq<Message>, system: bool)
    requires forall i :: 0 <= i < |ms| ==> Size(ms[i]) <= MAX_STRING
    ensures forall i :: 0 <= i < |OfRole(ms, system)| ==> Size(OfRole(ms, system)[i]) <= MAX_STRING
    decreases |ms|
  {
    if ms != [] {
      OfRoleBounded(ms[..|ms| - 1], system);
    }
  }

  // ----- the prompt that is sent -----------------------------------------------------------------

  /** The marker is a user turn that says how many turns were dropped. */
  lemma MarkerReads(dropped: nat) returns (numeral: string)
    ensures Marker(dropped) == Message(User,
              "[" + numeral + (" earlier turn(s) omitted to fit the context budget."
                               + " Refer to the conversation summary above for their content.]"))
    ensures Spells(numeral, dropped)
  {
    hide Decimal, Spells;
    numeral := Decimal(dropped);
    DecimalSpells(dropped);
  }

  /** Every older turn is judged on its own: with `left` characters to spare, it survives exactly when
      it fits beside the newer turns that did. */
  lemma {:induction false} TurnKeptIff(older: seq<Message>, m: Message, newer: seq<Message>, left: int)
    ensures var kept := Keep(newer, left, true);
      var room := left - TotalSize(kept);
      Keep(older + [m] + newer, left, true)
      == (if Size(m) <= room then Keep(older, room - Size(m), true) + [m] else Keep(older, room, true)) + kept
    decreases |newer|
  {
    hide Size, Squeezed, TotalSize, Keep;
    var all := older + [m] + newer;
    if newer == [] {
      assert all == older + [m];
      KeepSnoc(older, m, left);
      NothingSize();
      NothingKept(left);
    } else {
      var front, last := newer[..|newer| - 1], newer[|newer| - 1];
      assert all == (older + [m] + front) + [last] && newer == front + [last];
      var room := if Size(last) <= left then left - Size(last) else left;
      KeepSnoc(older + [m] + front, last, left);
      KeepSnoc(front, last, left);
      TurnKeptIff(older, m, front, room);
      TotalSizeConcat(Keep(front, room, true), [last]);
      SingleSize(last);
    }
  }

  lemma KeepSnoc(turns: seq<Message>, m: Message, left: int)
    ensures Keep(turns + [m], left, true)
            == if Size(m) <= left then Keep(turns, left - Size(m), true) + [m] else Keep(turns, left, true)
  {
    assert (turns + [m])[..|turns|] == turns;
  }

  lemma NothingKept(left: int)
    ensures Keep([], left, true) == []
  {
  }

  /** A prompt is refused exactly for a limit that is not positive, and one that fits is sent as it is. */
  lemma FittingPromptIsSent(messages: seq<Message>, limit: int)
    ensures Enforced(messages, limit).Err? <==> limit <= 0
    ensures 0 < limit && TotalSize(messages) <= limit ==> Enforced(messages, limit) == Ok(messages)
  {
    hide Fitted, TotalSize;
  }

  /** What is sent of a prompt over its budget: all system messages, the marker when turns are missing,
      the older turns that were kept, and the newest turn, whole or cut down. */
  lemma PromptOverBudget(messages: seq<Message>, limit: int) returns (ix: seq<nat>, older: seq<Message>)
    requires 0 < limit < TotalSize(messages) && OfRole(messages, false) != []
    requires forall i :: 0 <= i < |messages| ==> Size(messages[i]) <= MAX_STRING
    ensures var system, turns := OfRole(messages, true), OfRole(messages, false);
      var newest := turns[|turns| - 1];
      var room := limit - TotalSize(system);
      var dropped := |turns| - 1 - |older|;
      && Picks(ix, older, turns[..|turns| - 1]) && dropped >= 0
      && Enforced(messages, limit)
         == Ok(system
               + (if dropped > 0 then [Marker(dropped)] else [])
               + older
               + [if Size(newest) <= room then newest
                  else Message(newest.role,
                               TruncateToolOutput(newest.content, Max(room, 2000), "conversation").value.text)])
  {
    hide Keep, OfRole, TotalSize, Marker, Picks, TruncateToolOutput, Size;
    var system, turns := OfRole(messages, true), OfRole(messages, false);
    var room := limit - TotalSize(system);
    var newest := turns[|turns| - 1];
    OfRoleBounded(messages, false);
    KeepNoMore(turns, room, false);
    ix := NewestTurnSurvives(turns, room);
    var kept := Keep(turns, room, false);
    older := kept[..|kept| - 1];
    var last := [kept[|kept| - 1]];
    assert kept == older + last;
    var marker := if |turns| > |kept| then [Marker(|turns| - |kept|)] else [];
    assert Marked(kept, |turns| - |kept|) == marker + kept;
    assert system + (marker + (older + last)) == system + marker + older + last;
  }

  /** System messages alone are sent as they are, however long they are together. */
  lemma SystemMessagesAlone(messages: seq<Message>, limit: int)
    requires limit > 0 && OfRole(messages, false) == []
    ensures Enforced(messages, limit) == Ok(messages)
  {
    hide TotalSize;
    NoTurnsAllSystem(messages);
    OfRoleOfAll(messages, true);
    assert messages + [] == messages;
  }

  lemma {:induction false} NoTurnsAllSystem(messages: seq<Message>)
    requires OfRole(messages, false) == []
    ensures AllOf(messages, true)
    decreases |messages|
  {
    if messages != [] {
      NoTurnsAllSystem(messages[..|messages| - 1]);
    }
  }

  /** Whatever the limit, no system message is lost, moved behind another or made up. */
  lemma SystemMessagesSurvive(messages: seq<Message>, limit: int)
    requires limit > 0
    ensures Enforced(messages, limit).Ok?
    ensures OfRole(Enforced(messages, limit).value, true) == OfRole(messages, true)
  {
    hide OfRole, Fitted, TotalSize;
    SystemPromptUntouched(messages, limit);
  }

  /** What is sent stays within the limit, or what the system prompt and 2000 characters of the newest
      turn come to, but for one character and a marker of at most a line. */
  lemma SentSize(messages: seq<Message>, limit: int)
    requires limit > 0 && forall i :: 0 <= i < |messages| ==> Size(messages[i]) <= MAX_STRING
    ensures Enforced(messages, limit).Ok?
    ensures TotalSize(Enforced(messages, limit).value)
            <= Max(limit, TotalSize(OfRole(messages, true)) + 2000)
               + (if TotalSize(messages) > limit then 1 + 120 + Width(|messages|) else 0)
  {
    hide TotalSize, Fitted, OfRole, Width;
    if TotalSize(messages) > limit {
      OverBudgetSize(messages, limit);
    }
  }

  lemma OverBudgetSize(messages: seq<Message>, limit: nat)
    requires forall i :: 0 <= i < |messages| ==> Size(messages[i]) <= MAX_STRING
    requires 0 < limit < TotalSize(messages)
    ensures TotalSize(Fitted(messages, limit))
            <= Max(limit, TotalSize(OfRole(messages, true)) + 2000) + 1 + 120 + Width(|messages|)
  {
    hide Keep, TotalSize, Marker, Fitted, OfRole, Width, Size;
    var system, turns := OfRole(messages, true), OfRole(messages, false);
    FittedSize(messages, limit);
    OfRoleNoMore(messages, false);
    var kept := Keep(turns, limit - TotalSize(system), false);
    if |kept| < |turns| {
      WidthMonotone(|turns| - |kept|, |messages|);
      MarkerSize(|turns| - |kept|);
    }
  }

  lemma {:induction false} OfRoleNoMore(ms: seq<Message>, system: bool)
    ensures |OfRole(ms, system)| <= |ms|
    decreases |ms|
  {
    if ms != [] {
      OfRoleNoMore(ms[..|ms| - 1], system);
    }
  }

  lemma MarkerSize(dropped: nat)
    ensures Size(Marker(dropped)) <= 120 + Width(dropped)
  {
    hide Decimal;
  }

  // ----- which prompts come back unchanged ---------------------------------------------------------

  /** Truncation to at least `MIN_NEWEST` characters never gives a longer text back as it was. */
  lemma CutNewestDiffers(m: Message, room: int)
    requires Max(room, MIN_NEWEST) < Size(m) <= MAX_STRING
    ensures Squeezed(m, room) != m
  {
    hide Notice, Decimal, TruncateToolOutput, Power10;
    var limit := Max(room, MIN_NEWEST);
    var total := Size(m);
    var usable := Usable(total, limit, "conversation");
    UsableBelowLimit(total, "conversation", limit);
    TruncatedLength(m.content, limit, "conversation");
    NoticeLength(total, "conversation", limit, total);
    SmallPowers();
    MaxStringDigits();
    WidthBelowPower(total, 19);
    WidthMonotone(limit, total);
    assert usable == limit - NoticeBudget(total, "conversation", limit);
    WidthMonotone(usable, limit);
    WidthMonotone(total - usable, total);
    if total == limit + 1 {
      WidthBelowPower(total - usable, 3);
      WidthIs(2000, 4);
      WidthMonotone(2000, total);
    }
  }

  lemma SmallPowers()
    ensures Power10(3) == 1000 && Power10(4) == 10000
  {
  }

  /** Turns that all fit, or a short newest turn with only empty ones before it. */
  predicate KeptWhole(turns: seq<Message>, room: int) {
    turns == [] || TotalSize(turns) <= room || TotalSize(turns) == Size(turns[|turns| - 1]) <= 2000
  }

  lemma KeptWholeIff(turns: seq<Message>, room: int)
    requires forall i :: 0 <= i < |turns| ==> Size(turns[i]) <= MAX_STRING
    ensures Keep(turns, room, false) == turns <==> KeptWhole(turns, room)
  {
    hide Squeezed, Size, TotalSize;
    if turns != [] {
      var older, newest := turns[..|turns| - 1], turns[|turns| - 1];
      assert turns == older + [newest];
      TotalSizeConcat(older, [newest]);
      SingleSize(newest);
      SizeNotNegative(newest);
      if Size(newest) <= room {
        OlderAllKeptIff(older, room - Size(newest));
        LastSplits(Keep(older, room - Size(newest), true), newest, older, newest);
      } else {
        OlderAllKeptIff(older, 0);
        SqueezedUnchangedIff(newest, room);
        LastSplits(Keep(older, 0, true), Squeezed(newest, room), older, newest);
      }
    }
  }

  lemma LastSplits(a: seq<Message>, x: Message, b: seq<Message>, y: Message)
    ensures a + [x] == b + [y] <==> a == b && x == y
  {
    if a + [x] == b + [y] {
      assert |a| == |b| && (a + [x])[..|a|] == a && (b + [y])[..|b|] == b;
      assert (a + [x])[|a|] == x;
    }
  }

  lemma OlderAllKeptIff(older: seq<Message>, left: nat)
    ensures Keep(older, left, true) == older <==> TotalSize(older) <= left
  {
    hide Keep, TotalSize;
    OlderTurnsFit(older, left);
    if TotalSize(older) <= left {
      NewerAllKept([], older, left, true);
      assert [] + older == older;
      NothingKept(left - TotalSize(older));
    }
  }

  lemma SqueezedUnchangedIff(m: Message, room: int)
    requires room < Size(m) <= MAX_STRING
    ensures Squeezed(m, room) == m <==> Size(m) <= 2000
  {
    hide Cut;
    if Size(m) > Max(room, MIN_NEWEST) {
      CutNewestDiffers(m, room);
    }
  }

  /** What is left for a turn older than all of `turns`. */
  function RoomBefore(turns: seq<Message>, room: int): int
    requires turns != []
  {
    if Size(turns[|turns| - 1]) <= room then room - TotalSize(Keep(turns, room, false)) else 0
  }

  lemma OldestTurn(m: Message, turns: seq<Message>, room: int)
    requires turns != []
    ensures Keep([m] + turns, room, false)
            == (if Size(m) <= RoomBefore(turns, room) then [m] else []) + Keep(turns, room, false)
  {
    hide Size, Squeezed, TotalSize;
    var older, newest := turns[..|turns| - 1], turns[|turns| - 1];
    assert ([m] + turns)[..|turns|] == [m] + older;
    var left := if Size(newest) <= room then room - Size(newest) else 0;
    var kept := Keep(older, left, true);
    TurnKeptIff([], m, older, left);
    assert [] + [m] + older == [m] + older;
    OlderTurnsFit(older, left);
    TotalSizeConcat(kept, [newest]);
    SingleSize(newest);
    NothingKept(left - TotalSize(kept) - Size(m));
    NothingKept(left - TotalSize(kept));
    assert [] + [m] == [m] && [] + kept == kept;
  }

  /** The turns come back with their marker as they were: all kept, or all but a first one that reads
      like the marker put in its place. */
  lemma MarkedUnchangedIff(turns: seq<Message>, room: int)
    requires forall i :: 0 <= i < |turns| ==> Size(turns[i]) <= MAX_STRING
    ensures var kept := Keep(turns, room, false);
      && |kept| <= |turns|
      && (Marked(kept, |turns| - |kept|) == turns
          <==> KeptWhole(turns, room)
               || (|turns| > 1 && turns[0] == Marker(1) && KeptWhole(turns[1..], room)))
  {
    hide Keep, Marker, Size, TotalSize, KeptWhole;
    var kept := Keep(turns, room, false);
    KeepNoMore(turns, room, false);
    KeptWholeIff(turns, room);
    if |turns| > 1 {
      var first, rest := turns[0], turns[1..];
      assert turns == [first] + rest;
      KeptWholeIff(rest, room);
      OldestTurn(first, rest, room);
      var others := Keep(rest, room, false);
      if kept == [first] + others {
        if first == Marker(1) && kept == rest {
          MarkerNotDropped(rest, room);
        }
      } else {
        assert kept == [] + others == others;
      }
    } else if |turns| == 1 {
      assert turns == [turns[0]];
      SingleKept(turns[0], room);
    }
  }

  /** When a first turn is kept, no turn as long as it was dropped behind it. */
  lemma MarkerNotDropped(rest: seq<Message>, room: int)
    requires forall i :: 0 <= i < |rest| ==> Size(rest[i]) <= MAX_STRING
    requires rest != [] && rest == [Marker(1)] + Keep(rest, room, false)
    ensures Size(Marker(1)) > RoomBefore(rest, room)
  {
    hide Keep, TotalSize;
    var others := Keep(rest, room, false);
    MarkerNotEmpty(1);
    TotalSizeConcat([Marker(1)], others);
    SingleSize(Marker(1));
    if TotalSize(rest) <= room {
      KeptWholeIff(rest, room);
    }
  }

  lemma MarkerNotEmpty(dropped: nat)
    ensures Size(Marker(dropped)) > 0
  {
    hide Decimal;
  }

  lemma SingleKept(m: Message, room: int)
    ensures |Keep([m], room, false)| == 1
  {
    hide Size, Squeezed;
    assert [m][..0] == [];
  }

  /** No system message stands behind a turn. */
  predicate SystemFirst(messages: seq<Message>) {
    forall i, j :: 0 <= i < j < |messages| && messages[j].role == System ==> messages[i].role == System
  }

  lemma {:induction false} SystemFirstIff(messages: seq<Message>)
    ensures OfRole(messages, true) + OfRole(messages, false) == messages <==> SystemFirst(messages)
    decreases |messages|
  {
    var system, turns := OfRole(messages, true), OfRole(messages, false);
    OfRoleIsOfRole(messages, true);
    OfRoleIsOfRole(messages, false);
    if system + turns == messages {
      forall i, j | 0 <= i < j < |messages| && messages[j].role == System
        ensures messages[i].role == System
      {
        assert j < |system|;
      }
    }
    if SystemFirst(messages) && messages != [] {
      var front, last := messages[..|messages| - 1], messages[|messages| - 1];
      SystemFirstIff(front);
      if last.role == System {
        OfRoleOfAll(messages, true);
        assert messages + [] == messages;
      } else {
        assert system + turns == OfRole(front, true) + OfRole(front, false) + [last];
      }
    }
  }

  /** A prompt is sent unchanged if and only if it fits, or its system messages stand first and of its
      turns only the newest has any text and no more than 2000 characters of it, or only the first is
      missing and reads like the marker. */
  lemma SentUnchangedIff(messages: seq<Message>, limit: int)
    requires limit > 0 && forall i :: 0 <= i < |messages| ==> Size(messages[i]) <= MAX_STRING
    ensures var turns := OfRole(messages, false);
      var room := limit - TotalSize(OfRole(messages, true));
      Enforced(messages, limit) == Ok(messages)
      <==> TotalSize(messages) <= limit
           || (SystemFirst(messages)
               && (KeptWhole(turns, room)
                   || (|turns| > 1 && turns[0] == Marker(1) && KeptWhole(turns[1..], room))))
  {
    hide OfRole, Keep, TotalSize, Marker, Marked, KeptWhole, SystemFirst;
    var system, turns := OfRole(messages, true), OfRole(messages, false);
    var room := limit - TotalSize(system);
    OfRoleBounded(messages, false);
    OfRoleIsOfRole(messages, true);
    OfRoleIsOfRole(messages, false);
    KeepNoMore(turns, room, false);
    var kept := Keep(turns, room, false);
    var marked := Marked(kept, |turns| - |kept|);
    MarkedUnchangedIff(turns, room);
    SystemFirstIff(messages);
    KeptAreTurns(turns, room, false);
    MarkedAreTurns(kept, |turns| - |kept|);
    OfRoleConcat(system, marked, false);
    OfRoleOfAll(system, true);
    OfRoleOfAll(marked, false);
    assert [] + marked == marked;
  }

  /** It happens: a system prompt of five characters and a turn of two go out whole under a limit of four. */
  lemma ShortPromptExceedsLimit()
    ensures var prompt := [Message(System, "Guard"), Message(User, "hi")];
      TotalSize(prompt) == 7 && Enforced(prompt, 4) == Ok(prompt)
  {
    hide Keep, Enforced, TotalSize, Marker, OfRole;
    var system, turn := Message(System, "Guard"), Message(User, "hi");
    var prompt := [system, turn];
    assert prompt == [system] + [turn] && [] + [turn] == [turn] && [system] + [] == [system];
    TotalSizeConcat([system], [turn]);
    SingleSize(system);
    SingleSize(turn);
    OfRoleOfAll([system], true);
    OfRoleOfAll([turn], false);
    OfRoleConcat([system], [turn], true);
    OfRoleConcat([system], [turn], false);
    SentUnchangedIff(prompt, 4);
  }
}
