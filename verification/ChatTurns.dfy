/** Chat messages, and the merging of adjacent turns of one role. */
module ChatTurns {
  datatype Role = System | User | Assistant

  datatype Message = Message(role: Role, content: string)

  function Size(m: Message): nat {
    |m.content|
  }

  function TotalSize(ms: seq<Message>): nat
    decreases |ms|
  {
    if ms == [] then 0 else TotalSize(ms[..|ms| - 1]) + Size(ms[|ms| - 1])
  }

  lemma {:induction false} TotalSizeConcat(a: seq<Message>, b: seq<Message>)
    ensures TotalSize(a + b) == TotalSize(a) + TotalSize(b)
    decreases |b|
  {
    if b == [] {
      assert a + b == a;
    } else {
      assert (a + b)[..|a + b| - 1] == a + b[..|b| - 1];
      TotalSizeConcat(a, b[..|b| - 1]);
    }
  }

  const GAP := "\n\n"

  /** `out` extended by one more message. */
  function Append(out: seq<Message>, m: Message): seq<Message> {
    if out != [] && out[|out| - 1].role == m.role
    then out[|out| - 1 := Message(m.role, out[|out| - 1].content + GAP + m.content)]
    else out + [m]
  }

  function Coalesce(ms: seq<Message>): seq<Message>
    decreases |ms|
  {
    if ms == [] then [] else Append(Coalesce(ms[..|ms| - 1]), ms[|ms| - 1])
  }

  method CoalesceTurns(messages: seq<Message>) returns (out: seq<Message>)
    ensures out == Coalesce(messages)
  {
    out := [];
    for i := 0 to |messages|
      invariant out == Coalesce(messages[..i])
    {
      var message := messages[i];
      assert messages[..i + 1][..i] == messages[..i];
      if out != [] && out[|out| - 1].role == message.role {
        var merged := out[|out| - 1].content + GAP + message.content;
        out := out[|out| - 1 := Message(message.role, merged)];
      } else {
        out := out + [message];
      }
    }
    assert messages[..|messages|] == messages;
  }

  ghost predicate Alternates(ms: seq<Message>) {
    forall i :: 0 < i < |ms| ==> ms[i - 1].role != ms[i].role
  }

  lemma AppendKeepsAlternation(out: seq<Message>, m: Message)
    requires Alternates(out)
    ensures Alternates(Append(out, m))
    ensures TotalSize(Append(out, m)) == TotalSize(out) + Size(m) + |GAP| * (|out| + 1 - |Append(out, m)|)
  {
    if out != [] && out[|out| - 1].role == m.role {
      assert Append(out, m)[..|out| - 1] == out[..|out| - 1];
    } else {
      assert (out + [m])[..|out|] == out;
    }
  }

  /** No two neighbours of the result share a role; nothing is lost but one gap is added for
      every turn that was merged away. */
  lemma {:induction false} CoalescedTurnsAlternate(ms: seq<Message>)
    ensures Alternates(Coalesce(ms)) && |Coalesce(ms)| <= |ms|
    ensures TotalSize(Coalesce(ms)) == TotalSize(ms) + |GAP| * (|ms| - |Coalesce(ms)|)
    decreases |ms|
  {
    hide Alternates;
    if ms == [] {
      NoTurnsAlternate();
    } else {
      CoalescedTurnsAlternate(ms[..|ms| - 1]);
      AppendKeepsAlternation(Coalesce(ms[..|ms| - 1]), ms[|ms| - 1]);
    }
  }

  lemma NoTurnsAlternate()
    ensures Alternates([])
  {
  }

  // ----- nothing is reordered ---------------------------------------------------------------

  datatype Glyph = Turn(role: Role) | Text(c: char)

  function Texts(s: string): (r: seq<Glyph>)
    ensures |r| == |s|
  {
    seq(|s|, i requires 0 <= i < |s| => Text(s[i]))
  }

  /** What stands between the messages so far and the next one. */
  function Break(ms: seq<Message>, role: Role): seq<Glyph> {
    if ms != [] && ms[|ms| - 1].role == role then Texts(GAP) else [Turn(role)]
  }

  /** The conversation as it reads: a mark where the speaker changes, a gap where he goes on. */
  function Transcript(ms: seq<Message>): seq<Glyph>
    decreases |ms|
  {
    if ms == [] then []
    else
      var front, m := ms[..|ms| - 1], ms[|ms| - 1];
      Transcript(front) + Break(front, m.role) + Texts(m.content)
  }

  lemma AppendReadsOn(out: seq<Message>, m: Message)
    ensures Transcript(Append(out, m)) == Transcript(out) + Break(out, m.role) + Texts(m.content)
    ensures Append(out, m)[|Append(out, m)| - 1].role == m.role
  {
    var longer := Append(out, m);
    if out != [] && out[|out| - 1].role == m.role {
      var front, last := out[..|out| - 1], out[|out| - 1].content;
      assert longer[..|longer| - 1] == front;
      assert Texts(last + GAP + m.content) == Texts(last) + Texts(GAP) + Texts(m.content);
    } else {
      assert longer[..|longer| - 1] == out;
    }
  }

  /** Coalesced turns read exactly like the turns they were made from. */
  lemma {:induction false} CoalescingKeepsTranscript(ms: seq<Message>)
    ensures Transcript(Coalesce(ms)) == Transcript(ms)
    ensures ms != [] ==> Coalesce(ms) != [] && Coalesce(ms)[|Coalesce(ms)| - 1].role == ms[|ms| - 1].role
    ensures ms == [] ==> Coalesce(ms) == []
    decreases |ms|
  {
    hide Append, Texts;
    if ms != [] {
      var front, m := ms[..|ms| - 1], ms[|ms| - 1];
      CoalescingKeepsTranscript(front);
      AppendReadsOn(Coalesce(front), m);
    }
  }

  lemma AlternatingBreak(ms: seq<Message>)
    requires Alternates(ms) && ms != []
    ensures Alternates(ms[..|ms| - 1]) && Break(ms[..|ms| - 1], ms[|ms| - 1].role) == [Turn(ms[|ms| - 1].role)]
  {
  }

  lemma LastTurnSplits(a: seq<Glyph>, r: Role, s: string, a': seq<Glyph>, r': Role, s': string)
    requires a + [Turn(r)] + Texts(s) == a' + [Turn(r')] + Texts(s')
    ensures a == a' && r == r' && s == s'
  {
    var x, y := a + [Turn(r)] + Texts(s), a' + [Turn(r')] + Texts(s');
    assert x[|a|] == Turn(r) && y[|a'|] == Turn(r');
    assert forall i :: |a| < i < |x| ==> x[i] == Text(s[i - |a| - 1]);
    assert forall i :: |a'| < i < |y| ==> y[i] == Text(s'[i - |a'| - 1]);
    assert |a| == |a'|;
    assert a == x[..|a|] == y[..|a'|] == a';
    assert forall i :: 0 <= i < |s| ==> Text(s[i]) == x[|a| + 1 + i] == Text(s'[i]);
  }

  lemma {:induction false} AlternatingTranscriptsDiffer(x: seq<Message>, y: seq<Message>)
    requires Alternates(x) && Alternates(y) && Transcript(x) == Transcript(y)
    ensures x == y
    decreases |x|
  {
    hide Alternates, Break, Texts;
    if x == [] || y == [] {
      TranscriptSilent(x);
      TranscriptSilent(y);
    } else {
      var m, n := x[|x| - 1], y[|y| - 1];
      AlternatingBreak(x);
      AlternatingBreak(y);
      LastTurnSplits(Transcript(x[..|x| - 1]), m.role, m.content, Transcript(y[..|y| - 1]), n.role, n.content);
      AlternatingTranscriptsDiffer(x[..|x| - 1], y[..|y| - 1]);
      assert x == x[..|x| - 1] + [m] && y == y[..|y| - 1] + [n];
    }
  }

  lemma {:induction false} TranscriptSilent(ms: seq<Message>)
    ensures Transcript(ms) == [] <==> ms == []
    decreases |ms|
  {
  }

  /** The coalesced turns are the one and only list that alternates and reads like the original. */
  lemma CoalescedIsTheOnlyOne(ms: seq<Message>, out: seq<Message>)
    ensures Alternates(out) && Transcript(out) == Transcript(ms) <==> out == Coalesce(ms)
  {
    hide Alternates, Transcript, Coalesce;
    CoalescedTurnsAlternate(ms);
    CoalescingKeepsTranscript(ms);
    if Alternates(out) && Transcript(out) == Transcript(ms) {
      AlternatingTranscriptsDiffer(out, Coalesce(ms));
    }
  }

  /** Turns that already alternate are left as they are. */
  lemma {:induction false} AlternatingTurnsStay(ms: seq<Message>)
    requires Alternates(ms)
    ensures Coalesce(ms) == ms
    decreases |ms|
  {
    if ms != [] {
      AlternatingTurnsStay(ms[..|ms| - 1]);
    }
  }

  /** Coalescing early changes nothing: a prefix may be merged before the rest arrives. */
  lemma {:induction false} CoalesceInPieces(a: seq<Message>, b: seq<Message>)
    ensures Coalesce(Coalesce(a) + b) == Coalesce(a + b)
    decreases |b|
  {
    if b == [] {
      CoalescedTurnsAlternate(a);
      AlternatingTurnsStay(Coalesce(a));
      assert Coalesce(a) + b == Coalesce(a) && a + b == a;
    } else {
      assert (a + b)[..|a + b| - 1] == a + b[..|b| - 1];
      assert (Coalesce(a) + b)[..|Coalesce(a) + b| - 1] == Coalesce(a) + b[..|b| - 1];
      CoalesceInPieces(a, b[..|b| - 1]);
    }
  }

  // ----- what becomes of a run of turns --------------------------------------------------------

  /** One speaker's turns in a row. */
  function Said(role: Role, contents: seq<string>): seq<Message> {
    seq(|contents|, i requires 0 <= i < |contents| => Message(role, contents[i]))
  }

  /** Paragraphs with a blank line between them. */
  function Paragraphs(contents: seq<string>): string
    decreases |contents|
  {
    if contents == [] then ""
    else if |contents| == 1 then contents[0]
    else contents[0] + "\n\n" + Paragraphs(contents[1..])
  }

  lemma {:induction false} ParagraphsSnoc(contents: seq<string>, last: string)
    requires contents != []
    ensures Paragraphs(contents + [last]) == Paragraphs(contents) + "\n\n" + last
    decreases |contents|
  {
    var rest := contents[1..];
    assert (contents + [last])[1..] == rest + [last];
    if rest == [] {
      assert Paragraphs([last]) == last;
    } else {
      ParagraphsSnoc(rest, last);
      var first, tail := contents[0] + "\n\n", Paragraphs(rest);
      assert first + (tail + "\n\n" + last) == (first + tail) + "\n\n" + last;
    }
  }

  lemma {:induction false} RunCoalesces(role: Role, contents: seq<string>)
    requires contents != []
    ensures Coalesce(Said(role, contents)) == [Message(role, Paragraphs(contents))]
    decreases |contents|
  {
    hide Paragraphs;
    var front, last := contents[..|contents| - 1], contents[|contents| - 1];
    var run := Said(role, contents);
    assert contents == front + [last];
    assert run[..|run| - 1] == Said(role, front);
    if front == [] {
      assert Coalesce(run[..|run| - 1]) == [];
      SingleParagraph(contents);
    } else {
      RunCoalesces(role, front);
      ParagraphsSnoc(front, last);
    }
  }

  lemma SingleParagraph(contents: seq<string>)
    requires |contents| == 1
    ensures Paragraphs(contents) == contents[0]
  {
  }

  /** Where the speaker changes, the two sides are merged on their own. */
  lemma {:induction false} CoalesceApart(a: seq<Message>, b: seq<Message>)
    requires a != [] && b != [] ==> a[|a| - 1].role != b[0].role
    ensures Coalesce(a + b) == Coalesce(a) + Coalesce(b)
    decreases |b|
  {
    hide Append, Coalesce, Transcript;
    if b == [] {
      assert a + b == a;
      NothingCoalesces();
      assert Coalesce(a) + [] == Coalesce(a);
    } else {
      var front, m := b[..|b| - 1], b[|b| - 1];
      assert a + b == (a + front) + [m] && b == front + [m];
      CoalesceApart(a, front);
      CoalesceSnoc(a + front, m);
      CoalesceSnoc(front, m);
      CoalescingKeepsTranscript(a);
      CoalescingKeepsTranscript(front);
      AppendApart(Coalesce(a), Coalesce(front), m);
    }
  }

  lemma CoalesceSnoc(ms: seq<Message>, m: Message)
    ensures Coalesce(ms + [m]) == Append(Coalesce(ms), m)
  {
    assert (ms + [m])[..|ms|] == ms;
  }

  lemma NothingCoalesces()
    ensures Coalesce([]) == []
  {
  }

  lemma AppendApart(a: seq<Message>, b: seq<Message>, m: Message)
    requires b == [] && a != [] ==> a[|a| - 1].role != m.role
    ensures Append(a + b, m) == a + Append(b, m)
  {
  }

  /** Every run of one speaker's turns, up to its neighbours, becomes one turn of that speaker: its
      contents in order, with a blank line between them. */
  lemma RunBecomesOneTurn(before: seq<Message>, role: Role, contents: seq<string>, after: seq<Message>)
    requires contents != []
    requires before != [] ==> before[|before| - 1].role != role
    requires after != [] ==> after[0].role != role
    ensures Coalesce(before + Said(role, contents) + after)
            == Coalesce(before) + [Message(role, Paragraphs(contents))] + Coalesce(after)
  {
    hide Coalesce, Paragraphs;
    var run := Said(role, contents);
    CoalesceApart(before + run, after);
    CoalesceApart(before, run);
    RunCoalesces(role, contents);
  }
}
