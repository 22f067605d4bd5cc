/**
 The claim guard on whole texts: splitting a text into sentences, and joining the sentences that are
 left with line breaks.
 */
module GuardedText {
  import opened Basics
  import opened ClaimGuard

  const LINE_BREAK := '\n'

  predicate Ends(c: char) {
    c in {'.', '!', '?'}
  }

  /** What counts as white space; a line break does, the ends of sentences do not. */
  datatype Blanks = Blanks(isBlank: char -> bool) {
    ghost predicate Valid() {
      isBlank(LINE_BREAK) && forall c :: Ends(c) ==> !isBlank(c)
    }
  }

  // ----- splitting ----------------------------------------------------------------------

  function BlankRun(x: Blanks, s: string): (n: nat)
    ensures n <= |s|
    ensures forall i :: 0 <= i < n ==> x.isBlank(s[i])
    ensures n < |s| ==> !x.isBlank(s[n])
    decreases |s|
  {
    if s != "" && x.isBlank(s[0]) then 1 + BlankRun(x, s[1..]) else 0
  }

  function LineBreakRun(s: string): (n: nat)
    ensures n <= |s|
    ensures forall i :: 0 <= i < n ==> s[i] == LINE_BREAK
    ensures n < |s| ==> s[n] != LINE_BREAK
    decreases |s|
  {
    if s != "" && s[0] == LINE_BREAK then 1 + LineBreakRun(s[1..]) else 0
  }

  predicate After(prev: Option<char>) {
    prev.Some? && Ends(prev.value)
  }

  /** The length of the separator that starts at `s`: all white space after the end of a sentence,
      elsewhere only line breaks. */
  function Separator(x: Blanks, prev: Option<char>, s: string): (n: nat)
    ensures n <= |s|
  {
    if After(prev) && BlankRun(x, s) > 0 then BlankRun(x, s) else LineBreakRun(s)
  }

  /** The pieces of `current + s`, where `current` was read already and ends with `prev`. */
  function Pieces(x: Blanks, prev: Option<char>, current: string, s: string): (r: seq<string>)
    ensures r != []
    decreases |s|
  {
    if s == "" then [current]
    else
      var n := Separator(x, prev, s);
      if n > 0 then [current] + Pieces(x, Some(s[n - 1]), "", s[n..])
      else Pieces(x, Some(s[0]), current + [s[0]], s[1..])
  }

  predicate IsBlankText(x: Blanks, s: string) {
    forall i :: 0 <= i < |s| ==> x.isBlank(s[i])
  }

  function DropBlank(x: Blanks, pieces: seq<string>): seq<string>
    decreases |pieces|
  {
    if pieces == [] then []
    else if IsBlankText(x, pieces[0]) then DropBlank(x, pieces[1..])
    else [pieces[0]] + DropBlank(x, pieces[1..])
  }

  function Split(x: Blanks, text: string): seq<string> {
    DropBlank(x, Pieces(x, None, "", text))
  }

  function Join(ss: seq<string>): string
    decreases |ss|
  {
    if ss == [] then ""
    else if |ss| == 1 then ss[0]
    else ss[0] + [LINE_BREAK] + Join(ss[1..])
  }

  // ----- what a split looks like -----------------------------------------------------------

  /** No place inside `s` where a text would be split. */
  predicate Unbroken(x: Blanks, s: string) {
    && (forall i :: 0 <= i < |s| ==> s[i] != LINE_BREAK)
    && (forall i :: 0 < i < |s| ==> !(Ends(s[i - 1]) && x.isBlank(s[i])))
  }

  predicate EndsSentence(s: string) {
    s != "" && Ends(s[|s| - 1])
  }

  predicate Indented(x: Blanks, s: string) {
    s != "" && x.isBlank(s[0])
  }

  /** Sentences as a split yields them: none is blank or broken, and none that follows the end of a
      sentence is indented. */
  ghost predicate Clean(x: Blanks, ss: seq<string>) {
    && (forall i :: 0 <= i < |ss| ==> Unbroken(x, ss[i]) && !IsBlankText(x, ss[i]))
    && (forall i :: 0 < i < |ss| ==> !(EndsSentence(ss[i - 1]) && Indented(x, ss[i])))
  }

  /** The same before blank pieces are dropped: after the end of a sentence comes either a piece that
      starts with its first word, or nothing at all. */
  ghost predicate Tidy(x: Blanks, pieces: seq<string>) {
    && (forall i :: 0 <= i < |pieces| ==> Unbroken(x, pieces[i]))
    && (forall i :: 0 < i < |pieces| && EndsSentence(pieces[i - 1]) ==>
         !Indented(x, pieces[i]) && (pieces[i] == "" ==> i == |pieces| - 1))
  }

  lemma TidyCons(x: Blanks, first: string, rest: seq<string>)
    requires Tidy(x, rest) && Unbroken(x, first)
    requires rest != [] && (EndsSentence(first) ==> !Indented(x, rest[0]) && (rest[0] == "" ==> |rest| == 1))
    ensures Tidy(x, [first] + rest)
  {
    hide Unbroken, EndsSentence, Indented;
    var all := [first] + rest;
    forall i | 0 < i < |all| && EndsSentence(all[i - 1])
      ensures !Indented(x, all[i]) && (all[i] == "" ==> i == |all| - 1)
    {
      assert all[i] == rest[i - 1];
      if i > 1 {
        assert all[i - 1] == rest[i - 2];
      }
    }
  }

  lemma UnbrokenSnoc(x: Blanks, current: string, c: char)
    requires Unbroken(x, current) && c != LINE_BREAK
    requires current != "" ==> !(Ends(current[|current| - 1]) && x.isBlank(c))
    ensures Unbroken(x, current + [c])
  {
  }

  lemma {:induction false} PiecesTidy(x: Blanks, prev: Option<char>, current: string, s: string)
    requires x.Valid() && Unbroken(x, current)
    requires current != "" ==> prev == Some(current[|current| - 1])
    requires current == "" ==> !After(prev)
    ensures Tidy(x, Pieces(x, prev, current, s))
    ensures current <= Pieces(x, prev, current, s)[0]
    ensures s != "" && Separator(x, prev, s) == 0 ==> current + [s[0]] <= Pieces(x, prev, current, s)[0]
    ensures s == "" ==> Pieces(x, prev, current, s) == [current]
    decreases |s|
  {
    hide Unbroken, Tidy, Indented;
    if s == "" {
      TidyAlone(x, current);
    } else {
      var n := Separator(x, prev, s);
      if n > 0 {
        var c, rest := s[n - 1], s[n..];
        assert x.isBlank(c);
        NothingUnbroken(x);
        PiecesTidy(x, Some(c), "", rest);
        var pieces := Pieces(x, Some(c), "", rest);
        if rest != "" {
          assert rest[0] == s[n] && rest[0] != LINE_BREAK;
          assert Separator(x, Some(c), rest) == 0;
          assert EndsSentence(current) ==> !x.isBlank(rest[0]);
          NotIndented(x, pieces[0], rest[0]);
        } else {
          NothingIndented(x);
        }
        TidyCons(x, current, pieces);
      } else {
        UnbrokenSnoc(x, current, s[0]);
        PiecesTidy(x, Some(s[0]), current + [s[0]], s[1..]);
      }
    }
  }

  lemma TidyAlone(x: Blanks, current: string)
    requires Unbroken(x, current)
    ensures Tidy(x, [current])
  {
  }

  lemma NothingUnbroken(x: Blanks)
    ensures Unbroken(x, "")
  {
  }

  lemma NothingIndented(x: Blanks)
    ensures !Indented(x, "")
  {
  }

  lemma NotIndented(x: Blanks, piece: string, c: char)
    requires "" + [c] <= piece
    ensures Indented(x, piece) <==> x.isBlank(c)
    ensures piece != ""
  {
    assert piece[0] == ("" + [c])[0];
  }

  lemma {:induction false} DroppingCleans(x: Blanks, pieces: seq<string>)
    requires x.Valid() && Tidy(x, pieces)
    ensures Clean(x, DropBlank(x, pieces))
    ensures pieces != [] && pieces[0] != "" && !Indented(x, pieces[0]) ==>
              DropBlank(x, pieces) != [] && DropBlank(x, pieces)[0] == pieces[0]
    ensures pieces == [""] ==> DropBlank(x, pieces) == []
    decreases |pieces|
  {
    hide Unbroken;
    if pieces != [] {
      var first, rest := pieces[0], pieces[1..];
      TidyTail(x, pieces);
      DroppingCleans(x, rest);
      if !IsBlankText(x, first) {
        var left := DropBlank(x, rest);
        assert EndsSentence(first) && rest != [] ==> !Indented(x, rest[0]) && (rest[0] == "" ==> rest == [""]);
        assert EndsSentence(first) && left != [] ==> !Indented(x, left[0]);
        CleanCons(x, first, left);
      }
    }
  }

  lemma TidyTail(x: Blanks, pieces: seq<string>)
    requires pieces != [] && Tidy(x, pieces)
    ensures Tidy(x, pieces[1..])
    ensures |pieces| > 1 && EndsSentence(pieces[0]) ==>
              !Indented(x, pieces[1]) && (pieces[1] == "" ==> |pieces| == 2)
  {
    hide Unbroken, EndsSentence, Indented;
    var rest := pieces[1..];
    forall i | 0 < i < |rest| && EndsSentence(rest[i - 1])
      ensures !Indented(x, rest[i]) && (rest[i] == "" ==> i == |rest| - 1)
    {
      assert rest[i - 1] == pieces[i] && rest[i] == pieces[i + 1];
    }
    if |pieces| > 1 && EndsSentence(pieces[0]) {
      assert pieces[1 - 1] == pieces[0];
    }
  }

  lemma CleanCons(x: Blanks, first: string, rest: seq<string>)
    requires Clean(x, rest) && Unbroken(x, first) && !IsBlankText(x, first)
    requires rest != [] ==> !(EndsSentence(first) && Indented(x, rest[0]))
    ensures Clean(x, [first] + rest)
  {
    hide Unbroken, IsBlankText, EndsSentence, Indented;
    var all := [first] + rest;
    forall i | 0 < i < |all|
      ensures !(EndsSentence(all[i - 1]) && Indented(x, all[i]))
    {
      assert all[i] == rest[i - 1];
      if i > 1 {
        assert all[i - 1] == rest[i - 2];
      }
    }
  }

  lemma SplitIsClean(x: Blanks, text: string)
    requires x.Valid()
    ensures Clean(x, Split(x, text))
  {
    NothingUnbroken(x);
    PiecesTidy(x, None, "", text);
    DroppingCleans(x, Pieces(x, None, "", text));
  }

  // ----- nothing but white space is lost ---------------------------------------------------------

  /** What of a text is not white space. */
  function Ink(x: Blanks, s: string): string
    decreases |s|
  {
    if s == "" then "" else (if x.isBlank(s[0]) then "" else [s[0]]) + Ink(x, s[1..])
  }

  function Flat(ss: seq<string>): string
    decreases |ss|
  {
    if ss == [] then "" else ss[0] + Flat(ss[1..])
  }

  lemma {:induction false} InkConcat(x: Blanks, a: string, b: string)
    ensures Ink(x, a + b) == Ink(x, a) + Ink(x, b)
    decreases |a|
  {
    if a == "" {
      assert a + b == b;
    } else {
      assert (a + b)[1..] == a[1..] + b;
      InkConcat(x, a[1..], b);
    }
  }

  lemma {:induction false} BlankHasNoInk(x: Blanks, s: string)
    requires IsBlankText(x, s)
    ensures Ink(x, s) == ""
    decreases |s|
  {
    if s != "" {
      BlankHasNoInk(x, s[1..]);
    }
  }

  lemma {:induction false} PiecesKeepInk(x: Blanks, prev: Option<char>, current: string, s: string)
    requires x.Valid()
    ensures Ink(x, Flat(Pieces(x, prev, current, s))) == Ink(x, current) + Ink(x, s)
    decreases |s|
  {
    hide Ink, Separator;
    BlankHasNoInk(x, "");
    if s == "" {
      assert current + "" == current;
    } else {
      var n := Separator(x, prev, s);
      if n > 0 {
        var rest := s[n..];
        SeparatorIsBlank(x, prev, s);
        BlankHasNoInk(x, s[..n]);
        assert s == s[..n] + rest;
        InkConcat(x, s[..n], rest);
        PiecesKeepInk(x, Some(s[n - 1]), "", rest);
        FlatCons(current, Pieces(x, Some(s[n - 1]), "", rest));
        InkConcat(x, current, Flat(Pieces(x, Some(s[n - 1]), "", rest)));
      } else {
        assert s == [s[0]] + s[1..];
        InkConcat(x, [s[0]], s[1..]);
        InkConcat(x, current, [s[0]]);
        PiecesKeepInk(x, Some(s[0]), current + [s[0]], s[1..]);
      }
    }
  }

  lemma SeparatorIsBlank(x: Blanks, prev: Option<char>, s: string)
    requires x.Valid()
    ensures IsBlankText(x, s[..Separator(x, prev, s)])
  {
  }

  lemma FlatCons(first: string, rest: seq<string>)
    ensures Flat([first] + rest) == first + Flat(rest)
  {
    assert ([first] + rest)[1..] == rest;
  }

  lemma {:induction false} DroppingKeepsInk(x: Blanks, pieces: seq<string>)
    ensures Ink(x, Flat(DropBlank(x, pieces))) == Ink(x, Flat(pieces))
    decreases |pieces|
  {
    hide Ink, IsBlankText;
    if pieces != [] {
      var first, rest := pieces[0], pieces[1..];
      DroppingKeepsInk(x, rest);
      InkConcat(x, first, Flat(rest));
      if IsBlankText(x, first) {
        BlankHasNoInk(x, first);
      } else {
        FlatCons(first, DropBlank(x, rest));
        InkConcat(x, first, Flat(DropBlank(x, rest)));
      }
    }
  }

  /** Splitting a text loses nothing but white space, and keeps the order of what is left. */
  lemma SplitKeepsInk(x: Blanks, text: string)
    requires x.Valid()
    ensures Ink(x, Flat(Split(x, text))) == Ink(x, text)
  {
    BlankHasNoInk(x, "");
    PiecesKeepInk(x, None, "", text);
    DroppingKeepsInk(x, Pieces(x, None, "", text));
  }

  // ----- splitting what was joined -----------------------------------------------------------

  lemma ReadOne(x: Blanks, prev: Option<char>, current: string, c: char, rest: string)
    requires c != LINE_BREAK && !(After(prev) && x.isBlank(c))
    ensures Pieces(x, prev, current, [c] + rest) == Pieces(x, Some(c), current + [c], rest)
  {
    assert ([c] + rest)[1..] == rest;
    assert Separator(x, prev, [c] + rest) == 0;
  }

  lemma UnbrokenTail(x: Blanks, s: string)
    requires Unbroken(x, s) && s != ""
    ensures s[0] != LINE_BREAK && Unbroken(x, s[1..])
    ensures |s| > 1 ==> !(After(Some(s[0])) && x.isBlank(s[1]))
  {
    var more := s[1..];
    forall i | 0 < i < |more|
      ensures !(Ends(more[i - 1]) && x.isBlank(more[i]))
    {
      assert more[i - 1] == s[i] && more[i] == s[i + 1];
    }
    if |s| > 1 {
      assert s[1 - 1] == s[0];
    }
  }

  lemma {:induction false} ReadThrough(x: Blanks, prev: Option<char>, current: string, s: string, rest: string)
    requires Unbroken(x, s) && s != "" && !(After(prev) && x.isBlank(s[0]))
    ensures Pieces(x, prev, current, s + rest) == Pieces(x, Some(s[|s| - 1]), current + s, rest)
    decreases |s|
  {
    hide Pieces, Unbroken, After;
    var c, more := s[0], s[1..];
    UnbrokenTail(x, s);
    assert s + rest == [c] + (more + rest);
    ReadOne(x, prev, current, c, more + rest);
    if more == "" {
      assert s == [c] && more + rest == rest;
    } else {
      ReadThrough(x, Some(c), current + [c], more, rest);
      assert current + [c] + more == current + s;
    }
  }

  lemma BreakIsSeparator(x: Blanks, last: char, rest: string)
    requires x.Valid() && rest != "" && rest[0] != LINE_BREAK && !(Ends(last) && x.isBlank(rest[0]))
    ensures Separator(x, Some(last), [LINE_BREAK] + rest) == 1
  {
    var s := [LINE_BREAK] + rest;
    assert s[1..] == rest;
    assert BlankRun(x, s) == 1 + BlankRun(x, rest);
    assert LineBreakRun(s) == 1 + LineBreakRun(rest);
  }

  lemma {:induction false} PiecesOfJoined(x: Blanks, prev: Option<char>, ss: seq<string>)
    requires x.Valid() && Clean(x, ss) && ss != [] && !(After(prev) && Indented(x, ss[0]))
    ensures Pieces(x, prev, "", Join(ss)) == ss
    decreases |ss|
  {
    hide Separator, Pieces, Clean, Join, Unbroken, IsBlankText;
    var first, tail := ss[0], ss[1..];
    CleanHead(x, ss);
    JoinCons(ss);
    assert "" + first == first;
    if |ss| == 1 {
      assert first + "" == first;
      ReadThrough(x, prev, "", first, "");
      LastPiece(x, Some(first[|first| - 1]), first);
    } else {
      CleanTail(x, ss);
      CleanHead(x, tail);
      var rest := Join(tail);
      JoinStarts(x, tail);
      ReadThrough(x, prev, "", first, [LINE_BREAK] + rest);
      BreakIsSeparator(x, first[|first| - 1], rest);
      NextPiece(x, first[|first| - 1], first, rest);
      PiecesOfJoined(x, Some(LINE_BREAK), tail);
    }
  }

  lemma CleanHead(x: Blanks, ss: seq<string>)
    requires Clean(x, ss) && ss != []
    ensures Unbroken(x, ss[0]) && ss[0] != ""
  {
  }

  lemma JoinCons(ss: seq<string>)
    requires ss != []
    ensures Join(ss) == if |ss| == 1 then ss[0] else ss[0] + ([LINE_BREAK] + Join(ss[1..]))
  {
  }

  lemma LastPiece(x: Blanks, prev: Option<char>, current: string)
    ensures Pieces(x, prev, current, "") == [current]
  {
  }

  lemma NextPiece(x: Blanks, last: char, current: string, rest: string)
    requires Separator(x, Some(last), [LINE_BREAK] + rest) == 1
    ensures Pieces(x, Some(last), current, [LINE_BREAK] + rest) == [current] + Pieces(x, Some(LINE_BREAK), "", rest)
  {
    assert ([LINE_BREAK] + rest)[1..] == rest;
  }

  lemma CleanTail(x: Blanks, ss: seq<string>)
    requires Clean(x, ss) && |ss| > 1
    ensures Clean(x, ss[1..]) && !(EndsSentence(ss[0]) && Indented(x, ss[1]))
  {
    hide Unbroken, IsBlankText, EndsSentence, Indented;
    var tail := ss[1..];
    forall i | 0 < i < |tail|
      ensures !(EndsSentence(tail[i - 1]) && Indented(x, tail[i]))
    {
      assert tail[i - 1] == ss[i] && tail[i] == ss[i + 1];
    }
    assert ss[1 - 1] == ss[0];
  }

  lemma JoinStarts(x: Blanks, ss: seq<string>)
    requires Clean(x, ss) && ss != []
    ensures Join(ss) != "" && Join(ss)[0] == ss[0][0] != LINE_BREAK
  {
  }

  lemma {:induction false} NothingDropped(x: Blanks, ss: seq<string>)
    requires forall i :: 0 <= i < |ss| ==> !IsBlankText(x, ss[i])
    ensures DropBlank(x, ss) == ss
    decreases |ss|
  {
    hide IsBlankText;
    if ss != [] {
      NothingDropped(x, ss[1..]);
    }
  }

  /** Joined sentences split into the same sentences exactly when they look like a split. */
  lemma SplitUndoesJoinIff(x: Blanks, ss: seq<string>)
    requires x.Valid()
    ensures Split(x, Join(ss)) == ss <==> Clean(x, ss)
  {
    hide Clean, DropBlank, Pieces, Join;
    SplitIsClean(x, Join(ss));
    if Clean(x, ss) {
      if ss == [] {
        NothingSplits(x);
      } else {
        PiecesOfJoined(x, None, ss);
        CleanNotBlank(x, ss);
        NothingDropped(x, ss);
      }
    }
  }

  lemma NothingSplits(x: Blanks)
    ensures Split(x, Join([])) == []
  {
    assert Pieces(x, None, "", "") == [""];
    assert DropBlank(x, [""]) == DropBlank(x, [""][1..]) == [];
  }

  lemma CleanNotBlank(x: Blanks, ss: seq<string>)
    requires Clean(x, ss)
    ensures forall i :: 0 <= i < |ss| ==> !IsBlankText(x, ss[i])
  {
  }

  // ----- the guard on texts ---------------------------------------------------------------------

  /** The text the guard gives back. */
  function Stripped(x: Blanks, lex: Lexicon, text: string, evidence: seq<string>): string {
    if IsBlankText(x, text) then text else Join(Rebuilt(lex, Split(x, text), evidence))
  }

  /** The guard as its callers use it: a blank text passes as it is, any other is split, checked and
      put together again. */
  method VerifyText(x: Blanks, lex: Lexicon, text: string, evidence: seq<string>)
    returns (g: GuardResult, stripped: string)
    ensures stripped == Stripped(x, lex, text, evidence)
    ensures g.accepted <==>
            IsBlankText(x, text)
            || forall i :: 0 <= i < |Split(x, text)| ==> !Unsupported(lex, Split(x, text), evidence, i)
    ensures var ss := if IsBlankText(x, text) then [] else Split(x, text);
      && g.claims == ClaimsUpTo(lex, ss, evidence, |ss|)
      && g.unsupported == UnsupportedUpTo(lex, ss, evidence, |ss|)
      && g.sentences == Rebuilt(lex, ss, evidence)
  {
    if IsBlankText(x, text) {
      return GuardResult(true, [], [], []), text;
    }
    g := VerifyClaims(lex, Split(x, text), evidence);
    stripped := Join(g.sentences);
  }

  /** The replacement is one sentence that ends with a full stop and is not indented. */
  ghost predicate OneSentence(x: Blanks, s: string) {
    Unbroken(x, s) && EndsSentence(s) && !Indented(x, s)
  }

  /** A kept sentence that is indented comes right after a replaced one. */
  ghost predicate IndentedAfterReplaced(x: Blanks, lex: Lexicon, ss: seq<string>, evidence: seq<string>) {
    exists i :: 0 < i < |ss| && Unsupported(lex, ss, evidence, i - 1) && !Unsupported(lex, ss, evidence, i)
      && Indented(x, ss[i])
  }

  lemma RebuiltCleanIff(x: Blanks, lex: Lexicon, ss: seq<string>, evidence: seq<string>)
    requires x.Valid() && OneSentence(x, lex.replacement) && Clean(x, ss)
    ensures Clean(x, Rebuilt(lex, ss, evidence)) <==> !IndentedAfterReplaced(x, lex, ss, evidence)
  {
    hide Unsupported, Unbroken;
    var r := Rebuilt(lex, ss, evidence);
    assert !IsBlankText(x, lex.replacement);
    if IndentedAfterReplaced(x, lex, ss, evidence) {
      var i :| 0 < i < |ss| && Unsupported(lex, ss, evidence, i - 1) && !Unsupported(lex, ss, evidence, i)
        && Indented(x, ss[i]);
      assert r[i - 1] == lex.replacement && r[i] == ss[i];
      assert EndsSentence(r[i - 1]) && Indented(x, r[i]);
    } else {
      forall i | 0 < i < |r|
        ensures !(EndsSentence(r[i - 1]) && Indented(x, r[i]))
      {
        assert !(EndsSentence(ss[i - 1]) && Indented(x, ss[i]));
      }
    }
  }

  /** A second pass reads the sentences the first one wrote if and only if no indented sentence was
      kept right behind a replaced one; it then accepts the text and gives it back unchanged. */
  lemma SecondPassReadsTheSameIff(x: Blanks, lex: Lexicon, text: string, evidence: seq<string>)
    requires x.Valid() && lex.Valid() && OneSentence(x, lex.replacement) && !IsBlankText(x, text)
    ensures var ss := Split(x, text);
      var once := Stripped(x, lex, text, evidence);
      && (Split(x, once) == Rebuilt(lex, ss, evidence) <==> !IndentedAfterReplaced(x, lex, ss, evidence))
      && (!IndentedAfterReplaced(x, lex, ss, evidence) ==>
           && Stripped(x, lex, once, evidence) == once
           && forall i :: 0 <= i < |Split(x, once)| ==> !Unsupported(lex, Split(x, once), evidence, i))
  {
    hide Clean, Split, Join, Rebuilt, Unsupported;
    var ss := Split(x, text);
    SplitIsClean(x, text);
    RebuiltCleanIff(x, lex, ss, evidence);
    SplitUndoesJoinIff(x, Rebuilt(lex, ss, evidence));
    GuardIsFixpoint(lex, ss, evidence);
  }

  /** Plain words without a break or the end of a sentence. */
  predicate Words(s: string) {
    forall i :: 0 <= i < |s| ==> s[i] != LINE_BREAK && !Ends(s[i])
  }

  lemma WordsUnbroken(x: Blanks, s: string)
    requires Words(s)
    ensures Unbroken(x, s) && !EndsSentence(s)
  {
  }

  /** Two lines, the second one indented, split into two sentences. */
  lemma TwoLines(x: Blanks, first: string, second: string)
    requires x.Valid() && Words(first) && Words(second) && !IsBlankText(x, first) && !IsBlankText(x, second)
    ensures Split(x, first + [LINE_BREAK] + second) == [first, second]
  {
    hide Split;
    var ss := [first, second];
    assert ss[1..] == [second];
    WordsUnbroken(x, first);
    WordsUnbroken(x, second);
    SplitUndoesJoinIff(x, ss);
  }

  /** A sentence ends at a full stop, an exclamation or a question mark that white space follows, and at
      no other character short of a line break. */
  lemma SplitsBehindIff(x: Blanks, first: string, c: char, blank: char, second: string)
    requires x.Valid() && Words(first) && Words(second) && !IsBlankText(x, second)
    requires c != '\n' && !x.isBlank(c) && blank != '\n' && x.isBlank(blank) && !Indented(x, second)
    ensures var text := first + [c, blank] + second;
      && (c == '.' || c == '!' || c == '?' ==> Split(x, text) == [first + [c], second])
      && (c != '.' && c != '!' && c != '?' ==> Split(x, text) == [text])
  {
    hide Split, Words, IsBlankText, Indented;
    if Ends(c) {
      SplitsBehind(x, first, c, blank, second);
    } else {
      SplitsNowhere(x, first, c, blank, second);
    }
  }

  lemma SplitsBehind(x: Blanks, first: string, c: char, blank: char, second: string)
    requires x.Valid() && Words(first) && Words(second) && !IsBlankText(x, second)
    requires Ends(c) && c != LINE_BREAK && x.isBlank(blank) && !Indented(x, second)
    ensures Split(x, first + [c, blank] + second) == [first + [c], second]
  {
    hide Pieces, DropBlank, Words, Unbroken, Indented, Separator;
    var text, front := first + [c, blank] + second, first + [c];
    WordsUnbroken(x, second);
    FrontUnbroken(x, first, c);
    NotBlank(x, front, |first|);
    assert text == front + ([blank] + second);
    assert "" + front == front && second + "" == second && "" + second == second;
    ReadThrough(x, None, "", front, [blank] + second);
    BlankIsSeparator(x, c, blank, front, second);
    ReadThrough(x, Some(blank), "", second, "");
    LastPiece(x, Some(second[|second| - 1]), second);
    assert [front] + [second] == [front, second];
    NothingDropped(x, [front, second]);
  }

  lemma SplitsNowhere(x: Blanks, first: string, c: char, blank: char, second: string)
    requires x.Valid() && Words(first) && Words(second) && x.isBlank(blank) && blank != LINE_BREAK
    requires !Ends(c) && c != LINE_BREAK && !x.isBlank(c)
    ensures Split(x, first + [c, blank] + second) == [first + [c, blank] + second]
  {
    hide Pieces, DropBlank, Words, Unbroken;
    var text := first + [c, blank] + second;
    NotBlank(x, text, |first|);
    TextUnbroken(x, first, c, blank, second);
    assert text + "" == text && "" + text == text;
    ReadThrough(x, None, "", text, "");
    LastPiece(x, Some(text[|text| - 1]), text);
    NothingDropped(x, [text]);
  }

  lemma NotBlank(x: Blanks, s: string, i: nat)
    requires i < |s| && !x.isBlank(s[i])
    ensures !IsBlankText(x, s)
  {
  }

  lemma FrontUnbroken(x: Blanks, first: string, c: char)
    requires Words(first) && c != LINE_BREAK
    ensures Unbroken(x, first + [c])
  {
  }

  lemma BlankIsSeparator(x: Blanks, c: char, blank: char, front: string, second: string)
    requires Ends(c) && x.isBlank(blank) && second != "" && !Indented(x, second)
    ensures Pieces(x, Some(c), front, [blank] + second) == [front] + Pieces(x, Some(blank), "", second)
  {
    assert ([blank] + second)[1..] == second;
    assert BlankRun(x, [blank] + second) == 1 + BlankRun(x, second);
  }

  lemma TextUnbroken(x: Blanks, first: string, c: char, blank: char, second: string)
    requires Words(first) && Words(second) && c != LINE_BREAK && !Ends(c)
    requires x.Valid() && x.isBlank(blank) && blank != LINE_BREAK
    ensures Unbroken(x, first + [c, blank] + second)
  {
    var text := first + [c, blank] + second;
    assert forall i :: 0 <= i < |text| ==> text[i] != LINE_BREAK && !Ends(text[i]);
  }

  /** It happens to every unsupported claim with an indented line behind it: the second pass reads the
      line without its indentation. */
  lemma IndentationIsLost(x: Blanks, lex: Lexicon, claim: string, line: string)
    requires x.Valid() && lex.Valid() && OneSentence(x, lex.replacement)
    requires Words(claim) && Words(line) && !IsBlankText(x, claim) && !IsBlankText(x, line) && Indented(x, line)
    requires lex.isClaim(claim) && !lex.isClaim(line) && lex.markers(claim) == [] && lex.markers(line) == []
    ensures var text := claim + [LINE_BREAK] + line;
      && Split(x, text) == [claim, line]
      && Split(x, Stripped(x, lex, text, [])) != Rebuilt(lex, Split(x, text), [])
  {
    hide Split, Words, IsBlankText, Unbroken, Stripped, Rebuilt;
    var text, ss := claim + [LINE_BREAK] + line, [claim, line];
    TwoLines(x, claim, line);
    NotBlankTogether(x, claim, [LINE_BREAK] + line);
    assert text == claim + ([LINE_BREAK] + line);
    assert Unsupported(lex, ss, [], 1 - 1) && !Unsupported(lex, ss, [], 1) && Indented(x, ss[1]);
    assert IndentedAfterReplaced(x, lex, ss, []);
    SecondPassReadsTheSameIff(x, lex, text, []);
  }

  lemma NotBlankTogether(x: Blanks, a: string, b: string)
    requires !IsBlankText(x, a)
    ensures !IsBlankText(x, a + b)
  {
    var i :| 0 <= i < |a| && !x.isBlank(a[i]);
    assert (a + b)[i] == a[i];
  }
}
