/**
 The string-aware scanner that isolates a JSON object inside a model's reply, against JSON texts in
 every spelling.
 */
module ObjectExtractor {
  // ----- the scanner ------------------------------------------------------------------

  datatype Scan = Scanning(depth: int, inString: bool, escaped: bool) | Stopped

  const START := Scanning(0, false, false)

  function Feed(st: Scan, c: char): Scan {
    match st
    case Stopped => Stopped
    case Scanning(depth, inString, escaped) =>
      if inString then
        if escaped then Scanning(depth, true, false)
        else if c == '\\' then Scanning(depth, true, true)
        else if c == '"' then Scanning(depth, false, false)
        else st
      else if c == '"' then Scanning(depth, true, escaped)
      else if c == '{' then Scanning(depth + 1, false, escaped)
      else if c == '}' then (if depth - 1 == 0 then Stopped else Scanning(depth - 1, false, escaped))
      else st
  }

  function FeedAll(st: Scan, s: string): Scan
    decreases |s|
  {
    if s == "" then st else Feed(FeedAll(st, s[..|s| - 1]), s[|s| - 1])
  }

  /** `i` is where the scan of `s` first stops, or the end of `s` when it never does. */
  ghost predicate StopsAt(s: string, i: nat) {
    && i <= |s|
    && (forall j :: 0 <= j < i ==> FeedAll(START, s[..j]) != Stopped)
    && (FeedAll(START, s[..i]) == Stopped || i == |s|)
  }

  /** What the extractor returns for a reply whose code fence has been stripped. */
  ghost predicate Extracts(text: string, r: string) {
    if '{' !in text then r == text
    else exists start: nat :: FirstBraceAt(text, start) && IsFirstObject(text[start..], r)
  }

  predicate FirstBraceAt(text: string, start: nat) {
    start < |text| && text[start] == '{' && forall j :: 0 <= j < start ==> text[j] != '{'
  }

  ghost predicate IsFirstObject(s: string, r: string) {
    r <= s && StopsAt(s, |r|)
  }

  method FindBrace(text: string) returns (start: int)
    ensures start == -1 <==> '{' !in text
    ensures start != -1 ==> start >= 0 && FirstBraceAt(text, start)
  {
    start := 0;
    while start < |text| && text[start] != '{'
      invariant 0 <= start <= |text| && forall j :: 0 <= j < start ==> text[j] != '{'
    {
      start := start + 1;
    }
    if start == |text| {
      start := -1;
    }
  }

  lemma FeedNext(s: string, k: nat)
    requires k < |s|
    ensures FeedAll(START, s[..k + 1]) == Feed(FeedAll(START, s[..k]), s[k])
  {
    assert s[..k + 1][..k] == s[..k];
  }

  method ExtractObject(text: string, stripFence: string -> string) returns (r: string)
    ensures Extracts(stripFence(text), r)
  {
    var cleaned := stripFence(text);
    var start := FindBrace(cleaned);
    if start == -1 {
      return cleaned;
    }
    ghost var rest := cleaned[start..];
    var depth, inString, escaped := 0, false, false;
    for index := start to |cleaned|
      invariant FeedAll(START, rest[..index - start]) == Scanning(depth, inString, escaped)
      invariant forall j :: 0 <= j <= index - start ==> FeedAll(START, rest[..j]) != Stopped
    {
      var c := cleaned[index];
      FeedNext(rest, index - start);
      if inString {
        if escaped {
          escaped := false;
        } else if c == '\\' {
          escaped := true;
        } else if c == '"' {
          inString := false;
        }
        continue;
      }
      if c == '"' {
        inString := true;
      } else if c == '{' {
        depth := depth + 1;
      } else if c == '}' {
        depth := depth - 1;
        if depth == 0 {
          r := cleaned[start..index + 1];
          FoundObject(cleaned, start, r);
          return;
        }
      }
    }
    r := cleaned[start..];
    FoundObject(cleaned, start, r);
  }

  lemma FoundObject(text: string, start: nat, r: string)
    requires FirstBraceAt(text, start) && r <= text[start..]
    requires forall j :: 0 <= j < |r| ==> FeedAll(START, text[start..][..j]) != Stopped
    requires FeedAll(START, text[start..][..|r|]) == Stopped || r == text[start..]
    ensures Extracts(text, r)
  {
    assert IsFirstObject(text[start..], r);
  }

  lemma FeedPrefix(s: string, i: nat, j: nat)
    requires i <= j <= |s|
    ensures FeedAll(START, s[..i]) == Stopped ==> FeedAll(START, s[..j]) == Stopped
    decreases j
  {
    if i < j {
      assert s[..j][..j - 1] == s[..j - 1];
      FeedPrefix(s, i, j - 1);
    }
  }

  lemma {:induction false} FeedConcat(st: Scan, a: string, b: string)
    ensures FeedAll(st, a + b) == FeedAll(FeedAll(st, a), b)
    decreases |b|
  {
    if b == "" {
      assert a + b == a;
    } else {
      assert (a + b)[..|a + b| - 1] == a + b[..|b| - 1];
      FeedConcat(st, a, b[..|b| - 1]);
    }
  }

  // ----- JSON text ----------------------------------------------------------------------

  predicate NumberChar(c: char) {
    '0' <= c <= '9' || c == '+' || c == '-' || c == '.' || c == 'e' || c == 'E'
  }

  predicate HexChar(c: char) {
    '0' <= c <= '9' || 'a' <= c <= 'f' || 'A' <= c <= 'F'
  }

  predicate SpaceChar(c: char) {
    c == ' ' || c == '\t' || c == '\n' || c == '\r'
  }

  type NumberText = s: string | s != "" && forall i :: 0 <= i < |s| ==> NumberChar(s[i]) witness "0"

  type Space = s: string | forall i :: 0 <= i < |s| ==> SpaceChar(s[i])

  type Hex = c: char | HexChar(c) witness '0'

  type Raw = c: char | c != '"' && c != '\\' witness 'a'

  type Escapable = c: char | c in {'"', '\\', '/', 'b', 'f', 'n', 'r', 't'} witness 'n'

  /** One character of a string literal, in any of its spellings: as itself, after a backslash, or by
      its number. */
  datatype Piece = Itself(raw: Raw) | Escaped(mark: Escapable) | Numbered(a: Hex, b: Hex, c: Hex, d: Hex)

  /** A JSON text as it is written: every spelling of every string, and blanks wherever they may be. */
  datatype Json =
    | Null
    | Bool(b: bool)
    | Number(text: NumberText)
    | String(body: seq<Piece>)
    | Array(gap: Space, items: seq<Element>)
    | Object(gap: Space, members: seq<Member>)

  datatype Element = Element(before: Space, value: Json, after: Space)

  datatype Member = Member(before: Space, key: seq<Piece>, after: Space, element: Element)

  function Spell(p: Piece): string {
    match p
    case Itself(raw) => [raw]
    case Escaped(c) => ['\\', c]
    case Numbered(a, b, c, d) => ['\\', 'u', a, b, c, d]
  }

  function SpellAll(body: seq<Piece>): string
    decreases |body|
  {
    if body == [] then "" else Spell(body[0]) + SpellAll(body[1..])
  }

  function Quote(body: seq<Piece>): string {
    "\"" + SpellAll(body) + "\""
  }

  function Print(v: Json): string
    decreases v, 1
  {
    match v
    case Null => "null"
    case Bool(b) => if b then "true" else "false"
    case Number(text) => text
    case String(body) => Quote(body)
    case Array(gap, items) => "[" + gap + PrintItems(items) + "]"
    case Object(gap, members) => "{" + (gap + PrintMembers(members)) + "}"
  }

  function PrintElement(e: Element): string
    decreases e, 2
  {
    e.before + Print(e.value) + e.after
  }

  function PrintItems(items: seq<Element>): string
    decreases items, 0
  {
    if items == [] then ""
    else if |items| == 1 then PrintElement(items[0])
    else PrintElement(items[0]) + "," + PrintItems(items[1..])
  }

  function PrintMember(m: Member): string
    decreases m, 3
  {
    (m.before + Quote(m.key) + m.after) + ":" + PrintElement(m.element)
  }

  function PrintMembers(members: seq<Member>): string
    decreases members, 0
  {
    if members == [] then ""
    else if |members| == 1 then PrintMember(members[0])
    else PrintMember(members[0]) + "," + PrintMembers(members[1..])
  }

  // ----- printed text is transparent to the scanner ---------------------------------------

  predicate Plain(s: string) {
    '"' !in s && '{' !in s && '}' !in s
  }

  /** Inside an object, `s` leaves the scanner exactly where it was. */
  ghost predicate Transparent(s: string) {
    forall depth :: depth >= 1 ==> FeedAll(Scanning(depth, false, false), s) == Scanning(depth, false, false)
  }

  lemma TransparentConcat(a: string, b: string)
    requires Transparent(a) && Transparent(b)
    ensures Transparent(a + b)
  {
    forall depth | depth >= 1
      ensures FeedAll(Scanning(depth, false, false), a + b) == Scanning(depth, false, false)
    {
      FeedConcat(Scanning(depth, false, false), a, b);
    }
  }

  lemma {:induction false} PlainTransparent(s: string)
    requires Plain(s)
    ensures Transparent(s)
    decreases |s|
  {
    if s != "" {
      PlainTransparent(s[..|s| - 1]);
    }
  }

  lemma FeedChars(st: Scan, s: string)
    ensures |s| == 1 ==> FeedAll(st, s) == Feed(st, s[0])
    ensures |s| == 2 ==> FeedAll(st, s) == Feed(Feed(st, s[0]), s[1])
  {
    if |s| == 1 {
      assert s[..0] == "";
    } else if |s| == 2 {
      assert s[..1][..0] == "";
      assert FeedAll(st, s[..1]) == Feed(FeedAll(st, ""), s[0]);
    }
  }

  lemma PieceStaysInside(p: Piece, depth: int)
    ensures FeedAll(Scanning(depth, true, false), Spell(p)) == Scanning(depth, true, false)
  {
    var inside, e := Scanning(depth, true, false), Spell(p);
    FeedChars(inside, e);
    if p.Numbered? {
      FeedConcat(inside, e[..2], e[2..]);
      FeedChars(inside, e[..2]);
      assert e == e[..2] + e[2..];
      FeedConcat(inside, e[2..4], e[4..]);
      FeedChars(inside, e[2..4]);
      FeedChars(inside, e[4..]);
      assert e[2..] == e[2..4] + e[4..];
    }
  }

  /** The body of a string literal keeps the scanner inside the string, however it is spelled. */
  lemma {:induction false} SpellingStaysInside(body: seq<Piece>, depth: int)
    ensures FeedAll(Scanning(depth, true, false), SpellAll(body)) == Scanning(depth, true, false)
    decreases |body|
  {
    hide Spell;
    if body != [] {
      PieceStaysInside(body[0], depth);
      SpellingStaysInside(body[1..], depth);
      FeedConcat(Scanning(depth, true, false), Spell(body[0]), SpellAll(body[1..]));
    }
  }

  lemma QuoteTransparent(body: seq<Piece>)
    ensures Transparent(Quote(body))
  {
    forall depth | depth >= 1
      ensures FeedAll(Scanning(depth, false, false), Quote(body)) == Scanning(depth, false, false)
    {
      var outside := Scanning(depth, false, false);
      FeedConcat(outside, "\"" + SpellAll(body), "\"");
      FeedConcat(outside, "\"", SpellAll(body));
      FeedChars(outside, "\"");
      SpellingStaysInside(body, depth);
      FeedChars(Scanning(depth, true, false), "\"");
    }
  }

  lemma {:induction false} PrintTransparent(v: Json)
    ensures Transparent(Print(v))
    decreases v, 1
  {
    hide Transparent, Plain, PrintItems, PrintMembers, Quote;
    match v
    case Null => ConstantsTransparent();
    case Bool(_) => ConstantsTransparent();
    case Number(text) => NumberTransparent(text);
    case String(body) => QuoteTransparent(body);
    case Array(gap, items) =>
      ItemsTransparent(items);
      BracketedTransparent(gap, PrintItems(items));
    case Object(gap, members) =>
      MembersTransparent(members);
      BodyTransparent(gap, members);
      BracedTransparent(gap + PrintMembers(members));
  }

  lemma ConstantsTransparent()
    ensures Transparent("null") && Transparent("true") && Transparent("false")
    ensures Transparent("") && Transparent("[") && Transparent("]") && Transparent(",") && Transparent(":")
  {
    hide Transparent;
    PlainTransparent("null");
    PlainTransparent("true");
    PlainTransparent("false");
    PlainTransparent("");
    PlainTransparent("[");
    PlainTransparent("]");
    PlainTransparent(",");
    PlainTransparent(":");
  }

  lemma NumberTransparent(text: NumberText)
    ensures Transparent(text)
  {
    hide Transparent;
    assert forall i :: 0 <= i < |text| ==> NumberChar(text[i]);
    PlainTransparent(text);
  }

  lemma SpaceTransparent(gap: Space)
    ensures Transparent(gap)
  {
    hide Transparent;
    assert forall i :: 0 <= i < |gap| ==> SpaceChar(gap[i]);
    PlainTransparent(gap);
  }

  lemma BracketedTransparent(gap: Space, body: string)
    requires Transparent(body)
    ensures Transparent("[" + gap + body + "]")
  {
    hide Transparent;
    ConstantsTransparent();
    SpaceTransparent(gap);
    TransparentConcat("[", gap);
    Surrounded("[" + gap, body, "]");
  }

  lemma Surrounded(a: string, b: string, c: string)
    requires Transparent(a) && Transparent(b) && Transparent(c)
    ensures Transparent(a + b + c)
  {
    hide Transparent;
    TransparentConcat(a, b);
    TransparentConcat(a + b, c);
  }

  lemma {:induction false} ElementTransparent(e: Element)
    ensures Transparent(PrintElement(e))
    decreases e, 2
  {
    hide Transparent, Print;
    SpaceTransparent(e.before);
    SpaceTransparent(e.after);
    PrintTransparent(e.value);
    Surrounded(e.before, Print(e.value), e.after);
  }

  lemma {:induction false} ItemsTransparent(items: seq<Element>)
    ensures Transparent(PrintItems(items))
    decreases items, 0
  {
    hide Transparent, PrintElement;
    ConstantsTransparent();
    if items != [] {
      ElementTransparent(items[0]);
      if |items| > 1 {
        ItemsTransparent(items[1..]);
        Surrounded(PrintElement(items[0]), ",", PrintItems(items[1..]));
      }
    }
  }

  lemma {:induction false} MemberTransparent(m: Member)
    ensures Transparent(PrintMember(m))
    decreases m, 3
  {
    hide Transparent, PrintElement, Quote;
    ConstantsTransparent();
    SpaceTransparent(m.before);
    SpaceTransparent(m.after);
    QuoteTransparent(m.key);
    Surrounded(m.before, Quote(m.key), m.after);
    ElementTransparent(m.element);
    Surrounded(m.before + Quote(m.key) + m.after, ":", PrintElement(m.element));
  }

  lemma {:induction false} MembersTransparent(members: seq<Member>)
    ensures Transparent(PrintMembers(members))
    decreases members, 0
  {
    hide Transparent, PrintMember;
    ConstantsTransparent();
    if members != [] {
      MemberTransparent(members[0]);
      if |members| > 1 {
        MembersTransparent(members[1..]);
        Surrounded(PrintMember(members[0]), ",", PrintMembers(members[1..]));
      }
    }
  }

  lemma BodyTransparent(gap: Space, members: seq<Member>)
    requires Transparent(PrintMembers(members))
    ensures Transparent(gap + PrintMembers(members))
  {
    hide Transparent;
    SpaceTransparent(gap);
    TransparentConcat(gap, PrintMembers(members));
  }

  /** A braced transparent body goes one level down and comes back; at the outermost level the
      closing brace is where the scan stops, and not before. */
  lemma BracesNest(body: string, depth: int)
    requires Transparent(body) && depth >= 0
    ensures FeedAll(Scanning(depth, false, false), "{" + body) == Scanning(depth + 1, false, false)
    ensures FeedAll(Scanning(depth, false, false), "{" + body + "}")
            == if depth == 0 then Stopped else Scanning(depth, false, false)
  {
    var st := Scanning(depth, false, false);
    FeedConcat(st, "{", body);
    FeedChars(st, "{");
    FeedConcat(st, "{" + body, "}");
    FeedChars(Scanning(depth + 1, false, false), "}");
  }

  lemma BracedTransparent(body: string)
    requires Transparent(body)
    ensures Transparent("{" + body + "}")
  {
    forall depth | depth >= 1
      ensures FeedAll(Scanning(depth, false, false), "{" + body + "}") == Scanning(depth, false, false)
    {
      BracesNest(body, depth);
    }
  }

  lemma BracesStopAtTheirEnd(body: string, suffix: string, i: nat)
    requires Transparent(body)
    ensures var braced := "{" + body + "}";
      StopsAt(braced + suffix, i) <==> i == |braced|
  {
    hide Transparent;
    var braced := "{" + body + "}";
    var all := braced + suffix;
    BracesNest(body, 0);
    assert all[..|braced|] == braced && all[..|braced| - 1] == "{" + body;
    assert FeedAll(START, all[..|braced|]) == Stopped;
    forall j | 0 <= j < |braced|
      ensures FeedAll(START, all[..j]) != Stopped
    {
      FeedPrefix(all, j, |braced| - 1);
    }
  }

  lemma ObjectStopsAtItsEnd(v: Json, suffix: string, i: nat)
    requires v.Object?
    ensures StopsAt(Print(v) + suffix, i) <==> i == |Print(v)|
  {
    hide Transparent, StopsAt;
    MembersTransparent(v.members);
    BodyTransparent(v.gap, v.members);
    BracesStopAtTheirEnd(v.gap + PrintMembers(v.members), suffix, i);
  }

  /** Text that opens with a brace is scanned from its start, whatever brace-free prose precedes. */
  lemma ProseIsSkipped(prefix: string, text: string, r: string)
    requires '{' !in prefix && text != "" && text[0] == '{'
    ensures Extracts(prefix + text, r) <==> IsFirstObject(text, r)
  {
    hide IsFirstObject;
    var all := prefix + text;
    assert all[|prefix|] == '{' && all[|prefix|..] == text;
    assert forall j :: 0 <= j < |prefix| ==> all[j] == prefix[j] != '{';
    assert FirstBraceAt(all, |prefix|);
    assert forall start: nat :: FirstBraceAt(all, start) ==> start == |prefix|;
  }

  /** Every object is found whole, whatever prose precedes it (as long as that has no
      brace), whatever follows it, and whatever its strings hold. */
  lemma PrintedObjectIsExtracted(v: Json, prefix: string, suffix: string, r: string)
    requires v.Object? && '{' !in prefix
    ensures Extracts(prefix + Print(v) + suffix, r) <==> r == Print(v)
  {
    hide Extracts, Print, StopsAt;
    var text := Print(v) + suffix;
    PrintOpensWithBrace(v);
    assert prefix + Print(v) + suffix == prefix + text;
    ProseIsSkipped(prefix, text, r);
    ObjectStopsAtItsEnd(v, suffix, |Print(v)|);
    ObjectStopsAtItsEnd(v, suffix, |r|);
    if r <= text && |r| == |Print(v)| {
      assert r == text[..|r|] == Print(v);
    }
  }

  lemma PrintOpensWithBrace(v: Json)
    requires v.Object?
    ensures Print(v) != "" && Print(v)[0] == '{'
  {
  }

  /** A printed object that was cut off is returned as far as it goes: the scan never takes an
      inner brace, or one inside a string, for the end. */
  lemma TruncatedObjectIsKeptWhole(v: Json, prefix: string, n: nat, r: string)
    requires v.Object? && '{' !in prefix && 0 < n < |Print(v)|
    ensures Extracts(prefix + Print(v)[..n], r) <==> r == Print(v)[..n]
  {
    hide Extracts, Print;
    var cut := Print(v)[..n];
    PrintOpensWithBrace(v);
    ProseIsSkipped(prefix, cut, r);
    CutNeverStops(v, n);
    if r <= cut && StopsAt(cut, |r|) {
      assert cut[..|r|] == r;
    }
  }

  lemma CutNeverStops(v: Json, n: nat)
    requires v.Object? && n < |Print(v)|
    ensures var cut := Print(v)[..n];
      StopsAt(cut, n) && forall j :: 0 <= j <= n ==> FeedAll(START, cut[..j]) != Stopped
  {
    hide Print;
    var printed := Print(v);
    ObjectStopsAtItsEnd(v, "", |printed|);
    assert printed + "" == printed;
    forall j | 0 <= j <= n
      ensures FeedAll(START, printed[..n][..j]) != Stopped
    {
      assert printed[..n][..j] == printed[..j];
    }
  }
}
