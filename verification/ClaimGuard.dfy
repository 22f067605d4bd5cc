/**
 The guard that replaces unsupported security claims, at the level of sentences.  Which sentences
 are claims, and which markers a sentence carries, is left to the patterns.
 */
module ClaimGuard {
  import opened Basics

  /** The patterns: claim indicators, source markers in order, letter case, and trimming. */
  datatype Lexicon = Lexicon(
    isClaim: string -> bool,
    markers: string -> seq<string>,
    lower: string -> string,
    strip: string -> string,
    replacement: string)
  {
    /** The replacement sentence makes no claim and cites nothing. */
    ghost predicate Valid() {
      !isClaim(replacement) && markers(replacement) == []
    }
  }

  datatype Claim = Claim(text: string, source: Option<string>)

  datatype GuardResult = GuardResult(
    accepted: bool, claims: seq<Claim>, unsupported: seq<string>, sentences: seq<string>)

  /** The last evidence key whose lower-case form is `name`, as a dictionary built in order has it. */
  function Lookup(x: Lexicon, evidence: seq<string>, name: string): Option<string>
    decreases |evidence|
  {
    if evidence == [] then None
    else
      var key := evidence[|evidence| - 1];
      if x.lower(key) == name then Some(key) else Lookup(x, evidence[..|evidence| - 1], name)
  }

  function FirstResolved(x: Lexicon, evidence: seq<string>, candidates: seq<string>): Option<string>
    decreases |candidates|
  {
    if candidates == [] then None
    else
      var hit := Lookup(x, evidence, x.lower(candidates[0]));
      if hit.Some? then hit else FirstResolved(x, evidence, candidates[1..])
  }

  function SourcesIn(x: Lexicon, sentence: string, evidence: seq<string>): Option<string> {
    FirstResolved(x, evidence, x.markers(sentence))
  }

  function SourceAt(x: Lexicon, ss: seq<string>, evidence: seq<string>, i: int): Option<string> {
    if 0 <= i < |ss| then SourcesIn(x, ss[i], evidence) else None
  }

  function Either(a: Option<string>, b: Option<string>): Option<string> {
    if a.Some? then a else b
  }

  /** The source a claim may lean on: its own, else its predecessor's, else its successor's. */
  function Support(x: Lexicon, ss: seq<string>, evidence: seq<string>, i: nat): Option<string> {
    Either(SourceAt(x, ss, evidence, i),
           Either(SourceAt(x, ss, evidence, i - 1), SourceAt(x, ss, evidence, i + 1)))
  }

  predicate Unsupported(x: Lexicon, ss: seq<string>, evidence: seq<string>, i: nat)
    requires i < |ss|
  {
    x.isClaim(ss[i]) && Support(x, ss, evidence, i).None?
  }

  function Rebuilt(x: Lexicon, ss: seq<string>, evidence: seq<string>): (r: seq<string>)
    ensures |r| == |ss|
  {
    seq(|ss|, i requires 0 <= i < |ss| => if Unsupported(x, ss, evidence, i) then x.replacement else ss[i])
  }

  function ClaimsUpTo(x: Lexicon, ss: seq<string>, evidence: seq<string>, n: nat): seq<Claim>
    requires n <= |ss|
  {
    if n == 0 then []
    else
      var front := ClaimsUpTo(x, ss, evidence, n - 1);
      if x.isClaim(ss[n - 1]) then front + [Claim(x.strip(ss[n - 1]), Support(x, ss, evidence, n - 1))] else front
  }

  function UnsupportedUpTo(x: Lexicon, ss: seq<string>, evidence: seq<string>, n: nat): seq<string>
    requires n <= |ss|
  {
    if n == 0 then []
    else
      var front := UnsupportedUpTo(x, ss, evidence, n - 1);
      if Unsupported(x, ss, evidence, n - 1) then front + [x.strip(ss[n - 1])] else front
  }

  method VerifyClaims(x: Lexicon, ss: seq<string>, evidence: seq<string>) returns (g: GuardResult)
    ensures g.sentences == Rebuilt(x, ss, evidence)
    ensures g.claims == ClaimsUpTo(x, ss, evidence, |ss|)
    ensures g.unsupported == UnsupportedUpTo(x, ss, evidence, |ss|)
    ensures g.accepted <==> forall i :: 0 <= i < |ss| ==> !Unsupported(x, ss, evidence, i)
  {
    var resolved := seq(|ss|, i requires 0 <= i < |ss| => SourcesIn(x, ss[i], evidence));
    var claims, unsupported, rebuilt := [], [], [];
    for index := 0 to |ss|
      invariant claims == ClaimsUpTo(x, ss, evidence, index)
      invariant unsupported == UnsupportedUpTo(x, ss, evidence, index)
      invariant rebuilt == Rebuilt(x, ss, evidence)[..index]
      invariant unsupported == [] <==> forall i :: 0 <= i < index ==> !Unsupported(x, ss, evidence, i)
    {
      var sentence := ss[index];
      if !x.isClaim(sentence) {
        rebuilt := rebuilt + [sentence];
        continue;
      }
      var source := resolved[index];
      if source.None? && index > 0 {
        source := resolved[index - 1];
      }
      if source.None? && index + 1 < |ss| {
        source := resolved[index + 1];
      }
      claims := claims + [Claim(x.strip(sentence), source)];
      if source.None? {
        unsupported := unsupported + [x.strip(sentence)];
        rebuilt := rebuilt + [x.replacement];
      } else {
        rebuilt := rebuilt + [sentence];
      }
    }
    g := GuardResult(unsupported == [], claims, unsupported, rebuilt);
  }

  // ----- what the guard guarantees ----------------------------------------------------------------

  /** A claim survives exactly when a marker in it or in a direct neighbour resolves. */
  lemma ClaimKeptIff(x: Lexicon, ss: seq<string>, evidence: seq<string>, i: nat)
    requires x.Valid() && i < |ss| && x.isClaim(ss[i])
    ensures Rebuilt(x, ss, evidence)[i] == ss[i]
            <==> exists j :: i - 1 <= j <= i + 1 && 0 <= j < |ss| && SourcesIn(x, ss[j], evidence).Some?
  {
    if Support(x, ss, evidence, i).Some? {
      var j := if SourceAt(x, ss, evidence, i).Some? then i
               else if SourceAt(x, ss, evidence, i - 1).Some? then i - 1 else i + 1;
      assert i - 1 <= j <= i + 1 && 0 <= j < |ss| && SourcesIn(x, ss[j], evidence).Some?;
    } else {
      forall j | i - 1 <= j <= i + 1 && 0 <= j < |ss|
        ensures SourcesIn(x, ss[j], evidence).None?
      {
        assert SourceAt(x, ss, evidence, j).None?;
      }
    }
  }

  /** Replacing unsupported claims removes no source: a sentence whose marker resolves is never
      itself replaced, and the replacement has none. */
  lemma SourcesSurvive(x: Lexicon, ss: seq<string>, evidence: seq<string>, i: int)
    requires x.Valid()
    ensures SourceAt(x, Rebuilt(x, ss, evidence), evidence, i) == SourceAt(x, ss, evidence, i)
  {
    if 0 <= i < |ss| && SourceAt(x, ss, evidence, i).Some? {
      assert Support(x, ss, evidence, i).Some?;
    }
  }

  /** A second pass over the rebuilt sentences accepts them all and changes nothing. */
  lemma GuardIsFixpoint(x: Lexicon, ss: seq<string>, evidence: seq<string>)
    requires x.Valid()
    ensures var once := Rebuilt(x, ss, evidence);
      && Rebuilt(x, once, evidence) == once
      && (forall i :: 0 <= i < |once| ==> !Unsupported(x, once, evidence, i))
  {
    var once := Rebuilt(x, ss, evidence);
    forall i | 0 <= i < |once|
      ensures !Unsupported(x, once, evidence, i)
    {
      SourcesSurvive(x, ss, evidence, i);
      SourcesSurvive(x, ss, evidence, i - 1);
      SourcesSurvive(x, ss, evidence, i + 1);
    }
  }

  lemma {:induction false} LookupIsEvidence(x: Lexicon, evidence: seq<string>, name: string)
    requires Lookup(x, evidence, name).Some?
    ensures Lookup(x, evidence, name).value in evidence && x.lower(Lookup(x, evidence, name).value) == name
    decreases |evidence|
  {
    if x.lower(evidence[|evidence| - 1]) != name {
      LookupIsEvidence(x, evidence[..|evidence| - 1], name);
    }
  }

  /** `candidates[n]` is the first one that names a piece of evidence, and `key` is what it names. */
  ghost predicate FirstToName(x: Lexicon, evidence: seq<string>, candidates: seq<string>, n: nat, key: string) {
    && n < |candidates| && key in evidence && x.lower(key) == x.lower(candidates[n])
    && forall j, e :: 0 <= j < n && e in evidence ==> x.lower(e) != x.lower(candidates[j])
  }

  lemma {:induction false} ResolvedNames(x: Lexicon, evidence: seq<string>, candidates: seq<string>) returns (n: nat)
    requires FirstResolved(x, evidence, candidates).Some?
    ensures FirstToName(x, evidence, candidates, n, FirstResolved(x, evidence, candidates).value)
    decreases |candidates|
  {
    if Lookup(x, evidence, x.lower(candidates[0])).Some? {
      LookupIsEvidence(x, evidence, x.lower(candidates[0]));
      n := 0;
    } else {
      var later := ResolvedNames(x, evidence, candidates[1..]);
      n := later + 1;
      forall e | e in evidence
        ensures x.lower(e) != x.lower(candidates[0])
      {
        if x.lower(e) == x.lower(candidates[0]) {
          LookupFinds(x, evidence, e);
        }
      }
      forall j, e | 0 <= j < n && e in evidence
        ensures x.lower(e) != x.lower(candidates[j])
      {
        if j > 0 {
          assert candidates[j] == candidates[1..][j - 1];
        }
      }
    }
  }

  /** A claim's source is a piece of evidence that the nearest citing sentence names first: the
      claim itself before its predecessor, and that before its successor. */
  lemma SourceIsNamedEvidence(x: Lexicon, ss: seq<string>, evidence: seq<string>, i: nat) returns (j: nat, n: nat)
    requires i < |ss| && Support(x, ss, evidence, i).Some?
    ensures i - 1 <= j <= i + 1 && j < |ss|
    ensures FirstToName(x, evidence, x.markers(ss[j]), n, Support(x, ss, evidence, i).value)
    ensures j != i ==> SourcesIn(x, ss[i], evidence).None?
    ensures j == i + 1 && i > 0 ==> SourcesIn(x, ss[i - 1], evidence).None?
  {
    j := if SourceAt(x, ss, evidence, i).Some? then i
         else if SourceAt(x, ss, evidence, i - 1).Some? then i - 1 else i + 1;
    n := ResolvedNames(x, evidence, x.markers(ss[j]));
  }

  lemma {:induction false} LookupGrows(x: Lexicon, evidence: seq<string>, more: seq<string>, name: string)
    requires forall e <- evidence :: e in more
    requires Lookup(x, evidence, name).Some?
    ensures Lookup(x, more, name).Some?
    decreases |evidence|
  {
    var key := evidence[|evidence| - 1];
    if x.lower(key) == name {
      LookupFinds(x, more, key);
    } else {
      LookupGrows(x, evidence[..|evidence| - 1], more, name);
    }
  }

  lemma {:induction false} LookupFinds(x: Lexicon, evidence: seq<string>, key: string)
    requires key in evidence
    ensures Lookup(x, evidence, x.lower(key)).Some?
    decreases |evidence|
  {
    if evidence[|evidence| - 1] != key {
      assert key in evidence[..|evidence| - 1];
      LookupFinds(x, evidence[..|evidence| - 1], key);
    }
  }

  lemma {:induction false} ResolutionGrows(
      x: Lexicon, evidence: seq<string>, more: seq<string>, candidates: seq<string>)
    requires forall e <- evidence :: e in more
    requires FirstResolved(x, evidence, candidates).Some?
    ensures FirstResolved(x, more, candidates).Some?
    decreases |candidates|
  {
    if Lookup(x, evidence, x.lower(candidates[0])).Some? {
      LookupGrows(x, evidence, more, x.lower(candidates[0]));
    } else {
      ResolutionGrows(x, evidence, more, candidates[1..]);
    }
  }

  /** Adding evidence never makes a sentence unsupported. */
  lemma EvidenceOnlySupports(x: Lexicon, ss: seq<string>, evidence: seq<string>, more: seq<string>, i: nat)
    requires i < |ss| && forall e <- evidence :: e in more
    ensures Unsupported(x, ss, more, i) ==> Unsupported(x, ss, evidence, i)
  {
    forall j: int | 0 <= j < |ss| && SourceAt(x, ss, evidence, j).Some?
      ensures SourceAt(x, ss, more, j).Some?
    {
      ResolutionGrows(x, evidence, more, x.markers(ss[j]));
    }
  }

  // ----- what the lists hold, in terms of the patterns ------------------------------------------------

  /** `key` is the last piece of evidence whose lower-case form is `name`. */
  ghost predicate NamedBy(x: Lexicon, evidence: seq<string>, name: string, key: string) {
    exists p :: 0 <= p < |evidence| && evidence[p] == key && x.lower(evidence[p]) == name
      && forall q :: p < q < |evidence| ==> x.lower(evidence[q]) != name
  }

  /** No marker of sentence `j` names a piece of evidence, or there is no such sentence. */
  ghost predicate Silent(x: Lexicon, ss: seq<string>, evidence: seq<string>, j: int) {
    0 <= j < |ss| ==> forall m <- x.markers(ss[j]), e <- evidence :: x.lower(e) != x.lower(m)
  }

  /** The first marker of sentence `j` that names any evidence names `key`. */
  ghost predicate Cites(x: Lexicon, ss: seq<string>, evidence: seq<string>, j: int, key: string) {
    0 <= j < |ss|
    && exists n :: 0 <= n < |x.markers(ss[j])|
         && NamedBy(x, evidence, x.lower(x.markers(ss[j])[n]), key)
         && forall m: nat, e :: m < n && e in evidence ==> x.lower(e) != x.lower(x.markers(ss[j])[m])
  }

  /** The source of sentence `i`: cited by itself, else by the one before it, else by the one after it. */
  ghost predicate Sourced(x: Lexicon, ss: seq<string>, evidence: seq<string>, i: int, source: Option<string>) {
    match source
    case None => Silent(x, ss, evidence, i) && Silent(x, ss, evidence, i - 1) && Silent(x, ss, evidence, i + 1)
    case Some(key) =>
      || Cites(x, ss, evidence, i, key)
      || (Silent(x, ss, evidence, i) && Cites(x, ss, evidence, i - 1, key))
      || (Silent(x, ss, evidence, i) && Silent(x, ss, evidence, i - 1) && Cites(x, ss, evidence, i + 1, key))
  }

  lemma {:induction false} LookupNames(x: Lexicon, evidence: seq<string>, name: string)
    ensures match Lookup(x, evidence, name)
            case None => forall e <- evidence :: x.lower(e) != name
            case Some(key) => NamedBy(x, evidence, name, key)
    decreases |evidence|
  {
    if evidence != [] {
      var front, last := evidence[..|evidence| - 1], evidence[|evidence| - 1];
      assert evidence == front + [last];
      if x.lower(last) != name {
        LookupNames(x, front, name);
        var hit := Lookup(x, front, name);
        if hit.Some? {
          var p :| 0 <= p < |front| && front[p] == hit.value && x.lower(front[p]) == name
            && forall q :: p < q < |front| ==> x.lower(front[q]) != name;
          assert evidence[p] == hit.value;
        }
      }
    }
  }

  lemma {:induction false} FirstNames(x: Lexicon, evidence: seq<string>, candidates: seq<string>) returns (n: nat)
    ensures match FirstResolved(x, evidence, candidates)
            case None => n == |candidates|
            case Some(key) => n < |candidates| && NamedBy(x, evidence, x.lower(candidates[n]), key)
    ensures forall m: nat, e :: m < n && e in evidence ==> x.lower(e) != x.lower(candidates[m])
    decreases |candidates|
  {
    hide NamedBy, Lookup;
    n := 0;
    if candidates != [] {
      LookupNames(x, evidence, x.lower(candidates[0]));
      if Lookup(x, evidence, x.lower(candidates[0])).None? {
        var later := FirstNames(x, evidence, candidates[1..]);
        n := later + 1;
        forall m: nat, e | m < n && e in evidence
          ensures x.lower(e) != x.lower(candidates[m])
        {
          if m > 0 {
            assert candidates[m] == candidates[1..][m - 1];
          }
        }
      }
    }
  }

  lemma SourceAtReads(x: Lexicon, ss: seq<string>, evidence: seq<string>, j: int)
    ensures match SourceAt(x, ss, evidence, j)
            case None => Silent(x, ss, evidence, j)
            case Some(key) => Cites(x, ss, evidence, j, key) && !Silent(x, ss, evidence, j)
  {
    hide NamedBy, FirstResolved;
    if 0 <= j < |ss| {
      var candidates := x.markers(ss[j]);
      var n := FirstNames(x, evidence, candidates);
      var hit := SourceAt(x, ss, evidence, j);
      if hit.Some? {
        NamedIsEvidence(x, evidence, x.lower(candidates[n]), hit.value);
      } else {
        forall m, e | m in candidates && e in evidence
          ensures x.lower(e) != x.lower(m)
        {
          var t :| 0 <= t < |candidates| && candidates[t] == m;
        }
      }
    }
  }

  lemma NamedIsEvidence(x: Lexicon, evidence: seq<string>, name: string, key: string)
    requires NamedBy(x, evidence, name, key)
    ensures key in evidence && x.lower(key) == name
  {
  }

  lemma SupportReads(x: Lexicon, ss: seq<string>, evidence: seq<string>, i: nat)
    ensures Sourced(x, ss, evidence, i, Support(x, ss, evidence, i))
    ensures Support(x, ss, evidence, i).None? <==> Sourced(x, ss, evidence, i, None)
  {
    hide Silent, Cites, SourceAt;
    SourceAtReads(x, ss, evidence, i);
    SourceAtReads(x, ss, evidence, i - 1);
    SourceAtReads(x, ss, evidence, i + 1);
  }

  /** `ix` are the places, in order, of the sentences below `n` that `wanted` holds of. */
  ghost predicate Places(ix: seq<nat>, n: nat, wanted: nat -> bool) {
    && (forall t :: 0 < t < |ix| ==> ix[t - 1] < ix[t])
    && (forall i: nat :: i in ix <==> i < n && wanted(i))
  }

  /** The claims are all sentences that the patterns call claims, trimmed and in order, each with the
      source it leans on. */
  lemma {:induction false} ClaimsListed(x: Lexicon, ss: seq<string>, evidence: seq<string>, n: nat)
      returns (ix: seq<nat>)
    requires n <= |ss|
    ensures Places(ix, n, (i: nat) => i < |ss| && x.isClaim(ss[i]))
    ensures var claims := ClaimsUpTo(x, ss, evidence, n);
      && |claims| == |ix|
      && forall t :: 0 <= t < |ix| && ix[t] < |ss| ==>
           claims[t].text == x.strip(ss[ix[t]]) && Sourced(x, ss, evidence, ix[t], claims[t].source)
  {
    hide Sourced, Support;
    ix := [];
    if n > 0 {
      ix := ClaimsListed(x, ss, evidence, n - 1);
      if x.isClaim(ss[n - 1]) {
        SupportReads(x, ss, evidence, n - 1);
        PlacesSnoc(ix, n - 1, (i: nat) => i < |ss| && x.isClaim(ss[i]));
        ix := ix + [n - 1];
      }
    }
  }

  lemma PlacesSnoc(ix: seq<nat>, n: nat, wanted: nat -> bool)
    requires Places(ix, n, wanted) && wanted(n)
    ensures Places(ix + [n], n + 1, wanted)
  {
    if ix != [] {
      assert ix[|ix| - 1] in ix;
    }
  }

  /** The unsupported ones are the claims with no citing sentence near them, trimmed and in order. */
  lemma {:induction false} UnsupportedListed(x: Lexicon, ss: seq<string>, evidence: seq<string>, n: nat)
      returns (ix: seq<nat>)
    requires n <= |ss|
    ensures Places(ix, n, (i: nat) => i < |ss| && x.isClaim(ss[i]) && Sourced(x, ss, evidence, i, None))
    ensures var unsupported := UnsupportedUpTo(x, ss, evidence, n);
      && |unsupported| == |ix|
      && forall t :: 0 <= t < |ix| && ix[t] < |ss| ==> unsupported[t] == x.strip(ss[ix[t]])
  {
    hide Sourced, Support;
    ix := [];
    if n > 0 {
      ix := UnsupportedListed(x, ss, evidence, n - 1);
      SupportReads(x, ss, evidence, n - 1);
      if Unsupported(x, ss, evidence, n - 1) {
        PlacesSnoc(ix, n - 1, (i: nat) => i < |ss| && x.isClaim(ss[i]) && Sourced(x, ss, evidence, i, None));
        ix := ix + [n - 1];
      }
    }
  }

  /** Those are replaced where they stand, and no other sentence changes. */
  lemma ReplacedWhereUnsupported(x: Lexicon, ss: seq<string>, evidence: seq<string>, i: nat)
    requires i < |ss|
    ensures |Rebuilt(x, ss, evidence)| == |ss|
    ensures Rebuilt(x, ss, evidence)[i]
            == if x.isClaim(ss[i]) && Sourced(x, ss, evidence, i, None) then x.replacement else ss[i]
  {
    hide Sourced, Support;
    SupportReads(x, ss, evidence, i);
  }
}
