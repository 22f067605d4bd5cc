/**
 Merging recon observations into one row per asset: an insertion-ordered dictionary updated in
 place, capped in size, against a specification per key.
 */
module ReconAssets {
  import opened Basics

  datatype Asset = Asset(
    name: string,
    assetType: string,
    ipAddress: Option<string>,
    port: Option<int>,
    protocol: Option<string>,
    service: Option<string>,
    technology: seq<string>,
    httpTitle: Option<string>,
    httpStatusCode: Option<int>,
    tlsSubject: Option<string>,
    internetExposed: bool,
    status: string,
    evidence: map<string, string>)

  datatype Key = Key(name: string, port: Option<int>, protocol: Option<string>)

  function KeyOf(a: Asset): Key {
    Key(a.name, a.port, a.protocol)
  }

  /** `preferred or fallback`: an absent, empty or zero value gives way. */
  function OrText(preferred: Option<string>, fallback: Option<string>): Option<string> {
    if preferred.Some? && preferred.value != "" then preferred else fallback
  }

  function OrNumber(preferred: Option<int>, fallback: Option<int>): Option<int> {
    if preferred.Some? && preferred.value != 0 then preferred else fallback
  }

  function MergedWith(self: Asset, other: Asset): Asset {
    self.(assetType := if other.assetType != "" then other.assetType else self.assetType,
          ipAddress := OrText(other.ipAddress, self.ipAddress),
          service := OrText(other.service, self.service),
          technology := if other.technology != [] then other.technology else self.technology,
          httpTitle := OrText(other.httpTitle, self.httpTitle),
          httpStatusCode := OrNumber(other.httpStatusCode, self.httpStatusCode),
          tlsSubject := OrText(other.tlsSubject, self.tlsSubject),
          internetExposed := self.internetExposed || other.internetExposed,
          evidence := self.evidence + other.evidence)
  }

  lemma MergeKeepsKey(a: Asset, b: Asset)
    ensures KeyOf(MergedWith(a, b)) == KeyOf(a)
  {
  }

  lemma ChoiceAssociates(a: Option<string>, b: Option<string>, c: Option<string>)
    ensures OrText(c, OrText(b, a)) == OrText(OrText(c, b), a)
  {
  }

  lemma MergeAssociates(a: Asset, b: Asset, c: Asset)
    ensures MergedWith(MergedWith(a, b), c) == MergedWith(a, MergedWith(b, c))
  {
    hide OrText;
    ChoiceAssociates(a.ipAddress, b.ipAddress, c.ipAddress);
    ChoiceAssociates(a.service, b.service, c.service);
    ChoiceAssociates(a.httpTitle, b.httpTitle, c.httpTitle);
    ChoiceAssociates(a.tlsSubject, b.tlsSubject, c.tlsSubject);
    assert (a.evidence + b.evidence) + c.evidence == a.evidence + (b.evidence + c.evidence);
  }

  const MAX_ASSETS := 5000

  // ----- the specification, key by key -----------------------------------------------------

  /** The observations of one asset, in stream order. */
  function Observations(k: Key, stream: seq<Asset>): seq<Asset>
    decreases |stream|
  {
    if stream == [] then []
    else
      var front, last := stream[..|stream| - 1], stream[|stream| - 1];
      if KeyOf(last) == k then Observations(k, front) + [last] else Observations(k, front)
  }

  function Folded(obs: seq<Asset>): Asset
    requires obs != []
    decreases |obs|
  {
    if |obs| == 1 then obs[0] else MergedWith(Folded(obs[..|obs| - 1]), obs[|obs| - 1])
  }

  /** The distinct keys, in the order they were first seen. */
  function FirstSeen(stream: seq<Asset>): seq<Key>
    decreases |stream|
  {
    if stream == [] then []
    else
      var seen, k := FirstSeen(stream[..|stream| - 1]), KeyOf(stream[|stream| - 1]);
      if k in seen then seen else seen + [k]
  }

  lemma {:induction false} SeenIffObserved(k: Key, stream: seq<Asset>)
    ensures k in FirstSeen(stream) <==> Observations(k, stream) != []
    ensures |FirstSeen(stream)| <= |stream|
    decreases |stream|
  {
    if stream != [] {
      SeenIffObserved(k, stream[..|stream| - 1]);
    }
  }

  function Row(k: Key, stream: seq<Asset>): Asset
    requires k in FirstSeen(stream)
  {
    SeenIffObserved(k, stream);
    Folded(Observations(k, stream))
  }

  function Rows(keys: seq<Key>, stream: seq<Asset>): seq<Asset>
    requires forall i :: 0 <= i < |keys| ==> keys[i] in FirstSeen(stream)
  {
    seq(|keys|, i requires 0 <= i < |keys| => Row(keys[i], stream))
  }

  /** `n` observations are read: the fewest past the root that reach the cap, or all of them. */
  ghost predicate CutAt(root: seq<Asset>, stream: seq<Asset>, n: nat) {
    && n <= |stream|
    && (forall m :: 1 <= m < n ==> |FirstSeen(root + stream[..m])| < MAX_ASSETS)
    && (n == |stream| || (n >= 1 && |FirstSeen(root + stream[..n])| >= MAX_ASSETS))
  }

  /** What a run's output describes, given the optional root asset. */
  ghost predicate Describes(root: seq<Asset>, stream: seq<Asset>, rows: seq<Asset>) {
    exists n: nat :: CutAt(root, stream, n)
      && rows == Rows(FirstSeen(root + stream[..n]), root + stream[..n])
  }

  // ----- the loop ----------------------------------------------------------------------------

  function Flatten(files: seq<seq<Asset>>): seq<Asset>
    decreases |files|
  {
    if files == [] then [] else Flatten(files[..|files| - 1]) + files[|files| - 1]
  }

  /** A dictionary that remembers insertion order, as the loop keeps it. */
  class Inventory {
    var order: seq<Key>
    var entries: map<Key, Asset>

    constructor ()
      ensures order == [] && entries == map[]
      ensures Holds([])
    {
      order, entries := [], map[];
    }

    /** The dictionary is what the specification says of the observations read so far. */
    ghost predicate Holds(stream: seq<Asset>)
      reads this
    {
      && order == FirstSeen(stream)
      && (forall k :: k in entries <==> k in order)
      && (forall k <- order :: entries[k] == Row(k, stream))
    }

    method Observe(asset: Asset, ghost stream: seq<Asset>)
      requires Holds(stream)
      modifies this
      ensures Holds(stream + [asset])
    {
      var k := KeyOf(asset);
      ObserveMore(stream, asset);
      if k in entries {
        entries := entries[k := MergedWith(entries[k], asset)];
      } else {
        entries := entries[k := asset];
        order := order + [k];
      }
    }

    method Values(ghost stream: seq<Asset>) returns (rows: seq<Asset>)
      requires Holds(stream)
      ensures rows == Rows(FirstSeen(stream), stream)
    {
      rows := [];
      for i := 0 to |order|
        invariant |rows| == i
        invariant forall j :: 0 <= j < i ==> rows[j] == Row(order[j], stream)
      {
        assert order[i] in order;
        rows := rows + [entries[order[i]]];
      }
    }
  }

  /** How one more observation changes every key's row. */
  lemma ObserveMore(stream: seq<Asset>, asset: Asset)
    ensures var k, more := KeyOf(asset), stream + [asset];
      && FirstSeen(more) == (if k in FirstSeen(stream) then FirstSeen(stream) else FirstSeen(stream) + [k])
      && Row(k, more) == (if k in FirstSeen(stream) then MergedWith(Row(k, stream), asset) else asset)
      && (forall j <- FirstSeen(stream) :: j != k ==> j in FirstSeen(more) && Row(j, more) == Row(j, stream))
  {
    var k, more := KeyOf(asset), stream + [asset];
    assert more[..|more| - 1] == stream;
    SeenIffObserved(k, stream);
    SeenIffObserved(k, more);
    var obs := Observations(k, stream);
    assert (obs + [asset])[..|obs|] == obs;
  }

  /** No prefix of the first `n` observations reaches the cap. */
  ghost predicate BelowCap(root: seq<Asset>, stream: seq<Asset>, n: nat) {
    n <= |stream| && forall m :: 1 <= m <= n ==> |FirstSeen(root + stream[..m])| < MAX_ASSETS
  }

  /** Merge one file's assets, found in the stream from `start` on, until the cap is reached. */
  method ReadFile(merged: Inventory, file: seq<Asset>,
                  ghost root: seq<Asset>, ghost stream: seq<Asset>, ghost start: nat)
    returns (full: bool, ghost n: nat)
    requires start + |file| <= |stream| && stream[start..start + |file|] == file
    requires merged.Holds(root + stream[..start]) && BelowCap(root, stream, start)
    modifies merged
    ensures start <= n <= |stream| && merged.Holds(root + stream[..n])
    ensures full ==> CutAt(root, stream, n)
    ensures !full ==> n == start + |file| && BelowCap(root, stream, n)
  {
    hide FirstSeen;
    n := start;
    for i := 0 to |file|
      invariant n == start + i
      invariant merged.Holds(root + stream[..n])
      invariant BelowCap(root, stream, n)
    {
      assert stream[n] == file[i];
      assert root + stream[..n + 1] == root + stream[..n] + [stream[n]];
      merged.Observe(file[i], root + stream[..n]);
      n := n + 1;
      if |merged.order| >= MAX_ASSETS {
        return true, n;
      }
    }
    full := false;
  }

  /** `parse_recon_output` over the parsed files: the root asset first, then every file's assets,
      stopping as soon as the cap is reached. */
  method ParseReconOutput(root: Option<Asset>, outDirExists: bool, files: seq<seq<Asset>>)
    returns (rows: seq<Asset>)
    ensures Describes(if root.Some? then [root.value] else [], if outDirExists then Flatten(files) else [], rows)
  {
    hide FirstSeen, Flatten, Rows;
    var merged := new Inventory();
    ghost var first := [];
    if root.Some? {
      first := [root.value];
      merged.Observe(root.value, []);
      assert [] + [root.value] == first;
    }
    ghost var all := if outDirExists then Flatten(files) else [];
    ghost var n := 0;
    assert first + all[..0] == first;
    if outDirExists {
      FlattenWhole(files);
      for f := 0 to |files|
        invariant n == |Flatten(files[..f])| <= |all|
        invariant merged.Holds(first + all[..n])
        invariant BelowCap(first, all, n)
      {
        FlattenStep(files, f);
        var full: bool;
        full, n := ReadFile(merged, files[f], first, all, n);
        if full {
          rows := merged.Values(first + all[..n]);
          return;
        }
      }
    }
    rows := merged.Values(first + all[..n]);
    assert CutAt(first, all, n);
  }

  lemma FlattenWhole(files: seq<seq<Asset>>)
    ensures Flatten(files[..0]) == [] && files[..|files|] == files
  {
  }

  lemma {:induction false} FlattenConcat(a: seq<seq<Asset>>, b: seq<seq<Asset>>)
    ensures Flatten(a + b) == Flatten(a) + Flatten(b)
    decreases |b|
  {
    if b == [] {
      assert a + b == a;
    } else {
      var front, last := b[..|b| - 1], b[|b| - 1];
      FlattenConcat(a, front);
      assert (a + b)[..|a + b| - 1] == a + front;
      assert Flatten(a + b) == (Flatten(a) + Flatten(front)) + last;
      assert Flatten(b) == Flatten(front) + last;
    }
  }

  lemma FlattenStep(files: seq<seq<Asset>>, f: nat)
    requires f < |files|
    ensures var start := |Flatten(files[..f])|;
      && start + |files[f]| <= |Flatten(files)|
      && Flatten(files)[..start] == Flatten(files[..f])
      && Flatten(files)[start..start + |files[f]|] == files[f]
      && Flatten(files[..f + 1]) == Flatten(files[..f]) + files[f]
  {
    assert files[..f + 1][..f] == files[..f];
    assert files == files[..f + 1] + files[f + 1..];
    FlattenConcat(files[..f + 1], files[f + 1..]);
  }

  // ----- what the result is ---------------------------------------------------------------------

  ghost predicate Distinct(keys: seq<Key>) {
    forall i, j :: 0 <= i < j < |keys| ==> keys[i] != keys[j]
  }

  lemma {:induction false} FirstSeenDistinct(stream: seq<Asset>)
    ensures Distinct(FirstSeen(stream))
    decreases |stream|
  {
    if stream != [] {
      FirstSeenDistinct(stream[..|stream| - 1]);
    }
  }

  lemma {:induction false} FoldKeepsKey(k: Key, stream: seq<Asset>)
    requires k in FirstSeen(stream)
    ensures KeyOf(Row(k, stream)) == k
    decreases |stream|
  {
    SeenIffObserved(k, stream);
    ObservedKeys(k, stream);
    FoldedKey(Observations(k, stream));
  }

  lemma {:induction false} ObservedKeys(k: Key, stream: seq<Asset>)
    ensures forall a <- Observations(k, stream) :: KeyOf(a) == k
    decreases |stream|
  {
    if stream != [] {
      ObservedKeys(k, stream[..|stream| - 1]);
    }
  }

  lemma {:induction false} FoldedKey(obs: seq<Asset>)
    requires obs != []
    ensures KeyOf(Folded(obs)) == KeyOf(obs[0])
    decreases |obs|
  {
    if |obs| > 1 {
      FoldedKey(obs[..|obs| - 1]);
    }
  }

  lemma {:induction false} FirstSeenGrowsByOne(root: seq<Asset>, stream: seq<Asset>, n: nat)
    requires n < |stream|
    ensures |FirstSeen(root + stream[..n + 1])| <= |FirstSeen(root + stream[..n])| + 1
  {
    assert (root + stream[..n + 1])[..|root| + n] == root + stream[..n];
  }

  /** No row repeats a key, every row carries the key it stands for, and there are never more
      rows than the cap. */
  lemma ResultIsCappedAndKeyed(root: seq<Asset>, stream: seq<Asset>, rows: seq<Asset>)
    requires |root| <= 1 && Describes(root, stream, rows)
    ensures |rows| <= MAX_ASSETS
    ensures forall i, j :: 0 <= i < j < |rows| ==> KeyOf(rows[i]) != KeyOf(rows[j])
  {
    var n: nat :| CutAt(root, stream, n) && rows == Rows(FirstSeen(root + stream[..n]), root + stream[..n]);
    var read := root + stream[..n];
    var keys := FirstSeen(read);
    FirstSeenDistinct(read);
    forall i | 0 <= i < |rows|
      ensures KeyOf(rows[i]) == keys[i]
    {
      FoldKeepsKey(keys[i], read);
    }
    if n >= 1 {
      FirstSeenGrowsByOne(root, stream, n - 1);
      if n == 1 {
        assert root + stream[..0] == root;
        SeenIffObserved(keys[0], root);
      }
    } else {
      assert read == root;
      if keys != [] {
        SeenIffObserved(keys[0], root);
      }
    }
  }

  // ----- merging in pieces ------------------------------------------------------------------------

  lemma {:induction false} FoldConcat(a: seq<Asset>, b: seq<Asset>)
    requires a != [] && b != []
    ensures Folded(a + b) == MergedWith(Folded(a), Folded(b))
    decreases |b|
  {
    assert (a + b)[..|a + b| - 1] == a + b[..|b| - 1];
    if |b| == 1 {
      assert a + b[..0] == a;
    } else {
      FoldConcat(a, b[..|b| - 1]);
      MergeAssociates(Folded(a), Folded(b[..|b| - 1]), b[|b| - 1]);
    }
  }

  lemma {:induction false} ObservationsConcat(k: Key, a: seq<Asset>, b: seq<Asset>)
    ensures Observations(k, a + b) == Observations(k, a) + Observations(k, b)
    decreases |b|
  {
    if b == [] {
      assert a + b == a;
    } else {
      assert (a + b)[..|a + b| - 1] == a + b[..|b| - 1];
      ObservationsConcat(k, a, b[..|b| - 1]);
    }
  }

  /** Two streams may be merged on their own first: each key's row over both is the merge of its
      rows over each. */
  lemma RowsMergeInPieces(k: Key, a: seq<Asset>, b: seq<Asset>)
    ensures k in FirstSeen(a + b) <==> k in FirstSeen(a) || k in FirstSeen(b)
    ensures k in FirstSeen(a) && k in FirstSeen(b) ==> Row(k, a + b) == MergedWith(Row(k, a), Row(k, b))
    ensures k in FirstSeen(a) && k !in FirstSeen(b) ==> Row(k, a + b) == Row(k, a)
    ensures k !in FirstSeen(a) && k in FirstSeen(b) ==> Row(k, a + b) == Row(k, b)
  {
    ObservationsConcat(k, a, b);
    SeenIffObserved(k, a);
    SeenIffObserved(k, b);
    SeenIffObserved(k, a + b);
    var left, right := Observations(k, a), Observations(k, b);
    if left != [] && right != [] {
      FoldConcat(left, right);
    } else if left == [] {
      assert left + right == right;
    } else {
      assert left + right == left;
    }
  }

  // ----- which observation a field comes from -------------------------------------------------------

  datatype Field = Type | Ip | Service | Technology | Title | Code | Tls | Evidence(attribute: string)

  /** Whether an observation has a value of its own for a field. */
  predicate Has(a: Asset, f: Field) {
    match f
    case Type => a.assetType != ""
    case Ip => a.ipAddress.Some? && a.ipAddress.value != ""
    case Service => a.service.Some? && a.service.value != ""
    case Technology => a.technology != []
    case Title => a.httpTitle.Some? && a.httpTitle.value != ""
    case Code => a.httpStatusCode.Some? && a.httpStatusCode.value != 0
    case Tls => a.tlsSubject.Some? && a.tlsSubject.value != ""
    case Evidence(attribute) => attribute in a.evidence
  }

  predicate Agree(a: Asset, b: Asset, f: Field) {
    match f
    case Type => a.assetType == b.assetType
    case Ip => a.ipAddress == b.ipAddress
    case Service => a.service == b.service
    case Technology => a.technology == b.technology
    case Title => a.httpTitle == b.httpTitle
    case Code => a.httpStatusCode == b.httpStatusCode
    case Tls => a.tlsSubject == b.tlsSubject
    case Evidence(attribute) =>
      (attribute in a.evidence <==> attribute in b.evidence)
      && (attribute in a.evidence ==> a.evidence[attribute] == b.evidence[attribute])
  }

  lemma MergedField(a: Asset, b: Asset, f: Field)
    ensures Agree(MergedWith(a, b), if Has(b, f) then b else a, f)
  {
  }

  lemma AgreeTransitive(a: Asset, b: Asset, c: Asset, f: Field)
    requires Agree(a, b, f) && Agree(b, c, f)
    ensures Agree(a, c, f)
  {
  }

  /** Observation `i` is the last one with a value for `f`. */
  ghost predicate LastWith(obs: seq<Asset>, f: Field, i: nat) {
    i < |obs| && Has(obs[i], f) && forall j :: i < j < |obs| ==> !Has(obs[j], f)
  }

  /** Every field of a row is the last value any observation had for it, or the first observation's
      when none had one. */
  lemma {:induction false} RowTakesLastValues(obs: seq<Asset>, f: Field, i: nat)
    requires obs != []
    ensures LastWith(obs, f, i) ==> Agree(Folded(obs), obs[i], f)
    ensures (forall j :: 0 <= j < |obs| ==> !Has(obs[j], f)) ==> Agree(Folded(obs), obs[0], f)
    decreases |obs|
  {
    hide Agree, Has, MergedWith;
    if |obs| == 1 {
      AgreeReflexive(obs[0], f);
    } else {
      var front, last := obs[..|obs| - 1], obs[|obs| - 1];
      RowTakesLastValues(front, f, i);
      MergedField(Folded(front), last, f);
      if !Has(last, f) {
        if LastWith(obs, f, i) {
          AgreeTransitive(Folded(obs), Folded(front), obs[i], f);
        }
        if forall j :: 0 <= j < |obs| ==> !Has(obs[j], f) {
          AgreeTransitive(Folded(obs), Folded(front), obs[0], f);
        }
      }
    }
  }

  /** The status and the key are the first observation's, and a row is exposed when any was. */
  lemma {:induction false} RowKeepsFirstStatus(obs: seq<Asset>)
    requires obs != []
    ensures Folded(obs).internetExposed <==> exists j :: 0 <= j < |obs| && obs[j].internetExposed
    ensures Folded(obs).status == obs[0].status && KeyOf(Folded(obs)) == KeyOf(obs[0])
    decreases |obs|
  {
    if |obs| > 1 {
      var front, last := obs[..|obs| - 1], obs[|obs| - 1];
      RowKeepsFirstStatus(front);
      assert Folded(obs) == MergedWith(Folded(front), last);
    }
  }

  lemma AgreeReflexive(a: Asset, f: Field)
    ensures Agree(a, a, f)
  {
  }

  // ----- which observations share a row -------------------------------------------------------------

  /** One asset: the same name, port and protocol, whatever else was observed. */
  predicate SameAsset(a: Asset, b: Asset) {
    a.name == b.name && a.port == b.port && a.protocol == b.protocol
  }

  /** `ix` are all the places, in order, where `a` was observed. */
  ghost predicate Sightings(ix: seq<nat>, stream: seq<Asset>, a: Asset) {
    && ix != []
    && (forall t :: 0 <= t < |ix| ==> ix[t] < |stream|)
    && (forall t :: 0 < t < |ix| ==> ix[t - 1] < ix[t])
    && (forall p: nat :: p < |stream| ==> (SameAsset(stream[p], a) <==> p in ix))
  }

  function At(stream: seq<Asset>, ix: seq<nat>): seq<Asset>
    requires forall t :: 0 <= t < |ix| ==> ix[t] < |stream|
  {
    seq(|ix|, t requires 0 <= t < |ix| => stream[ix[t]])
  }

  /** The row is the merge of all sightings of its asset. */
  ghost predicate Merges(row: Asset, stream: seq<Asset>) {
    exists ix :: Sightings(ix, stream, row) && row == Folded(At(stream, ix))
  }

  ghost predicate HasRow(rows: seq<Asset>, a: Asset) {
    exists i :: 0 <= i < |rows| && SameAsset(rows[i], a)
  }

  lemma {:induction false} ObservationsAt(k: Key, stream: seq<Asset>) returns (ix: seq<nat>)
    ensures forall t :: 0 <= t < |ix| ==> ix[t] < |stream|
    ensures forall t :: 0 < t < |ix| ==> ix[t - 1] < ix[t]
    ensures forall p: nat :: p < |stream| ==> (KeyOf(stream[p]) == k <==> p in ix)
    ensures At(stream, ix) == Observations(k, stream)
    decreases |stream|
  {
    ix := [];
    if stream != [] {
      ix := ObservationsAt(k, stream[..|stream| - 1]);
      if KeyOf(stream[|stream| - 1]) == k {
        ix := ix + [|stream| - 1];
      }
    }
  }

  /** `k` was observed before any `l`. */
  ghost predicate SeenBefore(stream: seq<Asset>, k: Key, l: Key) {
    exists p :: 0 <= p < |stream| && KeyOf(stream[p]) == k && forall q :: 0 <= q <= p ==> KeyOf(stream[q]) != l
  }

  lemma {:induction false} FirstSeenInOrder(stream: seq<Asset>, i: nat, j: nat)
    requires i < j < |FirstSeen(stream)|
    ensures SeenBefore(stream, FirstSeen(stream)[i], FirstSeen(stream)[j])
    decreases |stream|
  {
    var front := stream[..|stream| - 1];
    var seen := FirstSeen(front);
    if j < |seen| {
      FirstSeenInOrder(front, i, j);
      var p :| 0 <= p < |front| && KeyOf(front[p]) == seen[i] && forall q :: 0 <= q <= p ==> KeyOf(front[q]) != seen[j];
      assert forall q :: 0 <= q <= p ==> stream[q] == front[q];
    } else {
      var k := KeyOf(stream[|stream| - 1]);
      SeenIffObserved(seen[i], front);
      var ix := ObservationsAt(seen[i], front);
      var none := ObservationsAt(k, front);
      SeenIffObserved(k, front);
      assert At(front, none) == [];
      assert ix[0] in ix;
      assert KeyOf(stream[ix[0]]) == seen[i];
      forall q | 0 <= q <= ix[0]
        ensures KeyOf(stream[q]) != k
      {
        assert stream[q] == front[q];
        assert q !in none;
      }
    }
  }

  /** Observations share a row if and only if name, port and protocol are equal: every asset that was
      read has a row, a row merges all sightings of its asset in order, rows come as their assets were
      first seen, and reading stops early only with 5000 of them. */
  lemma RowsMergeSightings(root: seq<Asset>, stream: seq<Asset>, rows: seq<Asset>) returns (n: nat)
    requires |root| <= 1 && Describes(root, stream, rows)
    ensures n <= |stream| && |rows| <= 5000 && (n < |stream| ==> |rows| == 5000)
    ensures forall a <- root + stream[..n] :: HasRow(rows, a)
    ensures forall i, j :: 0 <= i < j < |rows| ==>
              !SameAsset(rows[i], rows[j]) && SeenBefore(root + stream[..n], KeyOf(rows[i]), KeyOf(rows[j]))
    ensures forall row <- rows :: Merges(row, root + stream[..n])
  {
    hide FirstSeen, SeenBefore, Merges, Observations;
    n :| CutAt(root, stream, n) && rows == Rows(FirstSeen(root + stream[..n]), root + stream[..n]);
    var read := root + stream[..n];
    var keys := FirstSeen(read);
    ResultIsCappedAndKeyed(root, stream, rows);
    forall i | 0 <= i < |rows|
      ensures KeyOf(rows[i]) == keys[i]
      ensures Merges(rows[i], read)
    {
      FoldKeepsKey(keys[i], read);
      RowMerges(keys[i], read);
    }
    forall a | a in read
      ensures HasRow(rows, a)
    {
      var p :| 0 <= p < |read| && read[p] == a;
      SightedIsSeen(read, p);
      var i :| 0 <= i < |keys| && keys[i] == KeyOf(read[p]);
      assert KeyOf(rows[i]) == KeyOf(read[p]);
    }
    forall i, j | 0 <= i < j < |rows|
      ensures !SameAsset(rows[i], rows[j]) && SeenBefore(read, KeyOf(rows[i]), KeyOf(rows[j]))
    {
      FirstSeenInOrder(read, i, j);
    }
  }

  lemma RowMerges(k: Key, stream: seq<Asset>)
    requires k in FirstSeen(stream)
    ensures Merges(Row(k, stream), stream)
  {
    hide FirstSeen, Folded;
    var ix := ObservationsAt(k, stream);
    SeenIffObserved(k, stream);
    FoldKeepsKey(k, stream);
  }

  lemma SightedIsSeen(stream: seq<Asset>, p: nat)
    requires p < |stream|
    ensures KeyOf(stream[p]) in FirstSeen(stream)
  {
    hide FirstSeen;
    var k := KeyOf(stream[p]);
    var ix := ObservationsAt(k, stream);
    SeenIffObserved(k, stream);
    assert p in ix;
  }
}
