/** The bytes a package version hashes: the package's assets, sorted, each as
    three NUL-terminated fields. */
module PackageVersion {
  import opened Text

  datatype Asset = Asset(path: string, size: int, sha256: string)

  /** The comparator given to sort.Slice. */
  predicate Before(a: Asset, b: Asset) {
    if a.path != b.path then Less(a.path, b.path)
    else if a.size != b.size then a.size < b.size
    else Less(a.sha256, b.sha256)
  }

  predicate Sorted(assets: seq<Asset>) {
    forall i, j :: 0 <= i < j < |assets| ==> !Before(assets[j], assets[i])
  }

  lemma BeforeTotal(a: Asset, b: Asset)
    ensures a == b || Before(a, b) || Before(b, a)
  {
    LessTotal(a.path, b.path);
    LessTotal(a.sha256, b.sha256);
  }

  lemma BeforeTransitive(a: Asset, b: Asset, c: Asset)
    requires Before(a, b) && Before(b, c)
    ensures Before(a, c)
  {
    if a.path != b.path && b.path != c.path {
      LessTransitive(a.path, b.path, c.path);
      LessIrreflexive(a.path);
    } else if a.path == b.path == c.path && a.size == b.size == c.size {
      LessTransitive(a.sha256, b.sha256, c.sha256);
    }
    if a.path == c.path && a.path != b.path {
      LessIrreflexive(a.path);
    }
  }

  lemma BeforeAsymmetric(a: Asset, b: Asset)
    requires Before(a, b)
    ensures !Before(b, a)
  {
    if Before(b, a) {
      BeforeTransitive(a, b, a);
      LessIrreflexive(a.sha256);
    }
  }

  lemma NothingBeforeHead(s: seq<Asset>, x: Asset)
    requires Sorted(s) && x in s
    ensures !Before(x, s[0])
  {
    var k :| 0 <= k < |s| && s[k] == x;
    if k == 0 && Before(x, s[0]) {
      BeforeAsymmetric(x, x);
    }
  }

  lemma SortedTail(s: seq<Asset>)
    requires Sorted(s) && s != []
    ensures Sorted(s[1..])
  {
  }

  lemma SameTails<T>(a: seq<T>, b: seq<T>)
    requires a != [] && b != [] && a[0] == b[0] && multiset(a) == multiset(b)
    ensures multiset(a[1..]) == multiset(b[1..])
  {
    assert a == [a[0]] + a[1..] && b == [b[0]] + b[1..];
    assert multiset(a[1..]) == multiset(a) - multiset{a[0]};
    assert multiset(b[1..]) == multiset(b) - multiset{b[0]};
  }

  lemma SameHeads(a: seq<Asset>, b: seq<Asset>)
    requires Sorted(a) && Sorted(b) && a != [] && b != []
    requires a[0] in b && b[0] in a
    ensures a[0] == b[0]
  {
    NothingBeforeHead(a, b[0]);
    NothingBeforeHead(b, a[0]);
    BeforeTotal(a[0], b[0]);
  }

  // Any two sorted arrangements of the same assets are the same sequence, so
  // the version does not depend on which sorting algorithm is used.
  lemma {:induction false} SortedUnique(a: seq<Asset>, b: seq<Asset>)
    requires Sorted(a) && Sorted(b) && multiset(a) == multiset(b)
    ensures a == b
  {
    assert |multiset(a)| == |a| && |multiset(b)| == |b|;
    if a != [] {
      assert a[0] in multiset(b) && b[0] in multiset(a);
      SameHeads(a, b);
      SameTails(a, b);
      SortedTail(a);
      SortedTail(b);
      SortedUnique(a[1..], b[1..]);
      assert a == [a[0]] + a[1..] && b == [b[0]] + b[1..];
    }
  }

  function Fields(assets: seq<Asset>): (f: seq<string>)
    ensures |f| == 3 * |assets|
  {
    if assets == [] then []
    else [assets[0].path, Decimal(assets[0].size), assets[0].sha256] + Fields(assets[1..])
  }

  lemma {:induction false} FieldsInjective(a: seq<Asset>, b: seq<Asset>)
    requires Fields(a) == Fields(b)
    ensures a == b
  {
    if a != [] && b != [] {
      assert Fields(a)[0] == Fields(b)[0] && Fields(a)[1] == Fields(b)[1] && Fields(a)[2] == Fields(b)[2];
      DecimalInjective(a[0].size, b[0].size);
      assert Fields(a)[3..] == Fields(a[1..]) && Fields(b)[3..] == Fields(b[1..]);
      FieldsInjective(a[1..], b[1..]);
      assert a == [a[0]] + a[1..] && b == [b[0]] + b[1..];
    }
  }

  lemma {:induction false} FieldsAppend(a: seq<Asset>, last: Asset)
    ensures Fields(a + [last]) == Fields(a) + [last.path, Decimal(last.size), last.sha256]
  {
    if a == [] {
      assert a + [last] == [last];
      assert Fields([last][1..]) == [];
    } else {
      assert (a + [last])[1..] == a[1..] + [last];
      FieldsAppend(a[1..], last);
    }
  }

  // The position at which `x` goes into a sorted sequence.
  method Position(sorted: seq<Asset>, x: Asset) returns (at: nat)
    requires Sorted(sorted)
    ensures at <= |sorted|
    ensures forall i :: 0 <= i < at ==> !Before(x, sorted[i])
    ensures forall i :: at <= i < |sorted| ==> !Before(sorted[i], x)
  {
    at := |sorted|;
    while at > 0 && Before(x, sorted[at - 1])
      invariant at <= |sorted|
      invariant forall i :: at <= i < |sorted| ==> Before(x, sorted[i])
    {
      at := at - 1;
    }
    forall i | at <= i < |sorted| ensures !Before(sorted[i], x) {
      BeforeAsymmetric(x, sorted[i]);
    }
    forall i | 0 <= i < at ensures !Before(x, sorted[i]) {
      if Before(x, sorted[i]) {
        NotBeforeLast(x, sorted, i, at - 1);
      }
    }
  }

  lemma NotBeforeLast(x: Asset, sorted: seq<Asset>, i: nat, last: nat)
    requires Sorted(sorted) && i <= last < |sorted|
    requires Before(x, sorted[i])
    ensures Before(x, sorted[last])
  {
    if i < last {
      BeforeTotal(sorted[i], sorted[last]);
      if Before(sorted[i], sorted[last]) {
        BeforeTransitive(x, sorted[i], sorted[last]);
      }
    }
  }

  lemma InsertionKeepsSorted(sorted: seq<Asset>, x: Asset, at: nat)
    requires Sorted(sorted) && at <= |sorted|
    requires forall i :: 0 <= i < at ==> !Before(x, sorted[i])
    requires forall i :: at <= i < |sorted| ==> !Before(sorted[i], x)
    ensures Sorted(sorted[..at] + [x] + sorted[at..])
    ensures multiset(sorted[..at] + [x] + sorted[at..]) == multiset(sorted) + multiset{x}
  {
    assert sorted == sorted[..at] + sorted[at..];
  }

  /** Sorts a copy; the input keeps its order. */
  method SortAssets(assets: seq<Asset>) returns (sorted: seq<Asset>)
    ensures Sorted(sorted) && multiset(sorted) == multiset(assets)
  {
    sorted := [];
    for i := 0 to |assets|
      invariant Sorted(sorted) && multiset(sorted) == multiset(assets[..i])
    {
      var at := Position(sorted, assets[i]);
      InsertionKeepsSorted(sorted, assets[i], at);
      sorted := sorted[..at] + [assets[i]] + sorted[at..];
      assert assets[..i + 1] == assets[..i] + [assets[i]];
    }
    assert assets[..|assets|] == assets;
  }

  /** The bytes are those of some sorted arrangement of the assets. */
  ghost predicate IsVersionInput(bytes: string, assets: seq<Asset>) {
    exists sorted :: Sorted(sorted) && multiset(sorted) == multiset(assets) && bytes == Terminated(Fields(sorted))
  }

  /** Everything packageVersion feeds to its hasher, in order. */
  method VersionInput(assets: seq<Asset>) returns (bytes: string)
    ensures IsVersionInput(bytes, assets)
  {
    var sorted := SortAssets(assets);
    bytes := "";
    for i := 0 to |sorted|
      invariant bytes == Terminated(Fields(sorted[..i]))
    {
      var asset := sorted[i];
      OneMoreFed(sorted[..i], asset);
      assert sorted[..i + 1] == sorted[..i] + [asset];
      bytes := bytes + asset.path + [NUL] + Decimal(asset.size) + [NUL] + asset.sha256 + [NUL];
    }
    assert sorted[..|sorted|] == sorted;
  }

  lemma OneMoreFed(fed: seq<Asset>, asset: Asset)
    ensures Terminated(Fields(fed + [asset])) ==
            Terminated(Fields(fed)) + asset.path + [NUL] + Decimal(asset.size) + [NUL] + asset.sha256 + [NUL]
  {
    FieldsAppend(fed, asset);
    TerminatedAppend(Fields(fed), [asset.path, Decimal(asset.size), asset.sha256]);
    ThreeFields(asset.path, Decimal(asset.size), asset.sha256);
    var head := Terminated(Fields(fed));
    assert head + (asset.path + [NUL] + Decimal(asset.size) + [NUL] + asset.sha256 + [NUL]) ==
           head + asset.path + [NUL] + Decimal(asset.size) + [NUL] + asset.sha256 + [NUL];
  }

  lemma ThreeFields(a: string, b: string, c: string)
    ensures Terminated([a, b, c]) == a + [NUL] + b + [NUL] + c + [NUL]
  {
    assert [a, b, c][1..] == [b, c] && [b, c][1..] == [c] && [c][1..] == [];
    assert Terminated([c]) == c + [NUL];
    assert Terminated([b, c]) == b + [NUL] + Terminated([c]);
    assert Terminated([a, b, c]) == a + [NUL] + Terminated([b, c]);
  }

  predicate NulFreeAssets(assets: seq<Asset>) {
    forall a <- assets :: NulFree(a.path) && NulFree(a.sha256)
  }

  lemma {:induction false} FieldsNulFree(assets: seq<Asset>)
    requires NulFreeAssets(assets)
    ensures forall f <- Fields(assets) :: NulFree(f)
  {
    if assets != [] {
      FieldsNulFree(assets[1..]);
    }
  }

  lemma RearrangedNulFree(a: seq<Asset>, b: seq<Asset>)
    requires NulFreeAssets(a) && multiset(a) == multiset(b)
    ensures NulFreeAssets(b)
  {
    forall asset <- b ensures NulFree(asset.path) && NulFree(asset.sha256) {
      assert asset in multiset(b);
      assert asset in multiset(a);
      assert asset in a;
    }
  }

  /** Two packages hash the same bytes exactly when they hold the same assets,
      in whatever order they were listed. */
  lemma VersionInputIsCanonical(a: seq<Asset>, b: seq<Asset>, x: string, y: string)
    requires IsVersionInput(x, a) && IsVersionInput(y, b)
    requires NulFreeAssets(a) && NulFreeAssets(b)
    ensures x == y <==> multiset(a) == multiset(b)
  {
    var s :| Sorted(s) && multiset(s) == multiset(a) && x == Terminated(Fields(s));
    var t :| Sorted(t) && multiset(t) == multiset(b) && y == Terminated(Fields(t));
    if x == y {
      RearrangedNulFree(a, s);
      RearrangedNulFree(b, t);
      FieldsNulFree(s);
      FieldsNulFree(t);
      TerminatedInjective(Fields(s), Fields(t));
      FieldsInjective(s, t);
    }
    if multiset(a) == multiset(b) {
      SortedUnique(s, t);
    }
  }

  lemma OneAsset(a: Asset)
    ensures Fields([a]) == [a.path, Decimal(a.size), a.sha256]
    ensures var nul := [0 as char];
            Terminated(Fields([a])) == a.path + nul + Decimal(a.size) + nul + a.sha256 + nul
  {
    assert [a][1..] == [];
    ThreeFields(a.path, Decimal(a.size), a.sha256);
  }

  lemma TwoAssets(p: Asset, q: Asset)
    ensures Terminated(Fields([p, q])) == Terminated(Fields([p])) + Terminated(Fields([q]))
  {
    assert [p, q] == [p] + [q];
    FieldsAppend([p], q);
    OneAsset(q);
    TerminatedAppend(Fields([p]), Fields([q]));
  }

  lemma Prefixed(head: string, a: string, b: string, c: string)
    ensures (head + a) + [NUL] + b + [NUL] + c + [NUL] == head + (a + [NUL] + b + [NUL] + c + [NUL])
  {
  }

  /** The order spelled out: by path, then size, then digest. */
  lemma SortedMeans(assets: seq<Asset>, i: nat, j: nat)
    requires Sorted(assets) && i < j < |assets|
    ensures var a, b := assets[i], assets[j];
            || a == b
            || (exists k: nat :: DiffersAt(a.path, b.path, k))
            || (a.path == b.path && a.size < b.size)
            || (a.path == b.path && a.size == b.size && exists k: nat :: DiffersAt(a.sha256, b.sha256, k))
  {
    BeforeTotal(assets[i], assets[j]);
    LessMeans(assets[i].path, assets[j].path);
    LessMeans(assets[i].sha256, assets[j].sha256);
  }

  /** Why the assets must be free of NULs, as the generator's are: otherwise one
      asset could spell two. */
  lemma NulInAPathIsAmbiguous(p: Asset, q: Asset) returns (one: Asset)
    requires Before(p, q)
    ensures exists x: string :: IsVersionInput(x, [one]) && IsVersionInput(x, [p, q])
    ensures multiset([one]) != multiset([p, q])
  {
    var head := p.path + [NUL] + Decimal(p.size) + [NUL] + p.sha256 + [NUL];
    one := Asset(head + q.path, q.size, q.sha256);
    OneAsset(one);
    OneAsset(p);
    OneAsset(q);
    TwoAssets(p, q);
    Prefixed(head, q.path, Decimal(q.size), q.sha256);
    var x := Terminated(Fields([one]));
    assert x == Terminated(Fields([p, q]));
    assert Sorted([one]) && IsVersionInput(x, [one]);
    BeforeAsymmetric(p, q);
    assert Sorted([p, q]) && IsVersionInput(x, [p, q]);
    assert |multiset([one])| == 1 && |multiset([p, q])| == 2;
  }
}
