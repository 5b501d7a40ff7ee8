/**
 * The asset audit of tools/audit_models.py: for every product of the
 * catalogue it computes the four artifact file names from the product's
 * key and lists the products for which at least one of them is missing.
 *
 * The catalogue, read from a JSON file in the source, is a parameter: a
 * sequence of (category, products) pairs: the items of the loaded
 * dictionary, in its order. Whether a
 * file exists in the models directory is the parameter `onDisk`.
 */
module AuditModels {
  import opened CleanName

  /** The four artifact kinds, in the order of the dict literal of
      tools/audit_models.py. */
  datatype Kind = Arima | Rf | Lstm | Scaler

  const AllKinds: seq<Kind> := [Arima, Rf, Lstm, Scaler]

  /** Position of a kind in `AllKinds`. */
  function Rank(k: Kind): (n: nat)
    ensures n < |AllKinds| && AllKinds[n] == k
  {
    match k
    case Arima => 0
    case Rf => 1
    case Lstm => 2
    case Scaler => 3
  }

  /** The label the audit reports for a kind (the dict key). */
  function Label(k: Kind): (name: string)
    ensures |name| < |Suffix(k)| && Suffix(k)[1..|name| + 1] == name
  {
    match k
    case Arima => "arima"
    case Rf => "rf"
    case Lstm => "lstm"
    case Scaler => "scaler"
  }

  /** Whether a file is missing depends only on the product's key: two
      names with the same key have the same absent kinds. */
  lemma MissingDependsOnlyOnKey(cl: CharClasses, onDisk: string -> bool, p1: string, p2: string, k: Kind)
    requires Clean(cl, p1) == Clean(cl, p2)
    ensures Missing(cl, onDisk, p1, k) <==> Missing(cl, onDisk, p2, k)
  {
  }

  /** The audit reports the label of each absent kind; distinct kinds have
      distinct labels, so an entry's list of kinds and the printed label
      list determine each other. */
  lemma LabelInjective(k1: Kind, k2: Kind)
    ensures Label(k1) == Label(k2) <==> k1 == k2
  {
  }

  /** The fixed file-name suffix of each kind. */
  function Suffix(k: Kind): (sfx: string)
    ensures |sfx| > 1 && sfx[0] == '_'
  {
    match k
    case Arima => "_arima_model.pkl"
    case Rf => "_rf_model.pkl"
    case Lstm => "_lstm_model.h5"
    case Scaler => "_scaler.pkl"
  }

  /** The file name of artifact `k` of `product`: the product's key followed
      by the kind's suffix. */
  function ArtifactName(cl: CharClasses, product: string, k: Kind): (file: string)
    ensures |file| == |Clean(cl, product)| + |Suffix(k)|
  {
    Clean(cl, product) + Suffix(k)
  }

  /** No suffix ends another one. */
  lemma SuffixesDoNotOverlap(k1: Kind, k2: Kind)
    requires k1 != k2 && |Suffix(k1)| <= |Suffix(k2)|
    ensures Suffix(k2)[|Suffix(k2)| - |Suffix(k1)|..] != Suffix(k1)
  {
  }

  /** Two artifact files coincide exactly when they are of the same kind
      and the two product names have the same key: distinct keys never
      share a file, and the four files of one product are distinct. */
  lemma ArtifactNameInjective(cl: CharClasses, p1: string, k1: Kind, p2: string, k2: Kind)
    ensures ArtifactName(cl, p1, k1) == ArtifactName(cl, p2, k2)
            <==> Clean(cl, p1) == Clean(cl, p2) && k1 == k2
  {
    var f1, f2 := ArtifactName(cl, p1, k1), ArtifactName(cl, p2, k2);
    var s1, s2 := Suffix(k1), Suffix(k2);
    if f1 == f2 {
      if |s1| <= |s2| {
        assert s1 == f1[|f1| - |s1|..] == s2[|s2| - |s1|..];
        if k1 != k2 { SuffixesDoNotOverlap(k1, k2); }
      } else {
        assert s2 == f2[|f2| - |s2|..] == s1[|s1| - |s2|..];
        if k1 != k2 { SuffixesDoNotOverlap(k2, k1); }
      }
      assert k1 == k2;
      assert Clean(cl, p1) == f1[..|f1| - |s1|] == f2[..|f2| - |s2|] == Clean(cl, p2);
    }
  }

  ghost predicate RankOrdered(kinds: seq<Kind>) {
    forall i, j :: 0 <= i < j < |kinds| ==> Rank(kinds[i]) < Rank(kinds[j])
  }

  /** The artifact file of kind `k` for `product` is not in the models
      directory. */
  predicate Missing(cl: CharClasses, onDisk: string -> bool, product: string, k: Kind) {
    !onDisk(ArtifactName(cl, product, k))
  }

  /** The kinds of `kinds` whose artifact file for `product` is missing, in
      the order of `kinds`. */
  function AbsentAmong(cl: CharClasses, onDisk: string -> bool, product: string, kinds: seq<Kind>): (absent: seq<Kind>)
    ensures forall k :: k in absent <==> k in kinds && Missing(cl, onDisk, product, k)
  {
    if kinds == [] then []
    else
      var rest := AbsentAmong(cl, onDisk, product, kinds[1..]);
      if !Missing(cl, onDisk, product, kinds[0]) then rest else [kinds[0]] + rest
  }

  lemma AllKindsOrdered()
    ensures RankOrdered(AllKinds)
  {
  }

  lemma TailOrdered(kinds: seq<Kind>)
    requires kinds != [] && RankOrdered(kinds)
    ensures RankOrdered(kinds[1..])
  {
    var tail := kinds[1..];
    forall i, j | 0 <= i < j < |tail| ensures Rank(tail[i]) < Rank(tail[j]) {
      assert tail[i] == kinds[i + 1] && tail[j] == kinds[j + 1];
    }
  }

  lemma ConsOrdered(k: Kind, rest: seq<Kind>)
    requires RankOrdered(rest)
    requires forall k' :: k' in rest ==> Rank(k) < Rank(k')
    ensures RankOrdered([k] + rest)
  {
    var r := [k] + rest;
    forall i, j | 0 <= i < j < |r| ensures Rank(r[i]) < Rank(r[j]) {
      assert r[j] == rest[j - 1] && r[j] in rest;
      if i > 0 {
        assert r[i] == rest[i - 1];
      }
    }
  }

  /** Filtering keeps the order of the list it filters. */
  lemma {:induction false} AbsentAmongOrdered(cl: CharClasses, onDisk: string -> bool, product: string, kinds: seq<Kind>)
    requires RankOrdered(kinds)
    ensures RankOrdered(AbsentAmong(cl, onDisk, product, kinds))
  {
    if kinds != [] {
      var tail := kinds[1..];
      TailOrdered(kinds);
      AbsentAmongOrdered(cl, onDisk, product, tail);
      var rest := AbsentAmong(cl, onDisk, product, tail);
      if Missing(cl, onDisk, product, kinds[0]) {
        forall k | k in rest ensures Rank(kinds[0]) < Rank(k) {
          var j :| 0 <= j < |tail| && tail[j] == k;
          assert kinds[j + 1] == k;
        }
        ConsOrdered(kinds[0], rest);
      }
    }
  }

  /** The `absent` list of tools/audit_models.py: exactly the kinds whose
      file is missing. */
  function Absent(cl: CharClasses, onDisk: string -> bool, product: string): (absent: seq<Kind>)
    ensures forall k {:trigger Missing(cl, onDisk, product, k)} :: k in absent <==> Missing(cl, onDisk, product, k)
  {
    assert forall k :: Rank(k) < |AllKinds| && AllKinds[Rank(k)] == k;
    AbsentAmong(cl, onDisk, product, AllKinds)
  }

  /** The absent kinds keep the order arima, rf, lstm, scaler, so there are
      at most four of them. */
  lemma AbsentOrdered(cl: CharClasses, onDisk: string -> bool, product: string)
    ensures RankOrdered(Absent(cl, onDisk, product))
    ensures |Absent(cl, onDisk, product)| <= |AllKinds|
  {
    AllKindsOrdered();
    AbsentAmongOrdered(cl, onDisk, product, AllKinds);
    RankedCount(Absent(cl, onDisk, product));
  }

  lemma {:induction false} RankAtLeastIndex(kinds: seq<Kind>, i: nat)
    requires RankOrdered(kinds) && i < |kinds|
    ensures Rank(kinds[i]) >= i
  {
    if i > 0 {
      RankAtLeastIndex(kinds, i - 1);
    }
  }

  /** A rank-ordered list of kinds holds at most four of them. */
  lemma RankedCount(kinds: seq<Kind>)
    requires RankOrdered(kinds)
    ensures |kinds| <= |AllKinds|
  {
    if kinds != [] {
      RankAtLeastIndex(kinds, |kinds| - 1);
    }
  }

  // ---------------------------------------------------------------------
  // The catalogue walk

  /** A category name and the products listed under it. */
  type Catalog = seq<(string, seq<string>)>

  /** All products of the catalogue, category by category. */
  function Products(catalog: Catalog): (ps: seq<string>)
    ensures catalog != [] ==> var last := catalog[|catalog| - 1].1;
                              |last| <= |ps| && ps[|ps| - |last|..] == last
  {
    if catalog == [] then []
    else Products(catalog[..|catalog| - 1]) + catalog[|catalog| - 1].1
  }

  /** Every product of every category is visited. */
  lemma {:induction false} ProductsListed(catalog: Catalog, i: nat, j: nat)
    requires i < |catalog| && j < |catalog[i].1|
    ensures catalog[i].1[j] in Products(catalog)
  {
    var init := catalog[..|catalog| - 1];
    if i < |init| {
      assert catalog[i] == init[i];
      ProductsListed(init, i, j);
    }
  }

  /** One audit entry: the product's name as listed, and its absent kinds. */
  type Entry = (string, seq<Kind>)

  /** The report for a sequence of products: every product with a gap, with
      its gaps, in order. */
  function Gaps(cl: CharClasses, onDisk: string -> bool, ps: seq<string>): (report: seq<Entry>)
    ensures |report| <= |ps|
  {
    if ps == [] then []
    else
      var p := ps[|ps| - 1];
      var absent := Absent(cl, onDisk, p);
      Gaps(cl, onDisk, ps[..|ps| - 1]) + (if absent != [] then [(p, absent)] else [])
  }

  /** Reporting one more product appends at most its own entry. */
  lemma GapsStep(cl: CharClasses, onDisk: string -> bool, ps: seq<string>, p: string)
    ensures Gaps(cl, onDisk, ps + [p]) == Gaps(cl, onDisk, ps)
              + (if Absent(cl, onDisk, p) != [] then [(p, Absent(cl, onDisk, p))] else [])
  {
    assert (ps + [p])[..|ps|] == ps;
  }

  lemma PrefixSnoc<T>(s: seq<T>, j: nat)
    requires j < |s|
    ensures s[..j + 1] == s[..j] + [s[j]]
  {
  }

  /** One turn of the inner loop of tools/audit_models.py appends the
      product's entry, if any, to the report built so far. */
  lemma AuditStep(cl: CharClasses, onDisk: string -> bool, plist: seq<string>, j: nat,
                  missing0: seq<Entry>, missing: seq<Entry>)
    requires j < |plist|
    requires missing == missing0 + Gaps(cl, onDisk, plist[..j])
    ensures var absent := Absent(cl, onDisk, plist[j]);
            missing0 + Gaps(cl, onDisk, plist[..j + 1])
            == missing + (if absent != [] then [(plist[j], absent)] else [])
  {
    GapsStep(cl, onDisk, plist[..j], plist[j]);
    PrefixSnoc(plist, j);
  }

  /** Walking one more category appends its products. */
  lemma ProductsStep(catalog: Catalog, i: nat)
    requires i < |catalog|
    ensures Products(catalog[..i + 1]) == Products(catalog[..i]) + catalog[i].1
  {
    assert catalog[..i + 1][..i] == catalog[..i];
  }

  /** The inner loop of tools/audit_models.py: the entries of one
      category's products are appended to `missing` in list order. */
  method AuditCategory(cl: CharClasses, onDisk: string -> bool, plist: seq<string>, missing0: seq<Entry>)
    returns (missing: seq<Entry>)
    ensures missing == missing0 + Gaps(cl, onDisk, plist)
  {
    missing := missing0;
    var j := 0;
    assert plist[..j] == [];
    while j < |plist|
      invariant 0 <= j <= |plist|
      invariant missing == missing0 + Gaps(cl, onDisk, plist[..j])
    {
      var p := plist[j];
      var absent := Absent(cl, onDisk, p);
      AuditStep(cl, onDisk, plist, j, missing0, missing);
      if absent != [] {
        missing := missing + [(p, absent)];
      }
      j := j + 1;
    }
    assert plist[..j] == plist;
  }

  /** The missing-asset loop of tools/audit_models.py. */
  method Audit(cl: CharClasses, onDisk: string -> bool, catalog: Catalog) returns (missing: seq<Entry>)
    ensures missing == Gaps(cl, onDisk, Products(catalog))
  {
    missing := [];
    var i := 0;
    while i < |catalog|
      invariant 0 <= i <= |catalog|
      invariant missing == Gaps(cl, onDisk, Products(catalog[..i]))
    {
      var (_, plist) := catalog[i];
      missing := AuditCategory(cl, onDisk, plist, missing);
      ProductsStep(catalog, i);
      GapsAppend(cl, onDisk, Products(catalog[..i]), plist);
      i := i + 1;
    }
    assert catalog[..i] == catalog;
  }

  // ---------------------------------------------------------------------
  // What the report holds

  /** The report for consecutive stretches of products is the concatenation
      of their reports: entries keep the iteration order. */
  lemma {:induction false} GapsAppend(cl: CharClasses, onDisk: string -> bool, a: seq<string>, b: seq<string>)
    ensures Gaps(cl, onDisk, a + b) == Gaps(cl, onDisk, a) + Gaps(cl, onDisk, b)
    decreases |b|
  {
    if b == [] {
      assert a + b == a;
    } else {
      var b' := b[..|b| - 1];
      assert (a + b)[..|a + b| - 1] == a + b';
      assert (a + b)[|a + b| - 1] == b[|b| - 1];
      GapsAppend(cl, onDisk, a, b');
    }
  }

  /** Every entry of the report is a listed product, carried under its
      original name, with its nonempty list of absent kinds. */
  lemma {:induction false} GapsSound(cl: CharClasses, onDisk: string -> bool, ps: seq<string>, e: Entry)
    requires e in Gaps(cl, onDisk, ps)
    ensures e.0 in ps && e.1 == Absent(cl, onDisk, e.0) && e.1 != []
    decreases |ps|
  {
    var init := ps[..|ps| - 1];
    if e !in Gaps(cl, onDisk, init) {
      assert e == (ps[|ps| - 1], Absent(cl, onDisk, ps[|ps| - 1]));
    } else {
      GapsSound(cl, onDisk, init, e);
      assert e.0 in init;
    }
  }

  /** Every listed product with at least one absent artifact is reported. */
  lemma {:induction false} GapsComplete(cl: CharClasses, onDisk: string -> bool, ps: seq<string>, p: string)
    requires p in ps && Absent(cl, onDisk, p) != []
    ensures (p, Absent(cl, onDisk, p)) in Gaps(cl, onDisk, ps)
    decreases |ps|
  {
    var init := ps[..|ps| - 1];
    if p != ps[|ps| - 1] {
      assert ps == init + [ps[|ps| - 1]];
      assert p in init;
      GapsComplete(cl, onDisk, init, p);
    }
  }

  /** A product appears in the report exactly when one of its four files is
      missing. */
  lemma ReportedIffSomeFileMissing(cl: CharClasses, onDisk: string -> bool, catalog: Catalog, p: string)
    requires p in Products(catalog)
    ensures (exists e :: e in Gaps(cl, onDisk, Products(catalog)) && e.0 == p)
            <==> (exists k :: Missing(cl, onDisk, p, k))
  {
    var ps := Products(catalog);
    var absent := Absent(cl, onDisk, p);
    if exists k :: Missing(cl, onDisk, p, k) {
      var k :| Missing(cl, onDisk, p, k);
      assert k in absent;
      GapsComplete(cl, onDisk, ps, p);
    }
    if exists e :: e in Gaps(cl, onDisk, ps) && e.0 == p {
      var e :| e in Gaps(cl, onDisk, ps) && e.0 == p;
      GapsSound(cl, onDisk, ps, e);
      assert absent[0] in absent;
    }
  }
}
