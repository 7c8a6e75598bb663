/** The DOI collector: real DOIs from the two repositories' search results as
    positive controls, invented DOIs as negative controls, and the dataset that
    joins them. The HTTP responses are parameters. */
module DoiCollector {
  import opened Wrappers
  import opened Text

  /** One row of the experiment dataset. */
  datatype DoiRecord = DoiRecord(
    doi: string, title: string, publicationDate: string, source: string, controlType: string)

  /** One search hit as far as the collector reads it: a Zenodo record's
      metadata or a Figshare article. A missing field is None. */
  datatype Hit = Hit(doi: Option<string>, title: Option<string>, publicationDate: Option<string>)

  // ------------------------------------------------------------ real DOIs

  /** `if doi and title`: both present and non-empty. */
  predicate Usable(h: Hit)
  {
    h.doi.Some? && h.doi.value != [] && h.title.GetOr("") != []
  }

  /** The record kept for a usable hit. */
  function Positive(h: Hit, source: string): (r: DoiRecord)
    requires Usable(h)
    ensures r.doi == h.doi.value && r.title == h.title.value
    ensures r.publicationDate == h.publicationDate.GetOr("")
    ensures r.source == source && r.controlType == "positive"
  {
    DoiRecord(h.doi.value, h.title.value, h.publicationDate.GetOr(""), source, "positive")
  }

  /** The records kept from the hits, in hit order. */
  function Kept(hits: seq<Hit>, source: string): (rs: seq<DoiRecord>)
    ensures |rs| <= |hits|
  {
    if hits == [] then []
    else
      var last := hits[|hits| - 1];
      Kept(hits[..|hits| - 1], source) + (if Usable(last) then [Positive(last, source)] else [])
  }

  /** The loop shared by `get_zenodo_dois` and `get_figshare_dois`: every
      usable hit, in order, becomes a positive control of that source. A
      failed request (`None`) gives no records. */
  method CollectDois(response: Option<seq<Hit>>, source: string) returns (dois: seq<DoiRecord>)
    ensures response.None? ==> dois == []
    ensures response.Some? ==> dois == Kept(response.value, source)
  {
    dois := [];
    if response.Some? {
      var hits := response.value;
      for i := 0 to |hits|
        invariant dois == Kept(hits[..i], source)
      {
        assert hits[..i + 1][..i] == hits[..i];
        if Usable(hits[i]) {
          dois := dois + [Positive(hits[i], source)];
        }
      }
      assert hits[..|hits|] == hits;
    }
  }

  /** Keeping works piece by piece: the records of two runs of hits are the
      records of the first followed by those of the second. */
  lemma {:induction false} KeptAppend(a: seq<Hit>, b: seq<Hit>, source: string)
    ensures Kept(a + b, source) == Kept(a, source) + Kept(b, source)
    decreases |b|
  {
    if b == [] {
      assert a + b == a;
    } else {
      var b0 := b[..|b| - 1];
      assert (a + b)[..|a + b| - 1] == a + b0;
      KeptAppend(a, b0, source);
    }
  }

  /** A single hit is kept exactly when it is usable. */
  lemma KeptOne(h: Hit, source: string)
    ensures Kept([h], source) == if Usable(h) then [Positive(h, source)] else []
  {
    assert [h][..0] == [];
  }

  /** Every kept record comes from a usable hit: it has a DOI and a title,
      the given source and the positive control type. */
  lemma {:induction false} KeptAreUsable(hits: seq<Hit>, source: string)
    ensures forall r :: r in Kept(hits, source) ==>
      r.doi != [] && r.title != [] && r.source == source && r.controlType == "positive"
    ensures forall r :: r in Kept(hits, source) ==>
      exists h :: h in hits && Usable(h) && r == Positive(h, source)
  {
    if hits != [] {
      var init := hits[..|hits| - 1];
      KeptAreUsable(init, source);
      assert forall h :: h in init ==> h in hits;
    }
  }

  /** Every usable hit is kept. */
  lemma {:induction false} UsableAreKept(hits: seq<Hit>, source: string, i: int)
    requires 0 <= i < |hits| && Usable(hits[i])
    ensures Positive(hits[i], source) in Kept(hits, source)
  {
    var init := hits[..|hits| - 1];
    if i < |hits| - 1 {
      assert init[i] == hits[i];
      UsableAreKept(init, source, i);
    }
  }

  // ------------------------------------------------------------ fake DOIs

  /** The number under which the `i`-th fake DOIs are minted. */
  function FakeNumber(i: int): int
  {
    999999999 - i
  }

  /** The two styles of fake DOI minted for each index. */
  datatype FakeKind = ZenodoStyle | FigshareStyle

  function FakePrefix(kind: FakeKind): string
  {
    match kind
    case ZenodoStyle => "10.5281/zenodo."
    case FigshareStyle => "10.6084/m9.figshare."
  }

  function FakeTitle(kind: FakeKind): string
  {
    match kind
    case ZenodoStyle => "Fake Dataset "
    case FigshareStyle => "Fake Article "
  }

  function FakeSource(kind: FakeKind): string
  {
    match kind
    case ZenodoStyle => "fake_zenodo"
    case FigshareStyle => "fake_figshare"
  }

  /** The fake record of one style for index `i`. */
  function Fake(kind: FakeKind, i: int): (r: DoiRecord)
    ensures r.source == (if kind == ZenodoStyle then "fake_zenodo" else "fake_figshare")
    ensures r.controlType == "negative" && r.publicationDate == "2024-01-01"
  {
    DoiRecord(FakePrefix(kind) + IntToString(FakeNumber(i)), FakeTitle(kind) + IntToString(i + 1),
              "2024-01-01", FakeSource(kind), "negative")
  }

  /** The two fake records of index `i`, Zenodo-style first. */
  function FakePair(i: int): (p: seq<DoiRecord>)
    ensures |p| == 2
  {
    [Fake(ZenodoStyle, i), Fake(FigshareStyle, i)]
  }

  /** The style of the fake record at position `k`. */
  function FakeStyleAt(k: int): FakeKind
  {
    if k % 2 == 0 then ZenodoStyle else FigshareStyle
  }

  /** The fake records for indices `0 .. n - 1`, two per index. */
  function FakeDois(n: nat): (rs: seq<DoiRecord>)
    ensures |rs| == 2 * n
  {
    seq(2 * n, k => Fake(FakeStyleAt(k), k / 2))
  }

  /** One more index appends its pair. */
  lemma FakeDoisExtend(n: nat)
    ensures FakeDois(n + 1) == FakeDois(n) + FakePair(n)
  {
    var longer, shorter := FakeDois(n + 1), FakeDois(n) + FakePair(n);
    forall k | 0 <= k < 2 * n + 2 ensures longer[k] == shorter[k] {
      if k < 2 * n {
        assert shorter[k] == FakeDois(n)[k];
      } else if k == 2 * n {
        assert k / 2 == n && FakeStyleAt(k) == ZenodoStyle;
      } else {
        assert k / 2 == n && FakeStyleAt(k) == FigshareStyle;
      }
    }
  }

  /** `generate_fake_dois(count)`: a Zenodo-style and a Figshare-style DOI per
      index; a count below one gives none. */
  method GenerateFakeDois(count: int) returns (fake: seq<DoiRecord>)
    ensures fake == FakeDois(if count > 0 then count else 0)
  {
    fake := [];
    var n := if count > 0 then count else 0;
    for i := 0 to n
      invariant fake == FakeDois(i)
    {
      FakeDoisExtend(i);
      fake := fake + FakePair(i);
    }
  }

  /** Where each fake record sits: index `i` gives entries `2i` and `2i + 1`. */
  lemma FakeDoisAt(n: nat, i: int)
    requires 0 <= i < n
    ensures FakeDois(n)[2 * i] == Fake(ZenodoStyle, i) && FakeDois(n)[2 * i + 1] == Fake(FigshareStyle, i)
  {
    var rs := FakeDois(n);
    assert (2 * i) / 2 == i && (2 * i) % 2 == 0;
    assert (2 * i + 1) / 2 == i && (2 * i + 1) % 2 == 1;
    assert rs[2 * i] == Fake(FakeStyleAt(2 * i), (2 * i) / 2);
    assert rs[2 * i + 1] == Fake(FakeStyleAt(2 * i + 1), (2 * i + 1) / 2);
  }

  /** Every fake record is a negative control dated 2024-01-01. */
  lemma FakeDoisNegative(n: nat, k: int)
    requires 0 <= k < 2 * n
    ensures FakeDois(n)[k].controlType == "negative" && FakeDois(n)[k].publicationDate == "2024-01-01"
  {
    FakeDoisAt(n, k / 2);
    assert k == 2 * (k / 2) || k == 2 * (k / 2) + 1;
  }

  /** The two prefixes differ in their fourth character, so a Zenodo-style
      DOI is never a Figshare-style one. */
  lemma PrefixesDiffer(a: string, b: string)
    ensures "10.5281/zenodo." + a != "10.6084/m9.figshare." + b
  {
    assert ("10.5281/zenodo." + a)[3] == '5';
    assert ("10.6084/m9.figshare." + b)[3] == '6';
  }

  /** The same prefix with different numbers gives different DOIs. */
  lemma NumberedDiffer(prefix: string, a: int, b: int)
    requires a != b
    ensures prefix + IntToString(a) != prefix + IntToString(b)
  {
    IntToStringInjective(a, b);
    assert (prefix + IntToString(a))[|prefix|..] == IntToString(a);
    assert (prefix + IntToString(b))[|prefix|..] == IntToString(b);
  }

  /** Fake DOIs of different styles differ, whatever their indices. */
  lemma FakeKindsDiffer(ka: FakeKind, kb: FakeKind, a: int, b: int)
    requires ka != kb
    ensures Fake(ka, a).doi != Fake(kb, b).doi
  {
    if ka == ZenodoStyle {
      PrefixesDiffer(IntToString(FakeNumber(a)), IntToString(FakeNumber(b)));
    } else {
      PrefixesDiffer(IntToString(FakeNumber(b)), IntToString(FakeNumber(a)));
    }
  }

  /** Fake DOIs of the same style for different indices differ. */
  lemma FakeIndicesDiffer(kind: FakeKind, a: int, b: int)
    requires a != b
    ensures Fake(kind, a).doi != Fake(kind, b).doi
  {
    NumberedDiffer(FakePrefix(kind), FakeNumber(a), FakeNumber(b));
  }

  /** The index and style of the fake record at position `k`. */
  lemma FakeEntry(n: nat, k: int) returns (i: int, kind: FakeKind)
    requires 0 <= k < 2 * n
    ensures 0 <= i < n && FakeDois(n)[k] == Fake(kind, i)
    ensures kind == ZenodoStyle ==> k == 2 * i
    ensures kind == FigshareStyle ==> k == 2 * i + 1
  {
    i := k / 2;
    FakeDoisAt(n, i);
    if k % 2 == 0 {
      kind := ZenodoStyle;
      assert k == 2 * i;
    } else {
      kind := FigshareStyle;
      assert k == 2 * i + 1;
    }
  }

  /** All fake DOIs are different from each other. */
  lemma FakeDoisDistinct(n: nat, j: int, k: int)
    requires 0 <= j < k < 2 * n
    ensures FakeDois(n)[j].doi != FakeDois(n)[k].doi
  {
    var a, ka := FakeEntry(n, j);
    var b, kb := FakeEntry(n, k);
    if ka != kb {
      FakeKindsDiffer(ka, kb, a, b);
    } else {
      assert a != b;
      FakeIndicesDiffer(ka, a, b);
    }
  }

  // -------------------------------------------------------------- dataset

  /** `create_experiment_dataset`: 25 requested from each repository, 20
      fake indices; Zenodo records, then Figshare records, then the fakes. */
  method CreateExperimentDataset(zenodo: Option<seq<Hit>>, figshare: Option<seq<Hit>>) returns (all: seq<DoiRecord>)
    ensures all == Kept(zenodo.GetOr([]), "zenodo") + Kept(figshare.GetOr([]), "figshare") + FakeDois(20)
  {
    var z := CollectDois(zenodo, "zenodo");
    var f := CollectDois(figshare, "figshare");
    var fake := GenerateFakeDois(20);
    all := z + f + fake;
  }

  /** The dataset's control types: the real records come first and are
      positive, the last forty are the negative fakes. */
  lemma DatasetControls(z: seq<Hit>, f: seq<Hit>, k: int)
    requires 0 <= k < |Kept(z, "zenodo") + Kept(f, "figshare") + FakeDois(20)|
    ensures var all := Kept(z, "zenodo") + Kept(f, "figshare") + FakeDois(20);
      all[k].controlType == (if k < |all| - 40 then "positive" else "negative")
  {
    var found := Kept(z, "zenodo") + Kept(f, "figshare");
    var all := found + FakeDois(20);
    KeptAreUsable(z, "zenodo");
    KeptAreUsable(f, "figshare");
    if k < |found| {
      assert all[k] == found[k];
      assert found[k] in Kept(z, "zenodo") || found[k] in Kept(f, "figshare");
    } else {
      assert all[k] == FakeDois(20)[k - |found|];
      FakeDoisNegative(20, k - |found|);
    }
  }
}
