/**
 * The catalogue builders of `lib/merge-batch-data.ts`. The location and
 * service batches are spread together, and each slug of the result, in key
 * order, becomes one item. Its name and text come from the description of
 * the entry that won the spread. Its route, tag and image come from the slug
 * alone. A base list is then overridden by the batch-derived list.
 */
module MergeBatchData {
  import opened Options
  import opened Text
  import opened Lists
  import opened ObjectSpread
  import opened BatchData
  import opened Classification
  import opened LocationImages
  import opened NameExtraction
  import opened SiteConstants

  datatype LocationItem = LocationItem(
    slug: string,
    name: string,
    route: string,
    kind: LocationType,
    description: string,
    heroImage: Option<string>)  // `None`: the object has no `heroImage` key

  datatype ServiceItem = ServiceItem(
    slug: string,
    name: string,
    short: string,
    route: string,
    category: ServiceCategory)

  /** `batchData?.mainDescription`, when it is truthy. */
  function Description(e: Option<BatchEntry>): (d: Option<string>)
    ensures d.Some? <==> e.Some? && HasDescription(e.value)
    ensures d.Some? ==> d.value != "" && e.value.mainDescription == d
  {
    if e.Some? && HasDescription(e.value) then e.value.mainDescription else None
  }

  /** A falsy entry has no description, so `|| null` does not change it. */
  lemma DescriptionOrNull(e: Option<BatchEntry>)
    ensures Description(OrNull(e)) == Description(e)
  {
  }

  /** The description of a location that has none in the batches. */
  function DefaultLocationDescription(name: string, site: SiteConfig): string {
    name + " 1031 exchange support. Serving investors in " + PrimaryCity(site) + ", " + PrimaryStateAbbr(site) + "."
  }

  /** The short text of a service that has no description in the batches. */
  function DefaultServiceShort(site: SiteConfig): string {
    "1031 exchange service for " + PrimaryCity(site) + ", " + PrimaryStateAbbr(site) + "."
  }

  /** The item built for one location slug and its merged entry. */
  function BuildLocation(slug: string, e: Option<BatchEntry>, p: LocationPatterns, site: SiteConfig): LocationItem {
    var d := Description(e);
    var name := if d.Some? then ExtractLocationName(d.value, slug, p) else TitleCase(slug);
    LocationItem(
      slug,
      name,
      "/locations/" + slug,
      LocationTypeOf(slug),
      if d.Some? then ExtractFirstParagraph(d.value) else DefaultLocationDescription(name, site),
      LocationImagePath(slug))
  }

  /** The item built for one service slug and its merged entry. */
  function BuildService(slug: string, e: Option<BatchEntry>, p: ServicePatterns, site: SiteConfig): ServiceItem {
    var d := Description(e);
    var name := if d.Some? then ExtractServiceName(d.value, slug, p) else TitleCase(slug);
    var short := if d.Some? then ExtractFirstParagraph(d.value) else DefaultServiceShort(site);
    ServiceItem(slug, name, Shorten(short), "/services/" + slug, ServiceCategoryOf(slug))
  }

  /** `Object.keys(all).map(slug => ... all[slug] ...)` for locations. */
  function LocationsOf(all: Entries<BatchEntry>, p: LocationPatterns, site: SiteConfig): (r: seq<LocationItem>)
    ensures |r| == |all|
    ensures forall i :: 0 <= i < |all| ==> r[i].slug == all[i].0
  {
    seq(|all|, i requires 0 <= i < |all| => BuildLocation(all[i].0, Get(all, all[i].0), p, site))
  }

  /** `Object.keys(all).map(slug => ... all[slug] ...)` for services. */
  function ServicesOf(all: Entries<BatchEntry>, p: ServicePatterns, site: SiteConfig): (r: seq<ServiceItem>)
    ensures |r| == |all|
    ensures forall i :: 0 <= i < |all| ==> r[i].slug == all[i].0
  {
    seq(|all|, i requires 0 <= i < |all| => BuildService(all[i].0, Get(all, all[i].0), p, site))
  }

  /** `getLocationsFromBatches()`, the five location batches given in import order. */
  function GetLocationsFromBatches(b1: Entries<BatchEntry>, b2: Entries<BatchEntry>, b3: Entries<BatchEntry>,
                                   b4: Entries<BatchEntry>, b5: Entries<BatchEntry>,
                                   p: LocationPatterns, site: SiteConfig): seq<LocationItem>
  {
    LocationsOf(SpreadAll([b1, b2, b3, b4, b5]), p, site)
  }

  /** `getServicesFromBatches()`, the three service batches given in import order. */
  function GetServicesFromBatches(b1: Entries<BatchEntry>, b2: Entries<BatchEntry>, b3: Entries<BatchEntry>,
                                  p: ServicePatterns, site: SiteConfig): seq<ServiceItem>
  {
    ServicesOf(SpreadAll([b1, b2, b3]), p, site)
  }

  // ---------------------------------------------------------------- slugs

  /** The slugs of a list of items, in order. */
  function SlugsOf<T>(items: seq<T>, slug: T -> string): (ks: seq<string>)
    ensures |ks| == |items|
    ensures forall i :: 0 <= i < |items| ==> ks[i] == slug(items[i])
  {
    seq(|items|, i requires 0 <= i < |items| => slug(items[i]))
  }

  function LocationSlug(l: LocationItem): string { l.slug }

  function ServiceSlug(s: ServiceItem): string { s.slug }

  /**
   * One location per slug of any batch, in the order the slugs were first
   * inserted by the spread, batch 01 first.
   */
  lemma LocationsInInsertionOrder(b1: Entries<BatchEntry>, b2: Entries<BatchEntry>, b3: Entries<BatchEntry>,
                                  b4: Entries<BatchEntry>, b5: Entries<BatchEntry>,
                                  p: LocationPatterns, site: SiteConfig)
    ensures SlugsOf(GetLocationsFromBatches(b1, b2, b3, b4, b5, p, site), LocationSlug) ==
            Dedup(ConcatKeys([b1, b2, b3, b4, b5]))
    ensures Distinct(SlugsOf(GetLocationsFromBatches(b1, b2, b3, b4, b5, p, site), LocationSlug))
  {
    var all := SpreadAll([b1, b2, b3, b4, b5]);
    SpreadAllKeys([b1, b2, b3, b4, b5]);
    assert SlugsOf(GetLocationsFromBatches(b1, b2, b3, b4, b5, p, site), LocationSlug) == Keys(all);
  }

  /** One service per slug of any batch, in the order the slugs were first inserted. */
  lemma ServicesInInsertionOrder(b1: Entries<BatchEntry>, b2: Entries<BatchEntry>, b3: Entries<BatchEntry>,
                                 p: ServicePatterns, site: SiteConfig)
    ensures SlugsOf(GetServicesFromBatches(b1, b2, b3, p, site), ServiceSlug) == Dedup(ConcatKeys([b1, b2, b3]))
    ensures Distinct(SlugsOf(GetServicesFromBatches(b1, b2, b3, p, site), ServiceSlug))
  {
    var all := SpreadAll([b1, b2, b3]);
    SpreadAllKeys([b1, b2, b3]);
    assert SlugsOf(GetServicesFromBatches(b1, b2, b3, p, site), ServiceSlug) == Keys(all);
  }

  /** A slug has a location exactly when some location batch has it. */
  lemma LocationSlugsCoverBatches(b1: Entries<BatchEntry>, b2: Entries<BatchEntry>, b3: Entries<BatchEntry>,
                                  b4: Entries<BatchEntry>, b5: Entries<BatchEntry>,
                                  p: LocationPatterns, site: SiteConfig, slug: string)
    ensures slug in SlugsOf(GetLocationsFromBatches(b1, b2, b3, b4, b5, p, site), LocationSlug) <==>
            exists i :: 0 <= i < 5 && slug in Keys([b1, b2, b3, b4, b5][i])
  {
    LocationsInInsertionOrder(b1, b2, b3, b4, b5, p, site);
    DedupMembers(ConcatKeys([b1, b2, b3, b4, b5]));
    ConcatKeysMembers([b1, b2, b3, b4, b5], slug);
  }

  // ---------------------------------------------------------------- item fields

  /**
   * A location's route, type and image depend on its slug alone; the image
   * key is present exactly when the slug (corrected) is in the image table.
   */
  lemma LocationItemShape(b1: Entries<BatchEntry>, b2: Entries<BatchEntry>, b3: Entries<BatchEntry>,
                          b4: Entries<BatchEntry>, b5: Entries<BatchEntry>,
                          p: LocationPatterns, site: SiteConfig, i: nat)
    requires i < |GetLocationsFromBatches(b1, b2, b3, b4, b5, p, site)|
    ensures var l := GetLocationsFromBatches(b1, b2, b3, b4, b5, p, site)[i];
      && l.route == "/locations/" + l.slug
      && l.kind == LocationTypeOf(l.slug)
      && l.heroImage == LocationImagePath(l.slug)
      && (l.heroImage.Some? <==> NormalizeSlug(l.slug) in ImageExtensions)
  {
  }

  /** What a built location's name and description are, given the entry it was built from. */
  lemma BuildLocationText(slug: string, e: Option<BatchEntry>, p: LocationPatterns, site: SiteConfig)
    ensures var l := BuildLocation(slug, e, p, site);
      match Description(e)
      case Some(d) =>
        l.name == ExtractLocationName(d, slug, p) && l.description == ExtractFirstParagraph(d)
      case None =>
        l.name == TitleCase(slug) && l.description == DefaultLocationDescription(l.name, site)
  {
  }

  /** What a built service's name and short text are, given the entry it was built from. */
  lemma BuildServiceText(slug: string, e: Option<BatchEntry>, p: ServicePatterns, site: SiteConfig)
    ensures var s := BuildService(slug, e, p, site);
      match Description(e)
      case Some(d) =>
        s.name == ExtractServiceName(d, slug, p) && s.short == Shorten(ExtractFirstParagraph(d))
      case None =>
        s.name == TitleCase(slug) && s.short == Shorten(DefaultServiceShort(site))
  {
  }

  /** The description the builders read from the merged object is that of the latest batch with the slug. */
  lemma MergedDescriptionIsLatest(ps: seq<Entries<BatchEntry>>, slug: string)
    requires forall j :: 0 <= j < |ps| ==> DistinctKeys(ps[j])
    ensures Description(Get(SpreadAll(ps), slug)) == Description(LatestEntry(ps, slug))
  {
    SpreadAllGet(ps, slug);
    match LastWith(ps, slug)
    case None =>
    case Some(j) => DescriptionOrNull(Get(ps[j], slug));
  }

  /**
   * A location's name and description come from the entry of the latest
   * location batch that has its slug: extracted from that entry's
   * description when it has one, and otherwise the title-cased slug and the
   * default sentence.
   */
  lemma LocationItemFromLatestBatch(b1: Entries<BatchEntry>, b2: Entries<BatchEntry>, b3: Entries<BatchEntry>,
                                    b4: Entries<BatchEntry>, b5: Entries<BatchEntry>,
                                    p: LocationPatterns, site: SiteConfig, i: nat)
    requires DistinctKeys(b1) && DistinctKeys(b2) && DistinctKeys(b3) && DistinctKeys(b4) && DistinctKeys(b5)
    requires i < |GetLocationsFromBatches(b1, b2, b3, b4, b5, p, site)|
    ensures var l := GetLocationsFromBatches(b1, b2, b3, b4, b5, p, site)[i];
      match Description(LatestEntry([b1, b2, b3, b4, b5], l.slug))
      case Some(d) =>
        l.name == ExtractLocationName(d, l.slug, p) && l.description == ExtractFirstParagraph(d)
      case None =>
        l.name == TitleCase(l.slug) && l.description == DefaultLocationDescription(l.name, site)
  {
    var ps := [b1, b2, b3, b4, b5];
    assert forall j :: 0 <= j < |ps| ==> DistinctKeys(ps[j]);
    LocationFromLatest(ps, p, site, i);
  }

  lemma LocationFromLatest(ps: seq<Entries<BatchEntry>>, p: LocationPatterns, site: SiteConfig, i: nat)
    requires forall j :: 0 <= j < |ps| ==> DistinctKeys(ps[j])
    requires i < |SpreadAll(ps)|
    ensures var l := LocationsOf(SpreadAll(ps), p, site)[i];
      match Description(LatestEntry(ps, l.slug))
      case Some(d) =>
        l.name == ExtractLocationName(d, l.slug, p) && l.description == ExtractFirstParagraph(d)
      case None =>
        l.name == TitleCase(l.slug) && l.description == DefaultLocationDescription(l.name, site)
  {
    var all := SpreadAll(ps);
    var slug := all[i].0;
    MergedDescriptionIsLatest(ps, slug);
    BuildLocationText(slug, Get(all, slug), p, site);
  }

  /** A service's route and category depend on its slug alone, and its short text is at most 200 characters. */
  lemma ServiceItemShape(b1: Entries<BatchEntry>, b2: Entries<BatchEntry>, b3: Entries<BatchEntry>,
                         p: ServicePatterns, site: SiteConfig, i: nat)
    requires i < |GetServicesFromBatches(b1, b2, b3, p, site)|
    ensures var s := GetServicesFromBatches(b1, b2, b3, p, site)[i];
      && s.route == "/services/" + s.slug
      && s.category == ServiceCategoryOf(s.slug)
      && |s.short| <= 200
  {
  }

  /**
   * A service's name and short text come from the entry of the latest
   * service batch that has its slug, the text cut to 200 characters.
   */
  lemma ServiceItemFromLatestBatch(b1: Entries<BatchEntry>, b2: Entries<BatchEntry>, b3: Entries<BatchEntry>,
                                   p: ServicePatterns, site: SiteConfig, i: nat)
    requires DistinctKeys(b1) && DistinctKeys(b2) && DistinctKeys(b3)
    requires i < |GetServicesFromBatches(b1, b2, b3, p, site)|
    ensures var s := GetServicesFromBatches(b1, b2, b3, p, site)[i];
      match Description(LatestEntry([b1, b2, b3], s.slug))
      case Some(d) =>
        s.name == ExtractServiceName(d, s.slug, p) && s.short == Shorten(ExtractFirstParagraph(d))
      case None =>
        s.name == TitleCase(s.slug) && s.short == Shorten(DefaultServiceShort(site))
  {
    var ps := [b1, b2, b3];
    assert forall j :: 0 <= j < |ps| ==> DistinctKeys(ps[j]);
    ServiceFromLatest(ps, p, site, i);
  }

  lemma ServiceFromLatest(ps: seq<Entries<BatchEntry>>, p: ServicePatterns, site: SiteConfig, i: nat)
    requires forall j :: 0 <= j < |ps| ==> DistinctKeys(ps[j])
    requires i < |SpreadAll(ps)|
    ensures var s := ServicesOf(SpreadAll(ps), p, site)[i];
      match Description(LatestEntry(ps, s.slug))
      case Some(d) =>
        s.name == ExtractServiceName(d, s.slug, p) && s.short == Shorten(ExtractFirstParagraph(d))
      case None =>
        s.name == TitleCase(s.slug) && s.short == Shorten(DefaultServiceShort(site))
  {
    var all := SpreadAll(ps);
    var slug := all[i].0;
    MergedDescriptionIsLatest(ps, slug);
    BuildServiceText(slug, Get(all, slug), p, site);
  }

  /**
   * Without a description, the misspelt slug `halton-city` is named
   * "Halton City": the name table that corrects it is consulted only when a
   * description exists and none of its patterns match.
   */
  lemma HaltonNameWithoutDescription(e: Option<BatchEntry>, p: LocationPatterns, site: SiteConfig)
    requires Description(e).None?
    ensures BuildLocation("halton-city", e, p, site).name == "Halton City"
    ensures BuildLocation("halton-city", e, p, site).heroImage == LocationImagePath("haltom-city")
  {
    HaltonTitle("halton-city");
    HaltonAlias();
  }

  lemma HaltonTitle(slug: string)
    requires slug == "halton-city"
    ensures TitleCase(slug) == "Halton City"
  {
    TitleCaseChars(slug);
    HaltonChars(slug, TitleCase(slug));
  }

  lemma HaltonChars(slug: string, t: string)
    requires slug == "halton-city"
    requires |t| == |slug| && forall i :: 0 <= i < |slug| ==> t[i] == TitleChar(slug, i)
    ensures t == "Halton City"
  {
    assert t[0] == 'H';
  }

  // ---------------------------------------------------------------- override

  /**
   * `[...base.filter(x => !batchSlugs.has(x.slug)), ...batch]`: base items
   * whose slug the batch list also has are dropped.
   */
  function Override<T>(base: seq<T>, batch: seq<T>, slug: T -> string): seq<T> {
    var batchSlugs := SlugsOf(batch, slug);
    Filter(base, x => slug(x) !in batchSlugs) + batch
  }

  /** The number of base items that survive the override. */
  function Survivors<T>(base: seq<T>, batch: seq<T>, slug: T -> string): nat {
    |Override(base, batch, slug)| - |batch|
  }

  /**
   * The override is the surviving base items, in their original order and
   * none sharing a slug with the batch, followed by the whole batch list in
   * its order; every base item with a slug the batch lacks survives.
   */
  lemma OverrideShape<T>(base: seq<T>, batch: seq<T>, slug: T -> string)
    ensures var r, k := Override(base, batch, slug), Survivors(base, batch, slug);
      && k <= |base|
      && r[k..] == batch
      && IsSubsequence(r[..k], base)
      && (forall i :: 0 <= i < k ==> slug(r[i]) !in SlugsOf(batch, slug))
      && (forall x :: x in base && slug(x) !in SlugsOf(batch, slug) ==> x in r[..k])
  {
    var batchSlugs := SlugsOf(batch, slug);
    var keep := x => slug(x) !in batchSlugs;
    var kept := Filter(base, keep);
    var r := Override(base, batch, slug);
    assert r == kept + batch;
    assert r[..|kept|] == kept && r[|kept|..] == batch;
    FilterIsSubsequence(base, keep);
    forall i | 0 <= i < |kept| ensures slug(r[i]) !in batchSlugs {
      assert kept[i] in kept;
    }
  }

  /**
   * A base item whose slug the batch lacks survives as many times as the base
   * holds it; any other item appears only as often as the batch holds it.
   */
  lemma OverrideCounts<T>(base: seq<T>, batch: seq<T>, slug: T -> string)
    ensures forall x ::
              multiset(Override(base, batch, slug))[x] ==
              (if slug(x) !in SlugsOf(batch, slug) then multiset(base)[x] else 0) + multiset(batch)[x]
  {
    var batchSlugs := SlugsOf(batch, slug);
    var keep := x => slug(x) !in batchSlugs;
    FilterCounts(base, keep);
    assert Override(base, batch, slug) == Filter(base, keep) + batch;
  }

  /** An item whose slug the batch has is a batch item: no base item shadows it. */
  lemma OverrideBatchWins<T>(base: seq<T>, batch: seq<T>, slug: T -> string, i: nat)
    requires i < |Override(base, batch, slug)|
    requires slug(Override(base, batch, slug)[i]) in SlugsOf(batch, slug)
    ensures i >= Survivors(base, batch, slug)
  {
    OverrideShape(base, batch, slug);
  }

  /** A slug is in the result exactly when the base or the batch has it. */
  lemma OverrideSlugs<T>(base: seq<T>, batch: seq<T>, slug: T -> string, s: string)
    ensures s in SlugsOf(Override(base, batch, slug), slug) <==>
            s in SlugsOf(base, slug) || s in SlugsOf(batch, slug)
  {
    var batchSlugs := SlugsOf(batch, slug);
    var keep := x => slug(x) !in batchSlugs;
    var kept := Filter(base, keep);
    var r := Override(base, batch, slug);
    assert r == kept + batch;
    if s in SlugsOf(r, slug) {
      var i :| 0 <= i < |r| && SlugsOf(r, slug)[i] == s;
      if i < |kept| {
        assert kept[i] in kept;
        var j :| 0 <= j < |base| && base[j] == kept[i];
        assert SlugsOf(base, slug)[j] == s;
      } else {
        assert SlugsOf(batch, slug)[i - |kept|] == s;
      }
    }
    if s in SlugsOf(base, slug) && s !in batchSlugs {
      var j :| 0 <= j < |base| && SlugsOf(base, slug)[j] == s;
      assert base[j] in kept;
      var i :| 0 <= i < |kept| && kept[i] == base[j];
      assert SlugsOf(r, slug)[i] == s;
    }
    if s in batchSlugs {
      var j :| 0 <= j < |batch| && batchSlugs[j] == s;
      assert SlugsOf(r, slug)[|kept| + j] == s;
    }
  }

  /** Filtering a list whose slugs are distinct leaves them distinct. */
  lemma {:induction false} FilterKeepsDistinct<T>(s: seq<T>, keep: T -> bool, slug: T -> string)
    requires Distinct(SlugsOf(s, slug))
    ensures Distinct(SlugsOf(Filter(s, keep), slug))
    decreases |s|
  {
    if s != [] {
      var rest := Filter(s[1..], keep);
      assert SlugsOf(s[1..], slug) == SlugsOf(s, slug)[1..];
      FilterKeepsDistinct(s[1..], keep, slug);
      if keep(s[0]) {
        var f := Filter(s, keep);
        assert f == [s[0]] + rest;
        forall i, j | 0 <= i < j < |f| ensures slug(f[i]) != slug(f[j]) {
          if i == 0 {
            assert f[j] == rest[j - 1] && rest[j - 1] in rest;
            var m :| 0 <= m < |s[1..]| && s[1..][m] == f[j];
            assert SlugsOf(s, slug)[m + 1] == slug(f[j]);
          } else {
            assert f[i] == rest[i - 1] && f[j] == rest[j - 1];
            assert SlugsOf(rest, slug)[i - 1] != SlugsOf(rest, slug)[j - 1];
          }
        }
      }
    }
  }

  /** When the base and the batch list each have distinct slugs, so does the result. */
  lemma OverrideKeepsDistinct<T>(base: seq<T>, batch: seq<T>, slug: T -> string)
    requires Distinct(SlugsOf(base, slug)) && Distinct(SlugsOf(batch, slug))
    ensures Distinct(SlugsOf(Override(base, batch, slug), slug))
  {
    var batchSlugs := SlugsOf(batch, slug);
    var keep := x => slug(x) !in batchSlugs;
    var kept := Filter(base, keep);
    var r := Override(base, batch, slug);
    assert r == kept + batch;
    FilterKeepsDistinct(base, keep, slug);
    var rs := SlugsOf(r, slug);
    forall i, j | 0 <= i < j < |r| ensures rs[i] != rs[j] {
      if j < |kept| {
        assert rs[i] == SlugsOf(kept, slug)[i] && rs[j] == SlugsOf(kept, slug)[j];
      } else if i >= |kept| {
        assert rs[i] == batchSlugs[i - |kept|] && rs[j] == batchSlugs[j - |kept|];
      } else {
        assert kept[i] in kept;
        assert rs[j] == batchSlugs[j - |kept|];
      }
    }
  }

  /** The override on a concrete list: `b` is replaced, `a` survives, `c` is appended. */
  lemma OverrideExample()
    ensures Override([("a", 1), ("b", 2)], [("b", 3), ("c", 4)], (x: (string, int)) => x.0) ==
            [("a", 1), ("b", 3), ("c", 4)]
  {
    var slug := (x: (string, int)) => x.0;
    var batchSlugs := SlugsOf([("b", 3), ("c", 4)], slug);
    assert batchSlugs == ["b", "c"];
    var keep := (x: (string, int)) => slug(x) !in batchSlugs;
    assert Filter([("a", 1), ("b", 2)], keep) == [("a", 1)] by {
      assert [("a", 1), ("b", 2)][1..] == [("b", 2)];
      assert [("b", 2)][1..] == [];
    }
  }

  /** `getMergedLocations(base)` */
  function GetMergedLocations(base: seq<LocationItem>,
                              b1: Entries<BatchEntry>, b2: Entries<BatchEntry>, b3: Entries<BatchEntry>,
                              b4: Entries<BatchEntry>, b5: Entries<BatchEntry>,
                              p: LocationPatterns, site: SiteConfig): seq<LocationItem>
  {
    Override(base, GetLocationsFromBatches(b1, b2, b3, b4, b5, p, site), LocationSlug)
  }

  /** `getMergedServices(base)` */
  function GetMergedServices(base: seq<ServiceItem>,
                             b1: Entries<BatchEntry>, b2: Entries<BatchEntry>, b3: Entries<BatchEntry>,
                             p: ServicePatterns, site: SiteConfig): seq<ServiceItem>
  {
    Override(base, GetServicesFromBatches(b1, b2, b3, p, site), ServiceSlug)
  }

  /** A base list without repeated slugs merges into a list without repeated slugs. */
  lemma MergedLocationsDistinct(base: seq<LocationItem>,
                                b1: Entries<BatchEntry>, b2: Entries<BatchEntry>, b3: Entries<BatchEntry>,
                                b4: Entries<BatchEntry>, b5: Entries<BatchEntry>,
                                p: LocationPatterns, site: SiteConfig)
    requires Distinct(SlugsOf(base, LocationSlug))
    ensures Distinct(SlugsOf(GetMergedLocations(base, b1, b2, b3, b4, b5, p, site), LocationSlug))
  {
    LocationsInInsertionOrder(b1, b2, b3, b4, b5, p, site);
    OverrideKeepsDistinct(base, GetLocationsFromBatches(b1, b2, b3, b4, b5, p, site), LocationSlug);
  }

  /** A base list without repeated slugs merges into a list without repeated slugs. */
  lemma MergedServicesDistinct(base: seq<ServiceItem>,
                               b1: Entries<BatchEntry>, b2: Entries<BatchEntry>, b3: Entries<BatchEntry>,
                               p: ServicePatterns, site: SiteConfig)
    requires Distinct(SlugsOf(base, ServiceSlug))
    ensures Distinct(SlugsOf(GetMergedServices(base, b1, b2, b3, p, site), ServiceSlug))
  {
    ServicesInInsertionOrder(b1, b2, b3, p, site);
    OverrideKeepsDistinct(base, GetServicesFromBatches(b1, b2, b3, p, site), ServiceSlug);
  }
}
