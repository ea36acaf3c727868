/**
 * `locationsData` of `data/locations.ts`: the batch-derived locations
 * without the `remote` entry and without the locations that have no image.
 */
module LocationsData {
  import opened Options
  import opened Text
  import opened Lists
  import opened ObjectSpread
  import opened BatchData
  import opened Classification
  import opened LocationImages
  import opened NameExtraction
  import opened SiteConstants
  import opened MergeBatchData

  /** `location.heroImage` is truthy. */
  predicate HasHeroImage(l: LocationItem) {
    l.heroImage.Some? && l.heroImage.value != ""
  }

  /** The test the listing applies to each location. */
  predicate IsListed(l: LocationItem) {
    l.slug != "remote" && HasHeroImage(l)
  }

  /** The filter applied to the batch-derived locations. */
  function ListedLocations(items: seq<LocationItem>): (r: seq<LocationItem>)
    ensures forall l :: l in r ==> l.slug != "remote" && l.heroImage.Some?
    ensures forall l :: l in items && l.slug != "remote" && HasHeroImage(l) ==> l in r
    ensures forall l :: multiset(r)[l] == if IsListed(l) then multiset(items)[l] else 0
  {
    FilterCounts(items, IsListed);
    Filter(items, IsListed)
  }

  /** The listing keeps the order of the locations it keeps. */
  lemma ListedKeepsOrder(items: seq<LocationItem>)
    ensures IsSubsequence(ListedLocations(items), items)
  {
    FilterIsSubsequence(items, IsListed);
  }

  /** `locationsData`, over the five location batches. */
  function GetLocationsData(b1: Entries<BatchEntry>, b2: Entries<BatchEntry>, b3: Entries<BatchEntry>,
                            b4: Entries<BatchEntry>, b5: Entries<BatchEntry>,
                            p: LocationPatterns, site: SiteConfig): seq<LocationItem>
  {
    ListedLocations(GetLocationsFromBatches(b1, b2, b3, b4, b5, p, site))
  }

  /**
   * A batch location is listed exactly when its slug, once corrected, is in
   * the image table: the `remote` test never removes anything more, since
   * `remote` has no image.
   */
  lemma ListedIffImage(b1: Entries<BatchEntry>, b2: Entries<BatchEntry>, b3: Entries<BatchEntry>,
                       b4: Entries<BatchEntry>, b5: Entries<BatchEntry>,
                       p: LocationPatterns, site: SiteConfig, i: nat)
    requires i < |GetLocationsFromBatches(b1, b2, b3, b4, b5, p, site)|
    ensures var l := GetLocationsFromBatches(b1, b2, b3, b4, b5, p, site)[i];
      IsListed(l) <==> NormalizeSlug(l.slug) in ImageExtensions
  {
    var l := GetLocationsFromBatches(b1, b2, b3, b4, b5, p, site)[i];
    LocationItemShape(b1, b2, b3, b4, b5, p, site, i);
    RemoteHasNoImage();
    if l.heroImage.Some? {
      assert StartsWith(l.heroImage.value, ImagePrefix);
    }
  }

  lemma RemoteHasNoImage()
    ensures LocationImagePath("remote") == None
  {
    assert NormalizeSlug("remote") == "remote";
    assert "remote" !in ImageExtensions;
  }

  /** No listed location is tagged `remote`, and every one has an image path of the fixed form. */
  lemma ListedLocationsShape(b1: Entries<BatchEntry>, b2: Entries<BatchEntry>, b3: Entries<BatchEntry>,
                             b4: Entries<BatchEntry>, b5: Entries<BatchEntry>,
                             p: LocationPatterns, site: SiteConfig)
    ensures forall l :: l in GetLocationsData(b1, b2, b3, b4, b5, p, site) ==>
      l.kind != Remote && l.heroImage == LocationImagePath(l.slug) && l.heroImage.Some?
  {
    var items := GetLocationsFromBatches(b1, b2, b3, b4, b5, p, site);
    forall l | l in GetLocationsData(b1, b2, b3, b4, b5, p, site)
      ensures l.kind != Remote && l.heroImage == LocationImagePath(l.slug) && l.heroImage.Some?
    {
      var i :| 0 <= i < |items| && items[i] == l;
      LocationItemShape(b1, b2, b3, b4, b5, p, site, i);
      RemoteExactly(l.slug);
    }
  }
}
