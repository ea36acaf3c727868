/**
 * The hand-authored content batches and the single-record accessors over
 * them (`lib/batch-data.ts`). The batch modules themselves are not part of
 * this model: each batch is an object from slug to entry, given as a
 * parameter.
 */
module BatchData {
  import opened Options
  import opened ObjectSpread

  /**
   * A value stored under a slug in a batch: a content record, or a falsy
   * value (`undefined`, `null`). `mainDescription` is the HTML blurb the
   * name and description are extracted from; the rest of the record is kept
   * as opaque name/value pairs.
   */
  datatype BatchEntry =
    | Falsy
    | Record(mainDescription: Option<string>, otherFields: seq<(string, string)>)

  /** `batchData?.mainDescription` is truthy. */
  predicate HasDescription(e: BatchEntry) {
    e.Record? && e.mainDescription.Some? && e.mainDescription.value != ""
  }

  /** `x || null` for a looked-up entry: absent and falsy entries both become `null`. */
  function OrNull(x: Option<BatchEntry>): (r: Option<BatchEntry>)
    ensures r.Some? <==> x.Some? && x.value.Record?
    ensures r.Some? ==> r == x
  {
    match x
    case Some(Record(_, _)) => x
    case _ => None
  }

  /**
   * `getServiceBatchData(slug)`: spread service batches 01, 02, 03 in that
   * order and look the slug up.
   */
  function GetServiceBatchData(b1: Entries<BatchEntry>, b2: Entries<BatchEntry>, b3: Entries<BatchEntry>,
                               slug: string): (r: Option<BatchEntry>)
    ensures r.Some? ==> r.value.Record?
  {
    OrNull(Get(SpreadAll([b1, b2, b3]), slug))
  }

  /**
   * `getLocationBatchData(slug)`: spread location batches 01 to 05 in that
   * order and look the slug up.
   */
  function GetLocationBatchData(b1: Entries<BatchEntry>, b2: Entries<BatchEntry>, b3: Entries<BatchEntry>,
                                b4: Entries<BatchEntry>, b5: Entries<BatchEntry>, slug: string): (r: Option<BatchEntry>)
    ensures r.Some? ==> r.value.Record?
  {
    OrNull(Get(SpreadAll([b1, b2, b3, b4, b5]), slug))
  }

  /**
   * The accessor's answer is the entry of the latest batch that holds the
   * slug, whole; `null` when no batch holds it or that entry is falsy.
   */
  function LatestEntry(ps: seq<Entries<BatchEntry>>, slug: string): Option<BatchEntry> {
    match LastWith(ps, slug)
    case None => None
    case Some(i) => OrNull(Get(ps[i], slug))
  }

  lemma LatestEntryIsWholeEntry(ps: seq<Entries<BatchEntry>>, slug: string)
    ensures LatestEntry(ps, slug).Some? ==>
      exists i :: 0 <= i < |ps| && Get(ps[i], slug) == LatestEntry(ps, slug)
  {
    match LastWith(ps, slug)
    case None =>
    case Some(i) =>
  }

  /** Service batches: the latest of 01–03 that holds the slug wins; nothing is blended. */
  lemma ServiceBatchDataLastWins(b1: Entries<BatchEntry>, b2: Entries<BatchEntry>, b3: Entries<BatchEntry>,
                                 slug: string)
    requires DistinctKeys(b1) && DistinctKeys(b2) && DistinctKeys(b3)
    ensures GetServiceBatchData(b1, b2, b3, slug) == LatestEntry([b1, b2, b3], slug)
    ensures GetServiceBatchData(b1, b2, b3, slug).Some? ==>
      exists i :: 0 <= i < 3 && Get([b1, b2, b3][i], slug) == GetServiceBatchData(b1, b2, b3, slug)
  {
    SpreadAllGet([b1, b2, b3], slug);
    LatestEntryIsWholeEntry([b1, b2, b3], slug);
  }

  /** Location batches: the latest of 01–05 that holds the slug wins; nothing is blended. */
  lemma LocationBatchDataLastWins(b1: Entries<BatchEntry>, b2: Entries<BatchEntry>, b3: Entries<BatchEntry>,
                                  b4: Entries<BatchEntry>, b5: Entries<BatchEntry>, slug: string)
    requires DistinctKeys(b1) && DistinctKeys(b2) && DistinctKeys(b3) && DistinctKeys(b4) && DistinctKeys(b5)
    ensures GetLocationBatchData(b1, b2, b3, b4, b5, slug) == LatestEntry([b1, b2, b3, b4, b5], slug)
    ensures GetLocationBatchData(b1, b2, b3, b4, b5, slug).Some? ==>
      exists i :: 0 <= i < 5 && Get([b1, b2, b3, b4, b5][i], slug) == GetLocationBatchData(b1, b2, b3, b4, b5, slug)
  {
    var ps := [b1, b2, b3, b4, b5];
    assert forall i :: 0 <= i < |ps| ==> DistinctKeys(ps[i]);
    SpreadAllGet(ps, slug);
    LatestEntryIsWholeEntry(ps, slug);
  }

  /** A slug that is in no batch gives `null`. */
  lemma ServiceBatchDataMissing(b1: Entries<BatchEntry>, b2: Entries<BatchEntry>, b3: Entries<BatchEntry>,
                                slug: string)
    requires slug !in Keys(b1) && slug !in Keys(b2) && slug !in Keys(b3)
    ensures GetServiceBatchData(b1, b2, b3, slug) == None
  {
    SpreadAllHasKey([b1, b2, b3], slug);
    assert forall i :: 0 <= i < 3 ==> slug !in Keys([b1, b2, b3][i]);
  }

  /** A promotional card of the inventory pages, passed through untouched. */
  datatype Spotlight = Spotlight(kind: string, href: string, title: string, copy: string,
                                 ctaLabel: Option<string>, note: Option<string>)

  /** `inventorySpotlight01 || []`: the list when it is defined (an array is always truthy). */
  function GetInventoryBatchData(spotlight: Option<seq<Spotlight>>): (r: seq<Spotlight>)
    ensures spotlight.Some? ==> r == spotlight.value
    ensures spotlight.None? ==> r == []
  {
    spotlight.GetOr([])
  }
}
