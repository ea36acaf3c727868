/**
 * The search box of the locations directory
 * (`components/locations/LocationsDirectory.tsx`): the trimmed,
 * lower-cased query is looked for in each lower-cased location name.
 */
module LocationsDirectory {
  import opened Text
  import opened Lists
  import opened MergeBatchData

  /** `query.trim().toLowerCase()` */
  function NormalizeQuery(query: string): string {
    ToLower(Trim(query))
  }

  /** `location.name.toLowerCase().includes(q)` */
  predicate NameMatches(l: LocationItem, q: string) {
    Contains(ToLower(l.name), q)
  }

  /** The `filtered` list. */
  function DirectoryFilter(locations: seq<LocationItem>, query: string): seq<LocationItem> {
    var normalized := NormalizeQuery(query);
    if normalized == "" then locations
    else Filter(locations, l => NameMatches(l, normalized))
  }

  /** A blank query lists every location, unchanged. */
  lemma BlankQueryKeepsAll(locations: seq<LocationItem>, query: string)
    requires IsBlank(query)
    ensures DirectoryFilter(locations, query) == locations
  {
  }

  /**
   * A location is listed exactly when its lower-cased name contains the
   * normalised query (which every name does when the query is blank).
   */
  lemma DirectoryMembers(locations: seq<LocationItem>, query: string, l: LocationItem)
    ensures l in DirectoryFilter(locations, query) <==> l in locations && NameMatches(l, NormalizeQuery(query))
  {
    if NormalizeQuery(query) == "" {
      ContainsEmpty(ToLower(l.name));
    }
  }

  /** A listed location is listed as many times as the input holds it. */
  lemma DirectoryCounts(locations: seq<LocationItem>, query: string, l: LocationItem)
    ensures multiset(DirectoryFilter(locations, query))[l] ==
            if NameMatches(l, NormalizeQuery(query)) then multiset(locations)[l] else 0
  {
    var normalized := NormalizeQuery(query);
    if normalized == "" {
      ContainsEmpty(ToLower(l.name));
    } else {
      FilterCounts(locations, l => NameMatches(l, normalized));
    }
  }

  /** The listed locations keep their order. */
  lemma DirectoryKeepsOrder(locations: seq<LocationItem>, query: string)
    ensures IsSubsequence(DirectoryFilter(locations, query), locations)
  {
    var normalized := NormalizeQuery(query);
    if normalized == "" {
      SubsequenceRefl(locations);
    } else {
      FilterIsSubsequence(locations, l => NameMatches(l, normalized));
    }
  }

  /** Queries that differ only in letter case give the same list. */
  lemma DirectoryIgnoresCase(locations: seq<LocationItem>, q1: string, q2: string)
    requires ToLower(q1) == ToLower(q2)
    ensures DirectoryFilter(locations, q1) == DirectoryFilter(locations, q2)
  {
    ToLowerTrimCommute(q1);
    ToLowerTrimCommute(q2);
  }

  /** White space around a query does not change the list. */
  lemma DirectoryIgnoresSurroundingSpace(locations: seq<LocationItem>, a: string, query: string, b: string)
    requires AllWhiteSpace(a) && AllWhiteSpace(b)
    ensures DirectoryFilter(locations, a + query + b) == DirectoryFilter(locations, query)
  {
    TrimIgnoresSurroundingSpace(a, query, b);
  }
}
