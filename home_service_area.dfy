/**
 * The search box of the home page's service-area section
 * (`components/home/HomeServiceArea.tsx`). It tests the trimmed query for
 * blankness before lower-casing it, and otherwise filters as the locations
 * directory does.
 */
module HomeServiceArea {
  import opened Text
  import opened Lists
  import opened MergeBatchData
  import LocationsDirectory

  /** The `filtered` list. */
  function ServiceAreaFilter(locations: seq<LocationItem>, query: string): seq<LocationItem> {
    if Trim(query) == "" then locations
    else
      var q := ToLower(Trim(query));
      Filter(locations, (l: LocationItem) => Contains(ToLower(l.name), q))
  }

  /** A blank query lists every location, unchanged. */
  lemma BlankQueryKeepsAll(locations: seq<LocationItem>, query: string)
    requires IsBlank(query)
    ensures ServiceAreaFilter(locations, query) == locations
  {
  }

  /** The two search boxes always list the same locations, although they test for a blank query differently. */
  lemma AgreesWithDirectory(locations: seq<LocationItem>, query: string)
    ensures ServiceAreaFilter(locations, query) == LocationsDirectory.DirectoryFilter(locations, query)
  {
    var q := ToLower(Trim(query));
    assert |q| == |Trim(query)|;
    if q != "" {
      FilterCongruent(locations, (l: LocationItem) => Contains(ToLower(l.name), q),
                      (l: LocationItem) => LocationsDirectory.NameMatches(l, q));
    }
  }

  /**
   * A location is listed exactly when its lower-cased name contains the
   * trimmed, lower-cased query.
   */
  lemma ServiceAreaMembers(locations: seq<LocationItem>, query: string, l: LocationItem)
    ensures l in ServiceAreaFilter(locations, query) <==>
            l in locations && Contains(ToLower(l.name), ToLower(Trim(query)))
  {
    AgreesWithDirectory(locations, query);
    LocationsDirectory.DirectoryMembers(locations, query, l);
  }

  /** A listed location is listed as many times as the input holds it. */
  lemma ServiceAreaCounts(locations: seq<LocationItem>, query: string, l: LocationItem)
    ensures multiset(ServiceAreaFilter(locations, query))[l] ==
            if Contains(ToLower(l.name), ToLower(Trim(query))) then multiset(locations)[l] else 0
  {
    AgreesWithDirectory(locations, query);
    LocationsDirectory.DirectoryCounts(locations, query, l);
  }

  /** The listed locations keep their order. */
  lemma ServiceAreaKeepsOrder(locations: seq<LocationItem>, query: string)
    ensures IsSubsequence(ServiceAreaFilter(locations, query), locations)
  {
    AgreesWithDirectory(locations, query);
    LocationsDirectory.DirectoryKeepsOrder(locations, query);
  }
}
