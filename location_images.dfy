/**
 * The asset resolver of `lib/merge-batch-data.ts`: a location slug becomes
 * the path of its hero image through a fixed slug-to-extension table, after
 * correcting one known typo in the batch data.
 */
module LocationImages {
  import opened Options
  import opened Text

  /** `locationImageExtensions` */
  const ImageExtensions: map<string, string> := map[
    "allen" := "jpg",
    "arlington" := "jpg",
    "bedford" := "webp",
    "carrollton" := "jpeg",
    "colleyville" := "jpeg",
    "coppell" := "jpg",
    "dallas" := "jpg",
    "denton" := "png",
    "euless" := "jpg",
    "flower-mound" := "jpg",
    "fort-worth" := "jpg",
    "frisco" := "jpeg",
    "garland" := "jpg",
    "grand-prairie" := "jpg",
    "grapevine" := "jpg",
    "haltom-city" := "jpg",
    "halton-city" := "jpg",
    "hurst" := "jpg",
    "irving" := "webp",
    "keller" := "jpg",
    "lake-worth" := "jpg",
    "lewisville" := "png",
    "mckinney" := "jpeg",
    "mesquite" := "jpg",
    "north-richland-hills" := "jpg",
    "plano" := "jpg",
    "richardson" := "jpeg",
    "river-oaks" := "jpg",
    "saginaw" := "jpg",
    "sansom-park" := "jpg",
    "southlake" := "jpg",
    "watauga" := "jpg",
    "westworth-village" := "jpg",
    "white-settlement" := "jpg"
  ]

  /** The batch data spells Haltom City as `halton-city`. */
  function NormalizeSlug(slug: string): (n: string)
    ensures n != "halton-city"
    ensures slug != "halton-city" ==> n == slug
  {
    if slug == "halton-city" then "haltom-city" else slug
  }

  const ImagePrefix: string := "/locations/1031-exchange-"

  /** `getLocationImagePath(slug)`; `None` is `undefined`. */
  function LocationImagePath(slug: string): (r: Option<string>)
    ensures r.None? <==> NormalizeSlug(slug) !in ImageExtensions
    ensures r.Some? ==> StartsWith(r.value, ImagePrefix)
  {
    var n := NormalizeSlug(slug);
    ExtensionsKnown();
    if n in ImageExtensions && ImageExtensions[n] != "" then
      Some(ImagePrefix + n + "-tx." + ImageExtensions[n])
    else
      None
  }

  /** Every extension in the table is one of the four image formats the site ships. */
  lemma ExtensionsKnown()
    ensures forall k :: k in ImageExtensions ==> ImageExtensions[k] in {"jpg", "jpeg", "png", "webp"}
  {
  }

  /** The path of a slug in the table follows the fixed template. */
  lemma ImagePathTemplate(slug: string)
    requires NormalizeSlug(slug) in ImageExtensions
    ensures LocationImagePath(slug) ==
      Some("/locations/1031-exchange-" + NormalizeSlug(slug) + "-tx." + ImageExtensions[NormalizeSlug(slug)])
  {
    ExtensionsKnown();
  }

  /** The typo and the correct spelling resolve to the same image, named after the correct one. */
  lemma HaltonAlias()
    ensures LocationImagePath("halton-city") == LocationImagePath("haltom-city")
    ensures LocationImagePath("haltom-city") == Some("/locations/1031-exchange-haltom-city-tx.jpg")
  {
    assert "haltom-city" in ImageExtensions && ImageExtensions["haltom-city"] == "jpg";
    ImagePathTemplate("haltom-city");
    assert "/locations/1031-exchange-" + "haltom-city" + "-tx." + "jpg" == "/locations/1031-exchange-haltom-city-tx.jpg";
  }

  /** The table's own `halton-city` entry is never consulted: the slug is corrected first. */
  lemma TypoEntryUnused(slug: string)
    ensures LocationImagePath(slug) == LocationImagePath(NormalizeSlug(slug))
  {
  }

  /** A slug the table does not know has no image. */
  lemma UnknownSlugHasNoImage()
    ensures LocationImagePath("nonexistent-slug") == None
  {
    assert NormalizeSlug("nonexistent-slug") == "nonexistent-slug";
    assert "nonexistent-slug" !in ImageExtensions;
  }
}
