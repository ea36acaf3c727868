/**
 * The field extractor of `lib/merge-batch-data.ts`: a display name for a
 * location or service, taken from its HTML description when one of two
 * patterns matches, otherwise from a table of known slugs, otherwise by
 * title-casing the slug; the first paragraph of the description; and the
 * 200-character cut of a service's short text.
 *
 * The name patterns are JavaScript regular expressions with character
 * classes, lazy bounded quantifiers and, for the two service patterns,
 * case-insensitive matching. They are not modelled: each pattern is a
 * given function from the HTML to the captured group, or `None` when it does
 * not match. The first-paragraph pattern `<p>([^<]+)<` is modelled exactly.
 */
module NameExtraction {
  import opened Options
  import opened Text

  // ---------------------------------------------------------------- title case

  /** `word.charAt(0).toUpperCase() + word.slice(1)` */
  function Capitalize(w: string): (r: string)
    ensures |r| == |w|
  {
    if w == [] then [] else [UpperChar(w[0])] + w[1..]
  }

  /** `words.map(capitalize)` */
  function CapitalizeAll(ws: seq<string>): (rs: seq<string>)
    ensures |rs| == |ws|
    ensures forall i :: 0 <= i < |ws| ==> rs[i] == Capitalize(ws[i])
  {
    seq(|ws|, i requires 0 <= i < |ws| => Capitalize(ws[i]))
  }

  /** `slug.split("-").map(capitalize).join(" ")` */
  function TitleCase(slug: string): string {
    Join(CapitalizeAll(Split(slug, '-')), ' ')
  }

  /**
   * Character `i` of the title-cased slug, stated on its own: hyphens become
   * spaces, and a character that starts the slug or follows a hyphen is
   * upper-cased; all others are unchanged.
   */
  function TitleChar(slug: string, i: nat): char
    requires i < |slug|
  {
    if slug[i] == '-' then ' '
    else if i == 0 || slug[i - 1] == '-' then UpperChar(slug[i])
    else slug[i]
  }

  /** One step of title-casing: the first word, capitalised, then the rest after the hyphen. */
  lemma {:induction false} TitleCaseStep(slug: string)
    ensures IndexOf(slug, '-') == |slug| ==> TitleCase(slug) == Capitalize(slug)
    ensures IndexOf(slug, '-') < |slug| ==>
      TitleCase(slug) == Capitalize(slug[..IndexOf(slug, '-')]) + [' '] + TitleCase(slug[IndexOf(slug, '-') + 1..])
  {
    var k := IndexOf(slug, '-');
    if k == |slug| {
      assert slug[..k] == slug;
      assert Split(slug, '-') == [slug];
      assert CapitalizeAll([slug]) == [Capitalize(slug)];
    } else {
      var w, rest := slug[..k], slug[k + 1..];
      var parts := Split(rest, '-');
      assert Split(slug, '-') == [w] + parts;
      CapitalizeAllCons(w, parts);
      var caps := CapitalizeAll(parts);
      JoinCons(Capitalize(w), caps, ' ');
    }
  }

  lemma CapitalizeAllCons(w: string, ws: seq<string>)
    ensures CapitalizeAll([w] + ws) == [Capitalize(w)] + CapitalizeAll(ws)
  {
    var l, r := CapitalizeAll([w] + ws), [Capitalize(w)] + CapitalizeAll(ws);
    assert |l| == |r|;
    forall i | 0 <= i < |l| ensures l[i] == r[i] {
      if i > 0 {
        assert ([w] + ws)[i] == ws[i - 1];
      }
    }
  }

  /** A word without hyphens is title-cased by capitalising it. */
  lemma CapitalizeChars(w: string)
    requires '-' !in w
    ensures forall i :: 0 <= i < |w| ==> Capitalize(w)[i] == TitleChar(w, i)
  {
    forall i | 0 <= i < |w| ensures Capitalize(w)[i] == TitleChar(w, i) {
      assert w[i] != '-';
      if i > 0 {
        assert w[i - 1] != '-';
      }
    }
  }

  /**
   * Title-casing keeps the length and maps each character as `TitleChar` says:
   * no character depends on more than itself and its left neighbour.
   */
  lemma {:induction false} TitleCaseChars(slug: string)
    ensures |TitleCase(slug)| == |slug|
    ensures forall i :: 0 <= i < |slug| ==> TitleCase(slug)[i] == TitleChar(slug, i)
    decreases |slug|
  {
    var k := IndexOf(slug, '-');
    TitleCaseStep(slug);
    if k == |slug| {
      assert slug[..k] == slug;
      CapitalizeChars(slug);
    } else {
      var w, rest := slug[..k], slug[k + 1..];
      CapitalizeChars(w);
      TitleCaseChars(rest);
      TitleCharsJoin(slug, k, Capitalize(w), TitleCase(rest));
    }
  }

  /** The characters of a capitalised first word, a space and a title-cased rest are those of the whole slug. */
  lemma TitleCharsJoin(slug: string, k: nat, head: string, tail: string)
    requires k < |slug| && slug[k] == '-'
    requires |head| == k && forall i :: 0 <= i < k ==> head[i] == TitleChar(slug[..k], i)
    requires |tail| == |slug| - k - 1 && forall j :: 0 <= j < |tail| ==> tail[j] == TitleChar(slug[k + 1..], j)
    ensures |head + [' '] + tail| == |slug|
    ensures forall i :: 0 <= i < |slug| ==> (head + [' '] + tail)[i] == TitleChar(slug, i)
  {
    var t := head + [' '] + tail;
    forall i | 0 <= i < |slug| ensures t[i] == TitleChar(slug, i) {
      if i < k {
        assert t[i] == head[i] == TitleChar(slug[..k], i);
      } else if i > k {
        assert t[i] == tail[i - k - 1] == TitleChar(slug[k + 1..], i - k - 1);
      }
    }
  }

  /** Spaces in the title-cased slug are exactly the slug's hyphens. */
  lemma TitleCaseSpaces(slug: string, i: nat)
    requires i < |slug| && slug[i] != ' '
    ensures i < |TitleCase(slug)|
    ensures TitleCase(slug)[i] == ' ' <==> slug[i] == '-'
  {
    TitleCaseChars(slug);
    if slug[i] != '-' {
      assert TitleChar(slug, i) == UpperChar(slug[i]) || TitleChar(slug, i) == slug[i];
    }
  }

  // ---------------------------------------------------------------- exception tables

  /** The known location slugs and their display names (`extractLocationName`'s `nameMap`). */
  const LocationNames: map<string, string> := map[
    "fort-worth" := "Fort Worth",
    "north-richland-hills" := "North Richland Hills",
    "haltom-city" := "Haltom City",
    "halton-city" := "Haltom City",
    "lake-worth" := "Lake Worth",
    "white-settlement" := "White Settlement",
    "river-oaks" := "River Oaks",
    "sansom-park" := "Sansom Park",
    "westworth-village" := "Westworth Village",
    "flower-mound" := "Flower Mound",
    "grand-prairie" := "Grand Prairie"
  ]

  /** The known service slugs and their display names (`extractServiceName`'s `nameMap`). */
  const ServiceNames: map<string, string> := map[
    "forward-exchange" := "Forward Exchange",
    "reverse-exchange" := "Reverse Exchange",
    "simultaneous-exchange" := "Simultaneous Exchange",
    "delayed-exchange" := "Delayed Exchange",
    "build-to-suit-exchange" := "Build To Suit Exchange",
    "improvement-exchange" := "Improvement Exchange",
    "partial-exchange" := "Partial Exchange",
    "multi-property-exchange" := "Multi Property Exchange",
    "qualified-intermediary-services" := "Qualified Intermediary Services",
    "qualified-escrow-services" := "Qualified Escrow Services",
    "exchange-documentation" := "Exchange Documentation",
    "property-identification" := "Property Identification",
    "tax-basis-calculation" := "Tax Basis Calculation",
    "boot-analysis" := "Boot Analysis",
    "depreciation-recapture-planning" := "Depreciation Recapture Planning",
    "exchange-reporting" := "Exchange Reporting",
    "nnn-property-identification" := "NNN Property Identification",
    "retail-property-identification" := "Retail Property Identification",
    "industrial-property-identification" := "Industrial Property Identification",
    "medical-property-identification" := "Medical Property Identification",
    "exchange-education" := "Exchange Education",
    "exchange-consultation" := "Exchange Consultation",
    "investor-resources" := "Investor Resources"
  ]

  /** `nameMap[slug]` when it is truthy, otherwise the title-cased slug. */
  function NameFromSlug(names: map<string, string>, slug: string): string {
    if slug in names && names[slug] != "" then names[slug] else TitleCase(slug)
  }

  /** No display name in either table is empty, so a listed slug always takes its table name. */
  lemma TablesHaveNames()
    ensures forall k :: k in LocationNames ==> LocationNames[k] != ""
    ensures forall k :: k in ServiceNames ==> ServiceNames[k] != ""
  {
  }

  // ---------------------------------------------------------------- the cascade

  /** The two location-name patterns, as functions from the HTML to the captured group. */
  datatype LocationPatterns = LocationPatterns(
    cityState: string -> Option<string>,  // `<p>([A-Z][a-zA-Z\s-]+), TX`
    cityVerb: string -> Option<string>)   // `<p>([A-Z][a-zA-Z\s-]+) (?:represents|serves|offers)`

  /** The two service-name patterns, as functions from the HTML to the captured group. */
  datatype ServicePatterns = ServicePatterns(
    keywordPhrase: string -> Option<string>,  // a phrase with a service keyword before a linking verb
    leadingPhrase: string -> Option<string>)  // any 5 to 80 character phrase before a linking verb

  /** `extractLocationName(html, slug)` */
  function ExtractLocationName(html: string, slug: string, p: LocationPatterns): string {
    match p.cityState(html)
    case Some(g) => Trim(g)
    case None =>
      match p.cityVerb(html)
      case Some(g) => Trim(g)
      case None => NameFromSlug(LocationNames, slug)
  }

  /** `name.replace(/^A /, "").replace(/^An /, "")` */
  function StripArticle(name: string): (r: string)
    ensures |name| - |r| in {0, 2, 3, 5} && r == name[|name| - |r|..]
    ensures !StartsWith(name, "A ") && !StartsWith(name, "An ") ==> r == name
  {
    var a := if StartsWith(name, "A ") then name[2..] else name;
    if StartsWith(a, "An ") then a[3..] else a
  }

  /** A leading `A ` or `An ` is removed, and `A ` followed by `An ` loses both. */
  lemma StripArticleRemoves(x: string)
    ensures !StartsWith(x, "An ") ==> StripArticle("A " + x) == x
    ensures StripArticle("An " + x) == x
    ensures StripArticle("A An " + x) == x
  {
    assert ("A " + x)[..2] == "A " && ("A " + x)[2..] == x;
    assert ("An " + x)[..3] == "An " && ("An " + x)[3..] == x;
    assert !StartsWith("An " + x, "A ") by {
      assert ("An " + x)[1] == 'n';
    }
    var y := "A An " + x;
    assert y[..2] == "A " && y[2..] == "An " + x;
  }

  /** `extractServiceName(html, slug)` */
  function ExtractServiceName(html: string, slug: string, p: ServicePatterns): string {
    match p.keywordPhrase(html)
    case Some(g) => Trim(g)
    case None =>
      match p.leadingPhrase(html)
      case Some(g) => StripArticle(Trim(g))
      case None => NameFromSlug(ServiceNames, slug)
  }

  /** The value of the first attempt that succeeded, or the fallback when none did. */
  function FirstSuccess(attempts: seq<Option<string>>, fallback: string): string {
    if attempts == [] then fallback
    else if attempts[0].Some? then attempts[0].value
    else FirstSuccess(attempts[1..], fallback)
  }

  function TrimmedGroup(m: Option<string>): Option<string> {
    match m
    case Some(g) => Some(Trim(g))
    case None => None
  }

  lemma FirstOfTwo(a: Option<string>, b: Option<string>, fallback: string)
    ensures FirstSuccess([a, b], fallback) ==
      if a.Some? then a.value else if b.Some? then b.value else fallback
  {
    var xs := [a, b];
    assert xs[1..] == [b];
    assert [b][1..] == [];
    if a.None? {
      assert FirstSuccess(xs, fallback) == FirstSuccess([b], fallback);
      if b.None? {
        assert FirstSuccess([b], fallback) == FirstSuccess([], fallback);
      }
    }
  }

  /** The location cascade is an ordered list of attempts, the first success winning. */
  lemma LocationNameCascade(html: string, slug: string, p: LocationPatterns)
    ensures ExtractLocationName(html, slug, p) ==
      FirstSuccess([TrimmedGroup(p.cityState(html)), TrimmedGroup(p.cityVerb(html))],
                   NameFromSlug(LocationNames, slug))
  {
    var fallback := NameFromSlug(LocationNames, slug);
    FirstOfTwo(TrimmedGroup(p.cityState(html)), TrimmedGroup(p.cityVerb(html)), fallback);
  }

  /** The service cascade likewise; the looser pattern's name also loses a leading article. */
  lemma ServiceNameCascade(html: string, slug: string, p: ServicePatterns)
    ensures ExtractServiceName(html, slug, p) ==
      FirstSuccess([TrimmedGroup(p.keywordPhrase(html)),
                    match p.leadingPhrase(html) case Some(g) => Some(StripArticle(Trim(g))) case None => None],
                   NameFromSlug(ServiceNames, slug))
  {
    var second := match p.leadingPhrase(html) case Some(g) => Some(StripArticle(Trim(g))) case None => None;
    FirstOfTwo(TrimmedGroup(p.keywordPhrase(html)), second, NameFromSlug(ServiceNames, slug));
  }

  /** With no pattern matching, a location's name is its table entry, else its title-cased slug. */
  lemma LocationNameFallback(html: string, slug: string, p: LocationPatterns)
    requires p.cityState(html).None? && p.cityVerb(html).None?
    ensures ExtractLocationName(html, slug, p) ==
      if slug in LocationNames then LocationNames[slug] else TitleCase(slug)
  {
    TablesHaveNames();
  }

  /** With no pattern matching, a service's name is its table entry, else its title-cased slug. */
  lemma ServiceNameFallback(html: string, slug: string, p: ServicePatterns)
    requires p.keywordPhrase(html).None? && p.leadingPhrase(html).None?
    ensures ExtractServiceName(html, slug, p) ==
      if slug in ServiceNames then ServiceNames[slug] else TitleCase(slug)
  {
    TablesHaveNames();
  }

  /** An unlisted slug with no matching pattern is title-cased word by word. */
  lemma UnlistedSlugName(html: string, p: LocationPatterns)
    requires p.cityState(html).None? && p.cityVerb(html).None?
    ensures ExtractLocationName(html, "some-unlisted-slug", p) == "Some Unlisted Slug"
  {
    assert "some-unlisted-slug" !in LocationNames;
    UnlistedSlugTitle();
  }

  lemma UnlistedSlugTitle()
    ensures TitleCase("some-unlisted-slug") == "Some Unlisted Slug"
  {
    TitleCaseChars("some-unlisted-slug");
    UnlistedSlugChars("some-unlisted-slug", TitleCase("some-unlisted-slug"));
  }

  lemma UnlistedSlugChars(slug: string, t: string)
    requires slug == "some-unlisted-slug"
    requires |t| == |slug| && forall i :: 0 <= i < |slug| ==> t[i] == TitleChar(slug, i)
    ensures t == "Some Unlisted Slug"
  {
    assert t[0] == 'S';
  }

  // ---------------------------------------------------------------- first paragraph

  /** End of the run of characters other than `<` that starts at `j`. */
  function RunEnd(s: string, j: nat): (e: nat)
    requires j <= |s|
    ensures j <= e <= |s|
    ensures forall k :: j <= k < e ==> s[k] != '<'
    ensures e < |s| ==> s[e] == '<'
    decreases |s| - j
  {
    if j == |s| || s[j] == '<' then j else RunEnd(s, j + 1)
  }

  /** The run ends at the first `<` at or after `j`. */
  lemma {:induction false} RunEndAt(s: string, j: nat, e: nat)
    requires j <= e < |s| && s[e] == '<'
    requires forall k :: j <= k < e ==> s[k] != '<'
    ensures RunEnd(s, j) == e
    decreases e - j
  {
    if j < e {
      RunEndAt(s, j + 1, e);
    }
  }

  /** `/<p>([^<]+)</` matches `s` at index `i` and captures `g`. */
  predicate MatchesAt(s: string, i: int, g: string) {
    0 <= i && i + 3 + |g| < |s| && s[i..i + 3] == "<p>" && g != [] &&
    s[i + 3..i + 3 + |g|] == g && '<' !in g && s[i + 3 + |g|] == '<'
  }

  /** A capture spans exactly the run after `<p>`: `[^<]+` stops at the first `<`. */
  lemma CaptureIsRun(s: string, i: int, g: string)
    requires MatchesAt(s, i, g)
    ensures i + 3 + |g| == RunEnd(s, i + 3)
  {
    forall k | i + 3 <= k < i + 3 + |g| ensures s[k] != '<' {
      assert g[k - i - 3] == s[k];
    }
    RunEndAt(s, i + 3, i + 3 + |g|);
  }

  /** So the capture at a given index is unique. */
  lemma MatchUnique(s: string, i: int, g: string, h: string)
    requires MatchesAt(s, i, g) && MatchesAt(s, i, h)
    ensures g == h
  {
    CaptureIsRun(s, i, g);
    CaptureIsRun(s, i, h);
  }

  /** A non-empty run after `<p>` that stops at a `<` is a capture. */
  lemma RunIsCapture(s: string, i: nat, e: nat)
    requires i + 3 <= |s| && s[i..i + 3] == "<p>"
    requires e == RunEnd(s, i + 3) && i + 3 < e < |s|
    ensures MatchesAt(s, i, s[i + 3..e])
  {
    var g := s[i + 3..e];
    forall k | 0 <= k < |g| ensures g[k] != '<' {
      assert g[k] == s[i + 3 + k];
    }
  }

  /** The capture of the pattern at index `i`, if it matches there. */
  function ParagraphAt(s: string, i: nat): (r: Option<string>)
    requires i <= |s|
    ensures r.Some? ==> MatchesAt(s, i, r.value)
    ensures r.None? ==> forall g :: !MatchesAt(s, i, g)
  {
    if i + 3 <= |s| && s[i..i + 3] == "<p>" then
      var e := RunEnd(s, i + 3);
      if i + 3 < e < |s| then
        RunIsCapture(s, i, e);
        Some(s[i + 3..e])
      else
        assert forall g :: MatchesAt(s, i, g) ==> i + 3 + |g| == e by {
          forall g | MatchesAt(s, i, g) ensures i + 3 + |g| == e {
            CaptureIsRun(s, i, g);
          }
        }
        None
    else
      None
  }

  /** The leftmost match at or after index `i`: its start and its capture. */
  function FindParagraph(s: string, i: nat): (r: Option<(nat, string)>)
    requires i <= |s|
    ensures r.Some? ==> i <= r.value.0 && MatchesAt(s, r.value.0, r.value.1)
    ensures r.Some? ==> forall q, g :: i <= q < r.value.0 ==> !MatchesAt(s, q, g)
    ensures r.None? ==> forall q, g :: i <= q ==> !MatchesAt(s, q, g)
    decreases |s| - i
  {
    if i == |s| then None
    else
      match ParagraphAt(s, i)
      case Some(g) => Some((i, g))
      case None => FindParagraph(s, i + 1)
  }

  /** `extractFirstParagraph(html)` */
  function ExtractFirstParagraph(html: string): string {
    match FindParagraph(html, 0)
    case Some((_, g)) => Trim(g)
    case None => ""
  }

  /** The first paragraph is the trimmed capture of the leftmost match... */
  lemma FirstParagraphIsLeftmost(html: string, q: nat, g: string)
    requires MatchesAt(html, q, g)
    requires forall q', g' :: 0 <= q' < q ==> !MatchesAt(html, q', g')
    ensures ExtractFirstParagraph(html) == Trim(g)
  {
    var r := FindParagraph(html, 0);
    assert r.Some?;
    assert r.value.0 == q;
    MatchUnique(html, q, g, r.value.1);
  }

  /** ...and empty when the pattern matches nowhere. */
  lemma FirstParagraphNoMatch(html: string)
    requires forall q, g :: !MatchesAt(html, q, g)
    ensures ExtractFirstParagraph(html) == ""
  {
  }

  /** A concrete description: the first paragraph's text, trimmed. */
  lemma FirstParagraphExample()
    ensures ExtractFirstParagraph("<p> Fort Worth, TX is a hub.</p>") == "Fort Worth, TX is a hub."
  {
    FirstParagraphOf("<p> Fort Worth, TX is a hub.</p>", " Fort Worth, TX is a hub.", "Fort Worth, TX is a hub.");
  }

  lemma FirstParagraphOf(s: string, g: string, t: string)
    requires g == " Fort Worth, TX is a hub." && t == "Fort Worth, TX is a hub."
    requires s == "<p>" + g + "</p>"
    ensures ExtractFirstParagraph(s) == t
  {
    ExampleMatches(s, g);
    FirstParagraphIsLeftmost(s, 0, g);
    ExampleTrims(g, t);
  }

  lemma ExampleMatches(s: string, g: string)
    requires g == " Fort Worth, TX is a hub."
    requires s == "<p>" + g + "</p>"
    ensures MatchesAt(s, 0, g)
  {
    assert s[0..3] == "<p>";
    assert s[3..3 + |g|] == g;
    assert s[3 + |g|] == '<';
  }

  lemma ExampleTrims(g: string, t: string)
    requires g == " Fort Worth, TX is a hub." && t == "Fort Worth, TX is a hub."
    ensures Trim(g) == t
  {
    assert g == [' '] + t + [];
    TrimUnique([' '], t, []);
  }

  // ---------------------------------------------------------------- short text

  /** `short.length > 200 ? short.substring(0, 197) + "..." : short` */
  function Shorten(short: string): (r: string)
    ensures |r| <= 200
    ensures |short| <= 200 ==> r == short
    ensures |short| > 200 ==> |r| == 200 && r[..197] == short[..197] && r[197..] == "..."
  {
    if |short| > 200 then short[..197] + "..." else short
  }

  /** Shortening an already shortened text changes nothing. */
  lemma ShortenIdempotent(short: string)
    ensures Shorten(Shorten(short)) == Shorten(short)
  {
  }
}
