/**
 * The site-wide constants of `lib/constants.ts` that are derived from the
 * site configuration file: the primary city, the state abbreviation and the
 * canonical site URL. The configuration is a parameter; each of its fields
 * may be missing.
 */
module SiteConstants {
  import opened Options
  import opened Text

  /** The fields of the site configuration the constants are derived from. */
  datatype SiteConfig = SiteConfig(mainCity: Option<string>, state: Option<string>, website: Option<string>)

  /** `x || fallback` for a configuration string: a missing or empty value takes the fallback. */
  function OrDefault(x: Option<string>, fallback: string): (r: string)
    ensures x.Some? && x.value != "" ==> r == x.value
    ensures x.None? || x.value == "" ==> r == fallback
  {
    if x.Some? && x.value != "" then x.value else fallback
  }

  /** `PRIMARY_CITY` */
  function PrimaryCity(site: SiteConfig): (r: string)
    ensures r != ""
    ensures r == "Fort Worth" || Some(r) == site.mainCity
  {
    OrDefault(site.mainCity, "Fort Worth")
  }

  /** `PRIMARY_STATE_ABBR` */
  function PrimaryStateAbbr(site: SiteConfig): (r: string)
    ensures r != ""
    ensures r == "TX" || Some(r) == site.state
  {
    OrDefault(site.state, "TX")
  }

  const DefaultHost: string := "1031exchangefortworth.com"

  /** `w.replace(/^https?:\/\//, "")`: one leading scheme, if any, is removed. */
  function StripScheme(w: string): (r: string)
    ensures |r| <= |w| && r == w[|w| - |r|..]
  {
    if StartsWith(w, "https://") then w[8..]
    else if StartsWith(w, "http://") then w[7..]
    else w
  }

  /** `SITE_URL` */
  function SiteUrl(site: SiteConfig): (r: string)
    ensures StartsWith(r, "https://")
  {
    var host := match site.website
      case Some(w) => StripScheme(w)
      case None => "";
    "https://" + OrDefault(Some(host), DefaultHost)
  }

  /** Stripping removes exactly the scheme it finds, and only once. */
  lemma StripSchemeInverse(host: string)
    ensures StripScheme("https://" + host) == host
    ensures StripScheme("http://" + host) == host
  {
    assert ("https://" + host)[..8] == "https://";
    assert ("http://" + host)[..7] == "http://";
    assert !StartsWith("http://" + host, "https://") by {
      if |"http://" + host| >= 8 {
        assert ("http://" + host)[4] == ':' && "https://"[4] == 's';
        assert ("http://" + host)[..8][4] == ':';
      }
    }
  }

  /** A website without a scheme is kept as it is. */
  lemma StripSchemeKeepsBareHost(w: string)
    requires !StartsWith(w, "https://") && !StartsWith(w, "http://")
    ensures StripScheme(w) == w
  {
  }

  /** The URL is `https://` followed by the configured host, or the default host when there is none. */
  lemma SiteUrlHost(site: SiteConfig)
    ensures site.website.None? ==> SiteUrl(site) == "https://" + DefaultHost
    ensures site.website.Some? && StripScheme(site.website.value) == "" ==>
      SiteUrl(site) == "https://1031exchangefortworth.com"
    ensures site.website.Some? && StripScheme(site.website.value) != "" ==>
      SiteUrl(site) == "https://" + StripScheme(site.website.value)
  {
  }

  /** A configured `http://` address is upgraded to `https://`. */
  lemma SiteUrlUpgradesScheme(site: SiteConfig, host: string)
    requires site.website == Some("http://" + host) && host != ""
    ensures SiteUrl(site) == "https://" + host
  {
    StripSchemeInverse(host);
  }

  /** Feeding the URL back as the website gives the same URL. */
  lemma SiteUrlIdempotent(site: SiteConfig)
    ensures SiteUrl(site.(website := Some(SiteUrl(site)))) == SiteUrl(site)
  {
    var host := OrDefault(Some(match site.website case Some(w) => StripScheme(w) case None => ""), DefaultHost);
    assert host != "";
    assert SiteUrl(site) == "https://" + host;
    StripSchemeInverse(host);
  }
}
