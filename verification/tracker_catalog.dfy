/** The static catalog of known tracker domains (TRACKER_DATABASE), exactly as
    the source writes it. */
module TrackerCatalog {

  /** The six tracker categories of the catalog's visual configuration. */
  datatype Category = Ads | Analytics | Social | Marketing | Cdn | Unknown

  /** A category a catalog entry can carry: every one except `Unknown`. */
  type TrackerCategory = c: Category | c != Unknown witness Ads

  /** One catalog value: the category and the product name of a tracker domain. */
  datatype CatalogEntry = CatalogEntry(category: TrackerCategory, name: string)

  /** A catalog in `for ... in` order. */
  type Catalog = seq<(string, CatalogEntry)>

  /** The shape of every key of the catalog: non-empty and beginning with
      neither `'w'` nor `'.'`, so that no key can straddle a leading `"www."`
      of a hostname. */
  predicate IsCatalogKey(k: string) {
    |k| > 0 && k[0] != 'w' && k[0] != '.'
  }

  /** Every key written in `db` has the catalog key shape. */
  ghost predicate WellFormedKeys(db: Catalog) {
    forall i :: 0 <= i < |db| ==> IsCatalogKey(db[i].0)
  }

  /** The TRACKER_DATABASE object literal exactly as written, duplicates
      included, in its eight commented groups (the first split in two). */
  const TrackerDatabaseSource: Catalog :=
    GroupAnalytics + GroupAnalyticsMore + GroupAdvertising + GroupSocialMedia + GroupMarketingTools + GroupCdns + GroupSpecialisedAnalytics + GroupBrazilian + GroupOtherTrackers

  /** Analytics, first half (plugin/trackers.js lines 6 to 11). */
  const GroupAnalytics: Catalog := [
    ("google-analytics.com", CatalogEntry(Analytics, "Google Analytics")),
    ("googletagmanager.com", CatalogEntry(Analytics, "Google Tag Manager")),
    ("facebook.com", CatalogEntry(Social, "Facebook Pixel")),
    ("doubleclick.net", CatalogEntry(Ads, "DoubleClick")),
    ("googlesyndication.com", CatalogEntry(Ads, "Google AdSense")),
    ("amazon-adsystem.com", CatalogEntry(Ads, "Amazon Advertising"))
  ]

  /** Analytics, second half (plugin/trackers.js lines 12 to 16). */
  const GroupAnalyticsMore: Catalog := [
    ("adsystem.com", CatalogEntry(Ads, "Amazon Ads")),
    ("hotjar.com", CatalogEntry(Analytics, "Hotjar")),
    ("mixpanel.com", CatalogEntry(Analytics, "Mixpanel")),
    ("segment.com", CatalogEntry(Analytics, "Segment")),
    ("amplitude.com", CatalogEntry(Analytics, "Amplitude"))
  ]

  /** Advertising networks (plugin/trackers.js lines 19 to 25). */
  const GroupAdvertising: Catalog := [
    ("googlesyndication.com", CatalogEntry(Ads, "Google Ads")),
    ("adsystem.com", CatalogEntry(Ads, "Ad System")),
    ("outbrain.com", CatalogEntry(Ads, "Outbrain")),
    ("taboola.com", CatalogEntry(Ads, "Taboola")),
    ("bing.com", CatalogEntry(Ads, "Microsoft Advertising")),
    ("criteo.com", CatalogEntry(Ads, "Criteo")),
    ("adsystem.com", CatalogEntry(Ads, "Amazon DSP"))
  ]

  /** Social media trackers (plugin/trackers.js lines 28 to 33). */
  const GroupSocialMedia: Catalog := [
    ("facebook.net", CatalogEntry(Social, "Facebook")),
    ("fbcdn.net", CatalogEntry(Social, "Facebook CDN")),
    ("twitter.com", CatalogEntry(Social, "Twitter Analytics")),
    ("linkedin.com", CatalogEntry(Social, "LinkedIn Insights")),
    ("instagram.com", CatalogEntry(Social, "Instagram")),
    ("pinterest.com", CatalogEntry(Social, "Pinterest Analytics"))
  ]

  /** Marketing and retargeting (plugin/trackers.js lines 36 to 40). */
  const GroupMarketingTools: Catalog := [
    ("mailchimp.com", CatalogEntry(Marketing, "MailChimp")),
    ("hubspot.com", CatalogEntry(Marketing, "HubSpot")),
    ("salesforce.com", CatalogEntry(Marketing, "Salesforce")),
    ("marketo.com", CatalogEntry(Marketing, "Marketo")),
    ("pardot.com", CatalogEntry(Marketing, "Pardot"))
  ]

  /** Content delivery networks that may track (plugin/trackers.js lines 43 to 45). */
  const GroupCdns: Catalog := [
    ("cloudflare.com", CatalogEntry(Cdn, "Cloudflare")),
    ("amazonaws.com", CatalogEntry(Cdn, "Amazon S3")),
    ("googleusercontent.com", CatalogEntry(Cdn, "Google CDN"))
  ]

  /** Specialised analytics (plugin/trackers.js lines 48 to 51). */
  const GroupSpecialisedAnalytics: Catalog := [
    ("newrelic.com", CatalogEntry(Analytics, "New Relic")),
    ("datadog.com", CatalogEntry(Analytics, "Datadog")),
    ("bugsnag.com", CatalogEntry(Analytics, "Bugsnag")),
    ("sentry.io", CatalogEntry(Analytics, "Sentry"))
  ]

  /** Common Brazilian sites (plugin/trackers.js lines 54 to 58). */
  const GroupBrazilian: Catalog := [
    ("uol.com.br", CatalogEntry(Analytics, "UOL Analytics")),
    ("globo.com", CatalogEntry(Analytics, "Globo Analytics")),
    ("terra.com.br", CatalogEntry(Analytics, "Terra Analytics")),
    ("mercadolivre.com.br", CatalogEntry(Analytics, "MercadoLivre Analytics")),
    ("netshoes.com.br", CatalogEntry(Analytics, "Netshoes Analytics"))
  ]

  /** Other known trackers (plugin/trackers.js lines 61 to 65). */
  const GroupOtherTrackers: Catalog := [
    ("quantserve.com", CatalogEntry(Analytics, "Quantcast")),
    ("scorecardresearch.com", CatalogEntry(Analytics, "ScoreCard Research")),
    ("nielsen.com", CatalogEntry(Analytics, "Nielsen")),
    ("comscore.com", CatalogEntry(Analytics, "ComScore")),
    ("chartbeat.com", CatalogEntry(Analytics, "Chartbeat"))
  ]
}
