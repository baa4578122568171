/** The tracker classifier: a static catalog of known tracker domains, the
    lookup that maps an observed hostname to a tracker record, and the
    analysis that splits a list of hostnames into trackers and the rest. */
module Trackers {
  import opened Results
  import opened Strings
  import opened InsertionSets
  import opened ObjectLiterals
  import opened TrackerCatalog

  /** The property name of a category, as used for `category` fields and the
      `byCategory` counters. */
  function CategoryId(c: Category): string {
    match c
    case Ads => "ads"
    case Analytics => "analytics"
    case Social => "social"
    case Marketing => "marketing"
    case Cdn => "cdn"
    case Unknown => "unknown"
  }

  /** The values a tracker record's properties take. */
  datatype JsValue = JsBool(b: bool) | JsString(s: string)

  /** A plain JavaScript object: property name to value. `a + b` on maps is
      `{ ...a, ...b }`: a property of `b` overrides the same property of `a`. */
  type JsObject = map<string, JsValue>

  /** The visual configuration of a category (TRACKER_CATEGORIES). */
  function CategoryStyle(c: Category): JsObject {
    match c
    case Ads => Style("Publicidade", "\U{1F4E2}", "#e53e3e", "#fed7d7", "Redes de publicidade e anúncios")
    case Analytics => Style("Analytics", "\U{1F4CA}", "#3182ce", "#bee3f8", "Ferramentas de análise e métricas")
    case Social => Style("Social", "\U{1F465}", "#805ad5", "#e9d8fd", "Redes sociais e widgets")
    case Marketing => Style("Marketing", "\U{1F4BC}", "#d69e2e", "#faf089", "Ferramentas de marketing e CRM")
    case Cdn => Style("CDN", "\U{1F310}", "#38a169", "#c6f6d5", "Redes de distribuição de conteúdo")
    case Unknown => Style("Desconhecido", "\U{2753}", "#718096", "#e2e8f0", "Origem não identificada")
  }

  function Style(name: string, icon: string, color: string, bgColor: string, description: string): JsObject {
    map["name" := JsString(name), "icon" := JsString(icon), "color" := JsString(color),
        "bgColor" := JsString(bgColor), "description" := JsString(description)]
  }

  /** A catalog value as the object literal `{ category, name }`. */
  function EntryObject(e: CatalogEntry): JsObject {
    map["category" := JsString(CategoryId(e.category)), "name" := JsString(e.name)]
  }

  /** TRACKER_DATABASE: the object that literal denotes. */
  const TrackerDatabase: Catalog := ObjectLiteral(TrackerDatabaseSource)

  /** `domain.replace(/^www\./, '')`. */
  function StripWww(domain: string): string {
    if IsPrefix("www.", domain) then domain[4..] else domain
  }

  /** The cleaned domain: a leading `www.` removed first, then lower-cased. */
  function CleanDomain(domain: string): string {
    Lower(StripWww(domain))
  }

  /** The cleaned domain has no upper-case letter, and is shorter by four
      characters exactly when the domain starts with `www.`. */
  lemma CleanDomainShape(domain: string)
    ensures |CleanDomain(domain)| == |domain| - (if IsPrefix("www.", domain) then 4 else 0)
    ensures forall i :: 0 <= i < |CleanDomain(domain)| ==> !('A' <= CleanDomain(domain)[i] <= 'Z')
  {
  }

  /** The fallback scan's test of one catalog key against the cleaned host. */
  predicate FallbackMatch(host: string, key: string) {
    Includes(host, key) || EndsWith(host, "." + key)
  }

  function FallbackTest(host: string): string -> bool {
    key => FallbackMatch(host, key)
  }

  /** The catalog entry the classifier settles on for a cleaned host: the exact
      entry if there is one, otherwise the first key in catalog order that the
      fallback test accepts, otherwise none. */
  function MatchedEntry(db: Catalog, host: string): Option<CatalogEntry> {
    match Get(db, host)
    case Some(e) => Some(e)
    case None =>
      match FirstKeyWhere(db, FallbackTest(host), 0)
      case Some(i) => Some(db[i].1)
      case None => None
  }

  /** The entry settled on, in terms of substrings: the exact entry when the
      host is a key; otherwise the entry of a key the host contains, with no
      earlier key contained; none exactly when the host contains no key. */
  lemma MatchedEntrySpec(db: Catalog, host: string)
    ensures Get(db, host).Some? ==> MatchedEntry(db, host) == Get(db, host)
    ensures Get(db, host).None? && MatchedEntry(db, host).Some? ==>
      exists i :: 0 <= i < |db| && MatchedEntry(db, host).value == db[i].1 && Includes(host, db[i].0) && FirstIncluded(db, host, i)
    ensures Get(db, host).None? && MatchedEntry(db, host).None? ==> forall i :: 0 <= i < |db| ==> !Includes(host, db[i].0)
  {
    FallbackScanIsIncludes(db, host);
  }

  /** No key before position `i` is a substring of the host. */
  predicate FirstIncluded(db: Catalog, host: string, i: nat) {
    forall j :: 0 <= j < i && j < |db| ==> !Includes(host, db[j].0)
  }

  /** Over a whole catalog, the fallback test is the substring test. */
  lemma FallbackScanIsIncludes(db: Catalog, host: string)
    ensures forall i :: 0 <= i < |db| ==> (FallbackTest(host)(db[i].0) <==> Includes(host, db[i].0))
  {
    forall i | 0 <= i < |db| ensures FallbackTest(host)(db[i].0) <==> Includes(host, db[i].0) {
      FallbackIsIncludes(host, db[i].0);
    }
  }

  /** The category a cleaned host is classified under. */
  function HostCategory(db: Catalog, host: string): Category {
    match MatchedEntry(db, host)
    case Some(e) => e.category
    case None => Unknown
  }

  /** The category a domain is classified under. */
  function Classification(db: Catalog, domain: string): Category {
    HostCategory(db, CleanDomain(domain))
  }

  /** The record of a classification made from its category alone. */
  function CategoryRecord(c: Category): JsObject {
    map["isTracker" := JsBool(c != Unknown), "category" := JsString(CategoryId(c))] + CategoryStyle(c)
  }

  /** A record's `isTracker` says whether its category is a known one. */
  lemma RecordIsTracker(c: Category)
    ensures CategoryRecord(c)["isTracker"] == JsBool(c != Unknown)
  {
    assert "isTracker" !in CategoryStyle(c);
  }

  /** `{ isTracker: true, ...entry, ...TRACKER_CATEGORIES[entry.category] }`. */
  function TrackerRecord(e: CatalogEntry): (r: JsObject)
    ensures r == CategoryRecord(e.category)
  {
    var style := CategoryStyle(e.category);
    assert "name" in style && "isTracker" !in style && "category" !in style;
    map["isTracker" := JsBool(true)] + EntryObject(e) + style
  }

  /** `{ isTracker: false, category: 'unknown', name: domain, ...TRACKER_CATEGORIES['unknown'] }`. */
  function UnknownRecord(domain: string): (r: JsObject)
    ensures r == CategoryRecord(Unknown)
  {
    map["isTracker" := JsBool(false), "category" := JsString("unknown"), "name" := JsString(domain)]
      + CategoryStyle(Unknown)
  }

  /** identifyTracker against a catalog. Because the category's style is spread
      last, its `name` overrides both the catalog's product name and the
      domain: the record depends on the matched category alone. */
  function IdentifyIn(db: Catalog, domain: string): (r: JsObject)
    ensures r == CategoryRecord(Classification(db, domain))
  {
    match MatchedEntry(db, CleanDomain(domain))
    case Some(e) => TrackerRecord(e)
    case None => UnknownRecord(domain)
  }

  /** identifyTracker. */
  function IdentifyTracker(domain: string): (r: JsObject)
    ensures r == CategoryRecord(Classification(TrackerDatabase, domain))
    ensures r["isTracker"] == JsBool(exists i :: 0 <= i < |TrackerDatabase| && Includes(CleanDomain(domain), TrackerDatabase[i].0))
  {
    IsTrackerIffSomeKeyIncluded(TrackerDatabase, domain);
    IdentifyIn(TrackerDatabase, domain)
  }

  /** The suffix test `host.endsWith('.' + key)` is subsumed by
      `host.includes(key)`: the fallback scan is a pure substring scan. */
  lemma FallbackIsIncludes(host: string, key: string)
    ensures FallbackMatch(host, key) <==> Includes(host, key)
  {
    if EndsWith(host, "." + key) {
      DotSuffixIncludes(host, key);
    }
  }

  /** A domain is classified as a tracker exactly when some catalog key is a
      substring of its cleaned form; otherwise it gets the `unknown` record. */
  lemma IsTrackerIffSomeKeyIncluded(db: Catalog, domain: string)
    ensures Classification(db, domain) != Unknown <==>
      exists i :: 0 <= i < |db| && Includes(CleanDomain(domain), db[i].0)
    ensures IdentifyIn(db, domain)["isTracker"] == JsBool(Classification(db, domain) != Unknown)
  {
    var host := CleanDomain(domain);
    var m := MatchedEntry(db, host);
    MatchedEntrySpec(db, host);
    assert Classification(db, domain) != Unknown <==> m.Some?;
    RecordIsTracker(Classification(db, domain));
    if Get(db, host).Some? {
      var i := GetFirst(db, host);
      IncludesSelf(host);
      assert Includes(host, db[i].0);
    }
  }

  /** When the cleaned host is not itself a key, the FIRST key in catalog order
      that it includes decides the classification, whichever later keys it
      also includes. */
  lemma FirstIncludedKeyWins(db: Catalog, domain: string, i: nat)
    requires Get(db, CleanDomain(domain)).None?
    requires i < |db| && Includes(CleanDomain(domain), db[i].0)
    requires forall j :: 0 <= j < i ==> !Includes(CleanDomain(domain), db[j].0)
    ensures MatchedEntry(db, CleanDomain(domain)) == Some(db[i].1)
    ensures Classification(db, domain) == db[i].1.category
  {
    var host := CleanDomain(domain);
    FallbackIsIncludes(host, db[i].0);
    assert FallbackTest(host)(db[i].0);
    var r := FirstKeyWhere(db, FallbackTest(host), 0);
    assert r.Some? && r.value <= i;
    FallbackIsIncludes(host, db[r.value].0);
    assert FallbackTest(host)(db[r.value].0);
  }

  /** Every key found inside a LATER key of the catalog has that later key's
      category. Then a key's own exact hit and the fallback scan over it agree
      on the category. */
  ghost predicate NestedKeysAgree(db: Catalog) {
    forall i, j :: 0 <= j < i < |db| && Includes(db[i].0, db[j].0) ==>
      db[j].1.category == db[i].1.category
  }

  /** A leading `"www."` in front of an already cleaned host does not change its
      category, provided the host is not a key or the catalog's nested keys agree. */
  lemma WwwPrefixInvisible(db: Catalog, h: string)
    requires WellFormedKeys(db)
    requires NestedKeysAgree(db) || Get(db, h).None?
    ensures HostCategory(db, "www." + h) == HostCategory(db, h)
  {
    var t := "www." + h;
    assert Get(db, t).None? by {
      assert t !in Keys(db);
    }
    forall i | 0 <= i < |db|
      ensures FallbackTest(t)(db[i].0) == FallbackTest(h)(db[i].0)
    {
      assert IsCatalogKey(db[i].0);
      FallbackIsIncludes(t, db[i].0);
      FallbackIsIncludes(h, db[i].0);
      IncludesBehindWww(h, db[i].0);
    }
    FirstKeyWhereAgree(db, FallbackTest(t), FallbackTest(h), 0);
    if Get(db, h).Some? {
      var i := GetFirst(db, h);
      IncludesSelf(h);
      FallbackIsIncludes(h, db[i].0);
      assert FallbackTest(h)(db[i].0);
      var r := FirstKeyWhere(db, FallbackTest(h), 0);
      assert r.Some? && r.value <= i;
      FallbackIsIncludes(h, db[r.value].0);
      assert FallbackTest(h)(db[r.value].0);
      assert Includes(db[i].0, db[r.value].0);
    }
  }

  /** Lower-casing a domain gives its cleaned form, or `"www."` followed by it
      when the domain started with the lower-case `"www."`. */
  lemma LowerIsCleanOrWww(d: string)
    ensures !IsPrefix("www.", d) ==> Lower(d) == CleanDomain(d)
    ensures IsPrefix("www.", d) ==> Lower(d) == "www." + CleanDomain(d)
  {
    if IsPrefix("www.", d) {
      assert d == "www." + d[4..];
      LowerAppend("www.", d[4..]);
      LowerOfLowercase("www.");
    }
  }

  /** Prefixing `"www."` does not change the record: the prefix is stripped,
      and the original spelling never reaches the output. The one case the
      concrete catalog is not shown to cover is a domain that already starts
      with `"www."` followed by an exact catalog key. */
  lemma IdentifyIgnoresWwwPrefix(db: Catalog, d: string)
    requires WellFormedKeys(db)
    ensures (NestedKeysAgree(db) || !IsPrefix("www.", d) || Get(db, CleanDomain(d)).None?) ==>
      IdentifyIn(db, "www." + d) == IdentifyIn(db, d)
  {
    var w := "www." + d;
    assert IsPrefix("www.", w) && w[4..] == d;
    assert CleanDomain(w) == Lower(d);
    LowerIsCleanOrWww(d);
    if (NestedKeysAgree(db) || Get(db, CleanDomain(d)).None?) && IsPrefix("www.", d) {
      WwwPrefixInvisible(db, CleanDomain(d));
    }
  }

  /** Upper-casing a domain does not change its record (same proviso as above:
      upper-casing turns a leading `"www."` into `"WWW."`, which is not stripped). */
  lemma IdentifyIgnoresCase(db: Catalog, d: string)
    requires WellFormedKeys(db)
    ensures (NestedKeysAgree(db) || !IsPrefix("www.", d) || Get(db, CleanDomain(d)).None?) ==>
      IdentifyIn(db, Upper(d)) == IdentifyIn(db, d)
  {
    UpperNotWww(d);
    LowerOfUpper(d);
    assert CleanDomain(Upper(d)) == Lower(d);
    LowerIsCleanOrWww(d);
    if (NestedKeysAgree(db) || Get(db, CleanDomain(d)).None?) && IsPrefix("www.", d) {
      WwwPrefixInvisible(db, CleanDomain(d));
    }
  }

  /** Key shape is kept by concatenation. */
  lemma WellFormedKeysConcat(a: Catalog, b: Catalog)
    requires WellFormedKeys(a) && WellFormedKeys(b)
    ensures WellFormedKeys(a + b)
  {
    forall i | 0 <= i < |a + b| ensures IsCatalogKey((a + b)[i].0) {
      if i >= |a| { assert (a + b)[i] == b[i - |a|]; }
    }
  }

  /** Every key of the catalog has the catalog key shape, so the lemmas above
      that ask for it apply to the catalog itself. */
  lemma TrackerDatabaseKeysWellFormed()
    ensures WellFormedKeys(TrackerDatabase)
  {
    assert WellFormedKeys(GroupAnalytics);
    assert WellFormedKeys(GroupAnalyticsMore);
    assert WellFormedKeys(GroupAdvertising);
    assert WellFormedKeys(GroupSocialMedia);
    assert WellFormedKeys(GroupMarketingTools);
    assert WellFormedKeys(GroupCdns);
    assert WellFormedKeys(GroupSpecialisedAnalytics);
    assert WellFormedKeys(GroupBrazilian);
    assert WellFormedKeys(GroupOtherTrackers);
    var acc := GroupAnalytics;
    WellFormedKeysConcat(acc, GroupAnalyticsMore);
    acc := acc + GroupAnalyticsMore;
    WellFormedKeysConcat(acc, GroupAdvertising);
    acc := acc + GroupAdvertising;
    WellFormedKeysConcat(acc, GroupSocialMedia);
    acc := acc + GroupSocialMedia;
    WellFormedKeysConcat(acc, GroupMarketingTools);
    acc := acc + GroupMarketingTools;
    WellFormedKeysConcat(acc, GroupCdns);
    acc := acc + GroupCdns;
    WellFormedKeysConcat(acc, GroupSpecialisedAnalytics);
    acc := acc + GroupSpecialisedAnalytics;
    WellFormedKeysConcat(acc, GroupBrazilian);
    acc := acc + GroupBrazilian;
    WellFormedKeysConcat(acc, GroupOtherTrackers);
    acc := acc + GroupOtherTrackers;
    assert acc == TrackerDatabaseSource;
    forall i | 0 <= i < |TrackerDatabase| ensures IsCatalogKey(TrackerDatabase[i].0) {
      var j := ObjectLiteralKeyWritten(TrackerDatabaseSource, i);
    }
  }

  /** `adsystem.com`, written three times, resolves to its last definition. */
  lemma AdsystemResolvesToLast()
    ensures Get(TrackerDatabase, "adsystem.com") == Some(CatalogEntry(Ads, "Amazon DSP"))
  {
    var k := "adsystem.com";
    assert NotWritten(GroupOtherTrackers, k) && NotWritten(GroupBrazilian, k);
    assert NotWritten(GroupSpecialisedAnalytics, k) && NotWritten(GroupCdns, k);
    assert NotWritten(GroupMarketingTools, k) && NotWritten(GroupSocialMedia, k);
    assert GroupAdvertising[6] == (k, CatalogEntry(Ads, "Amazon DSP"));
    CatalogLastValue(k);
    LastValueAt(GroupAdvertising, k, 6);
    ObjectLiteralGet(TrackerDatabaseSource, k);
  }

  /** `googlesyndication.com`, written twice, resolves to its last definition. */
  lemma GooglesyndicationResolvesToLast()
    ensures Get(TrackerDatabase, "googlesyndication.com") == Some(CatalogEntry(Ads, "Google Ads"))
  {
    var k := "googlesyndication.com";
    assert NotWritten(GroupOtherTrackers, k) && NotWritten(GroupBrazilian, k);
    assert NotWritten(GroupSpecialisedAnalytics, k) && NotWritten(GroupCdns, k);
    assert NotWritten(GroupMarketingTools, k) && NotWritten(GroupSocialMedia, k);
    assert GroupAdvertising[0] == (k, CatalogEntry(Ads, "Google Ads"));
    CatalogLastValue(k);
    LastValueAt(GroupAdvertising, k, 0);
    ObjectLiteralGet(TrackerDatabaseSource, k);
  }

  /** The last value written for `k` in the catalog literal, looked up group by
      group from the last group backwards. */
  lemma CatalogLastValue(k: string)
    ensures LastValue(TrackerDatabaseSource, k) ==
      if !NotWritten(GroupOtherTrackers, k) then LastValue(GroupOtherTrackers, k)
      else if !NotWritten(GroupBrazilian, k) then LastValue(GroupBrazilian, k)
      else if !NotWritten(GroupSpecialisedAnalytics, k) then LastValue(GroupSpecialisedAnalytics, k)
      else if !NotWritten(GroupCdns, k) then LastValue(GroupCdns, k)
      else if !NotWritten(GroupMarketingTools, k) then LastValue(GroupMarketingTools, k)
      else if !NotWritten(GroupSocialMedia, k) then LastValue(GroupSocialMedia, k)
      else if !NotWritten(GroupAdvertising, k) then LastValue(GroupAdvertising, k)
      else if !NotWritten(GroupAnalyticsMore, k) then LastValue(GroupAnalyticsMore, k)
      else LastValue(GroupAnalytics, k)
  {
    var a1 := GroupAnalytics + GroupAnalyticsMore;
    var a2 := a1 + GroupAdvertising;
    var a3 := a2 + GroupSocialMedia;
    var a4 := a3 + GroupMarketingTools;
    var a5 := a4 + GroupCdns;
    var a6 := a5 + GroupSpecialisedAnalytics;
    var a7 := a6 + GroupBrazilian;
    assert TrackerDatabaseSource == a7 + GroupOtherTrackers;
    LastValueConcat(GroupAnalytics, GroupAnalyticsMore, k);
    LastValueConcat(a1, GroupAdvertising, k);
    LastValueConcat(a2, GroupSocialMedia, k);
    LastValueConcat(a3, GroupMarketingTools, k);
    LastValueConcat(a4, GroupCdns, k);
    LastValueConcat(a5, GroupSpecialisedAnalytics, k);
    LastValueConcat(a6, GroupBrazilian, k);
    LastValueConcat(a7, GroupOtherTrackers, k);
  }

  /** No catalog key is `notbing.community`. */
  lemma NotbingIsNoKey()
    ensures Get(TrackerDatabase, "notbing.community").None?
  {
    var h := "notbing.community";
    assert NotWritten(GroupAnalytics, h);
    assert NotWritten(GroupAnalyticsMore, h);
    assert NotWritten(GroupAdvertising, h);
    assert NotWritten(GroupSocialMedia, h);
    assert NotWritten(GroupMarketingTools, h);
    assert NotWritten(GroupCdns, h);
    assert NotWritten(GroupSpecialisedAnalytics, h);
    assert NotWritten(GroupBrazilian, h);
    assert NotWritten(GroupOtherTrackers, h);
    CatalogLastValue(h);
    LastValueAbsent(GroupAnalytics, h);
    ObjectLiteralGet(TrackerDatabaseSource, h);
  }

  /** `notbing.community` contains `bing.com`. */
  lemma BingInNotbing()
    ensures Includes("notbing.community", "bing.com")
  {
    var h := "notbing.community";
    assert h[3..11] == "bing.com";
    assert OccursAt(h, "bing.com", 3);
  }

  /** `bing.com` is the first key written in the catalog literal that the
      fallback test accepts for `notbing.community`. */
  lemma NotbingFirstFallback()
    ensures TrackerDatabaseSource[15] == ("bing.com", CatalogEntry(Ads, "Microsoft Advertising"))
    ensures FallbackTest("notbing.community")(TrackerDatabaseSource[15].0)
    ensures forall j :: 0 <= j < 15 ==> !FallbackTest("notbing.community")(TrackerDatabaseSource[j].0)
  {
    var h := "notbing.community";
    var early := GroupAnalytics + GroupAnalyticsMore + GroupAdvertising;
    assert |early| == 18;
    assert forall j :: 0 <= j < 18 ==> TrackerDatabaseSource[j] == early[j];
    forall j | 0 <= j < 15
      ensures !Includes(h, early[j].0)
    {
      var k := early[j].0;
      if 'a' in k {
        NotIncludedByChar(h, k, 'a');
      } else if 'e' in k {
        NotIncludedByChar(h, k, 'e');
      }
    }
    BingInNotbing();
    forall j | 0 <= j <= 15
      ensures FallbackTest(h)(TrackerDatabaseSource[j].0) <==> Includes(h, early[j].0)
    {
      FallbackIsIncludes(h, early[j].0);
    }
  }

  /** `bing.com` is written once, as an advertising entry. */
  lemma BingIsAds()
    ensures Get(TrackerDatabase, "bing.com") == Some(CatalogEntry(Ads, "Microsoft Advertising"))
  {
    var k := "bing.com";
    assert NotWritten(GroupOtherTrackers, k) && NotWritten(GroupBrazilian, k);
    assert NotWritten(GroupSpecialisedAnalytics, k) && NotWritten(GroupCdns, k);
    assert NotWritten(GroupMarketingTools, k) && NotWritten(GroupSocialMedia, k);
    assert GroupAdvertising[4] == (k, CatalogEntry(Ads, "Microsoft Advertising"));
    CatalogLastValue(k);
    LastValueAt(GroupAdvertising, k, 4);
    ObjectLiteralGet(TrackerDatabaseSource, k);
  }

  /** `notbing.community` is already clean. */
  lemma NotbingIsClean()
    ensures CleanDomain("notbing.community") == "notbing.community"
  {
    var h := "notbing.community";
    assert !IsPrefix("www.", h) by { assert h[..4][0] == 'n'; }
    LowerOfLowercase(h);
  }

  /** `notbing.community` is classified as advertising: it is no catalog key,
      and the first key of the catalog it contains is `bing.com`. */
  lemma NotbingCommunityIsAds()
    ensures Classification(TrackerDatabase, "notbing.community") == Ads
  {
    var h := "notbing.community";
    NotbingIsClean();
    NotbingIsNoKey();
    NotbingFirstFallback();
    ObjectLiteralFirstMatch(TrackerDatabaseSource, FallbackTest(h), 15);
    var m := FirstKeyWhere(TrackerDatabase, FallbackTest(h), 0).value;
    assert TrackerDatabase[m].0 == "bing.com";
    ObjectLiteralKeys(TrackerDatabaseSource);
    GetDistinct(TrackerDatabase, m);
    BingIsAds();
    assert TrackerDatabase[m].1 == CatalogEntry(Ads, "Microsoft Advertising");
    assert MatchedEntry(TrackerDatabase, h) == Some(CatalogEntry(Ads, "Microsoft Advertising"));
  }

  /** The record for `notbing.community` is the advertising record: it is a
      tracker and, the category's style being spread last, it is named
      `Publicidade` rather than after the matched product. */
  lemma NotbingCommunityRecord()
    ensures IdentifyTracker("notbing.community")["isTracker"] == JsBool(true)
    ensures IdentifyTracker("notbing.community")["name"] == JsString("Publicidade")
  {
    NotbingCommunityIsAds();
  }
}
