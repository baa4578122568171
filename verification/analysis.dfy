/** analyzeConnections: the observed hostnames of a page split into tracker
    and normal records, with a counter per category. */
module ConnectionAnalysis {
  import opened TrackerCatalog
  import opened Trackers

  /** The object analyzeConnections returns. The `byCategory` counters are
      keyed by category; the property name of each is its `CategoryId`. */
  datatype Analysis = Analysis(trackers: seq<JsObject>, normal: seq<JsObject>, byCategory: map<Category, int>)

  /** Every category. */
  const AllCategories: set<Category> := {Ads, Analytics, Social, Marketing, Cdn, Unknown}

  /** `AllCategories` holds every category. */
  lemma EveryCategory(c: Category)
    ensures c in AllCategories
  {
    match c
    case Ads =>
    case Analytics =>
    case Social =>
    case Marketing =>
    case Cdn =>
    case Unknown =>
  }

  /** The counters' starting value: every category at zero. */
  const ZeroCounts: map<Category, int> :=
    map[Ads := 0, Analytics := 0, Social := 0, Marketing := 0, Cdn := 0, Unknown := 0]

  /** The fields of a classifier record that the analysis reads. */
  lemma CategoryRecordFields(c: Category)
    ensures "isTracker" in CategoryRecord(c) && CategoryRecord(c)["isTracker"] == JsBool(c != Unknown)
    ensures "category" in CategoryRecord(c) && CategoryRecord(c)["category"] == JsString(CategoryId(c))
    ensures "domain" !in CategoryRecord(c)
  {
    var style := CategoryStyle(c);
    assert "isTracker" !in style && "category" !in style && "domain" !in style;
  }

  /** `{ domain, ...analysis }`: the classifier record of `domain`, carrying
      the domain itself as well. */
  function Entry(db: Catalog, domain: string): (r: JsObject)
    ensures "domain" in r && r["domain"] == JsString(domain)
    ensures "isTracker" in r && r["isTracker"] == JsBool(Classification(db, domain) != Unknown)
    ensures "category" in r && r["category"] == JsString(CategoryId(Classification(db, domain)))
  {
    CategoryRecordFields(Classification(db, domain));
    map["domain" := JsString(domain)] + IdentifyIn(db, domain)
  }

  /** The classifier record's tracker flag, and the entry built from it. */
  lemma IdentifyFields(db: Catalog, domain: string)
    ensures "isTracker" in IdentifyIn(db, domain)
    ensures IdentifyIn(db, domain)["isTracker"] == JsBool(Classification(db, domain) != Unknown)
    ensures map["domain" := JsString(domain)] + IdentifyIn(db, domain) == Entry(db, domain)
  {
    CategoryRecordFields(Classification(db, domain));
  }

  /** The entries of a list of domains, one per domain, in order. */
  function Entries(db: Catalog, ds: seq<string>): (r: seq<JsObject>)
    ensures |r| == |ds|
    ensures forall i :: 0 <= i < |ds| ==> r[i] == Entry(db, ds[i])
  {
    seq(|ds|, i requires 0 <= i < |ds| => Entry(db, ds[i]))
  }

  /** Reference definition: the domains of `ds`, in input order, that the
      catalog classifies under `c`. */
  function Classified(db: Catalog, ds: seq<string>, c: Category): (r: seq<string>)
    ensures |r| <= |ds|
    ensures forall i :: 0 <= i < |r| ==> r[i] in ds && Classification(db, r[i]) == c
  {
    if |ds| == 0 then []
    else
      var init := Classified(db, ds[..|ds| - 1], c);
      if Classification(db, ds[|ds| - 1]) == c then init + [ds[|ds| - 1]] else init
  }

  /** Reference definition: the domains of `ds`, in input order, that the
      catalog classifies as trackers. */
  function TrackerDomains(db: Catalog, ds: seq<string>): (r: seq<string>)
    ensures |r| <= |ds|
    ensures forall i :: 0 <= i < |r| ==> r[i] in ds && Classification(db, r[i]) != Unknown
  {
    if |ds| == 0 then []
    else
      var init := TrackerDomains(db, ds[..|ds| - 1]);
      if Classification(db, ds[|ds| - 1]) != Unknown then init + [ds[|ds| - 1]] else init
  }

  /** Reference definition of the counters: each category mapped to the
      number of domains classified under it. */
  function Counts(db: Catalog, ds: seq<string>): (r: map<Category, int>)
    ensures r.Keys == AllCategories
    ensures forall c :: c in r && r[c] == |Classified(db, ds, c)|
  {
    forall c ensures c in AllCategories { EveryCategory(c); }
    map c | c in AllCategories :: |Classified(db, ds, c)|
  }

  /** One more domain extends a list's entries by its own entry. */
  lemma EntriesAppend(db: Catalog, ds: seq<string>, d: string)
    ensures Entries(db, ds + [d]) == Entries(db, ds) + [Entry(db, d)]
  {
  }

  /** One more domain at the end of the input joins the end of the tracker
      list exactly when it is classified as a tracker. */
  lemma TrackerDomainsAppend(db: Catalog, ds: seq<string>, d: string)
    ensures TrackerDomains(db, ds + [d]) ==
      if Classification(db, d) != Unknown then TrackerDomains(db, ds) + [d] else TrackerDomains(db, ds)
  {
    assert (ds + [d])[..|ds|] == ds;
  }

  /** One more domain at the end of the input joins the end of the list of
      its own category and of no other. */
  lemma ClassifiedAppend(db: Catalog, ds: seq<string>, d: string, c: Category)
    ensures Classified(db, ds + [d], c) ==
      if Classification(db, d) == c then Classified(db, ds, c) + [d] else Classified(db, ds, c)
  {
    assert (ds + [d])[..|ds|] == ds;
  }

  /** Incrementing the counter of a domain's category turns the counters of
      an input into those of the input extended by that domain. */
  lemma CountsStep(db: Catalog, ds: seq<string>, d: string)
    ensures var c := Classification(db, d);
      Counts(db, ds + [d]) == Counts(db, ds)[c := Counts(db, ds)[c] + 1]
  {
    forall c | c in AllCategories
      ensures Counts(db, ds + [d])[c] == Counts(db, ds)[Classification(db, d) := Counts(db, ds)[Classification(db, d)] + 1][c]
    {
      ClassifiedAppend(db, ds, d, c);
    }
  }

  /** One more domain at the end of the input adds its entry to the end of
      the bucket its classification selects, and leaves the other alone. */
  lemma BucketsStep(db: Catalog, ds: seq<string>, d: string)
    ensures Entries(db, TrackerDomains(db, ds + [d])) ==
      if Classification(db, d) != Unknown then Entries(db, TrackerDomains(db, ds)) + [Entry(db, d)]
      else Entries(db, TrackerDomains(db, ds))
    ensures Entries(db, Classified(db, ds + [d], Unknown)) ==
      if Classification(db, d) == Unknown then Entries(db, Classified(db, ds, Unknown)) + [Entry(db, d)]
      else Entries(db, Classified(db, ds, Unknown))
  {
    TrackerDomainsAppend(db, ds, d);
    ClassifiedAppend(db, ds, d, Unknown);
    EntriesAppend(db, TrackerDomains(db, ds), d);
    EntriesAppend(db, Classified(db, ds, Unknown), d);
  }

  /** The `forEach` callback of analyzeConnections: classify one domain, file
      its entry under `trackers` or `normal` by its tracker flag, and count it
      under its category. */
  method Record(db: Catalog, r: Analysis, domain: string) returns (r': Analysis)
    requires Classification(db, domain) in r.byCategory
    ensures r'.trackers == if Classification(db, domain) != Unknown then r.trackers + [Entry(db, domain)] else r.trackers
    ensures r'.normal == if Classification(db, domain) == Unknown then r.normal + [Entry(db, domain)] else r.normal
    ensures var c := Classification(db, domain);
      r'.byCategory == r.byCategory[c := r.byCategory[c] + 1]
  {
    IdentifyFields(db, domain);
    var analysis := IdentifyIn(db, domain);
    var entry := map["domain" := JsString(domain)] + analysis;
    var category := Classification(db, domain);
    var counts := r.byCategory[category := r.byCategory[category] + 1];
    if analysis["isTracker"] == JsBool(true) {
      r' := Analysis(r.trackers + [entry], r.normal, counts);
    } else {
      r' := Analysis(r.trackers, r.normal + [entry], counts);
    }
  }

  /** Extending a prefix of a list by the list's next element. */
  lemma PrefixExtend<T>(s: seq<T>, n: nat)
    requires n < |s|
    ensures s[..n + 1] == s[..n] + [s[n]]
  {
  }

  /** The loop invariant of analyzeConnections: after the domains `done`,
      the buckets hold their entries and the counters their category sizes. */
  ghost predicate Summarises(db: Catalog, r: Analysis, done: seq<string>) {
    r.trackers == Entries(db, TrackerDomains(db, done)) &&
    r.normal == Entries(db, Classified(db, done, Unknown)) &&
    r.byCategory == Counts(db, done)
  }

  /** One callback keeps the invariant, the input extended by its domain. */
  lemma RecordKeepsSummary(db: Catalog, r: Analysis, r': Analysis, done: seq<string>, d: string)
    requires Summarises(db, r, done)
    requires r'.trackers == if Classification(db, d) != Unknown then r.trackers + [Entry(db, d)] else r.trackers
    requires r'.normal == if Classification(db, d) == Unknown then r.normal + [Entry(db, d)] else r.normal
    requires var c := Classification(db, d);
      c in r.byCategory && r'.byCategory == r.byCategory[c := r.byCategory[c] + 1]
    ensures Summarises(db, r', done + [d])
  {
    BucketsStep(db, done, d);
    assert r'.trackers == Entries(db, TrackerDomains(db, done + [d]));
    assert r'.normal == Entries(db, Classified(db, done + [d], Unknown));
    CountsStep(db, done, d);
    assert r'.byCategory == Counts(db, done + [d]);
  }

  /** analyzeConnections against a catalog: one pass over the domains in
      order, appending each domain's entry to `trackers` or `normal` and
      incrementing the counter of its category. */
  method AnalyzeIn(db: Catalog, domains: seq<string>) returns (r: Analysis)
    ensures r.trackers == Entries(db, TrackerDomains(db, domains))
    ensures r.normal == Entries(db, Classified(db, domains, Unknown))
    ensures r.byCategory == Counts(db, domains)
  {
    r := Analysis([], [], ZeroCounts);
    assert Summarises(db, r, []);
    for n := 0 to |domains|
      invariant Summarises(db, r, domains[..n])
    {
      EveryCategory(Classification(db, domains[n]));
      var r' := Record(db, r, domains[n]);
      RecordKeepsSummary(db, r, r', domains[..n], domains[n]);
      PrefixExtend(domains, n);
      r := r';
    }
    assert domains[..|domains|] == domains;
  }

  /** analyzeConnections. */
  method AnalyzeConnections(domains: seq<string>) returns (r: Analysis)
    ensures r.trackers == Entries(TrackerDatabase, TrackerDomains(TrackerDatabase, domains))
    ensures r.normal == Entries(TrackerDatabase, Classified(TrackerDatabase, domains, Unknown))
    ensures r.byCategory == Counts(TrackerDatabase, domains)
  {
    r := AnalyzeIn(TrackerDatabase, domains);
  }

  /** Every domain lands in exactly one bucket and exactly one category: the
      two buckets together, and the six category lists together, account for
      every domain. */
  lemma {:induction false} ClassifiedPartition(db: Catalog, ds: seq<string>)
    ensures |TrackerDomains(db, ds)| + |Classified(db, ds, Unknown)| == |ds|
    ensures |Classified(db, ds, Ads)| + |Classified(db, ds, Analytics)| + |Classified(db, ds, Social)|
      + |Classified(db, ds, Marketing)| + |Classified(db, ds, Cdn)| + |Classified(db, ds, Unknown)| == |ds|
  {
    if |ds| > 0 {
      ClassifiedPartition(db, ds[..|ds| - 1]);
    }
  }

  /** The totals of analyzeConnections' result: the two buckets together,
      and the six counters together, account for every domain, and the
      `unknown` counter is the size of the `normal` bucket. */
  lemma AnalysisTotals(db: Catalog, ds: seq<string>)
    ensures |Entries(db, TrackerDomains(db, ds))| + |Entries(db, Classified(db, ds, Unknown))| == |ds|
    ensures var n := Counts(db, ds);
      n[Ads] + n[Analytics] + n[Social] + n[Marketing] + n[Cdn] + n[Unknown] == |ds|
    ensures Counts(db, ds)[Unknown] == |Entries(db, Classified(db, ds, Unknown))|
  {
    ClassifiedPartition(db, ds);
  }
}
