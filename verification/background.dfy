/** The background script's per-tab records (`dadosAbas`): the listeners that
    fill them and the report the popup receives. Each listener is one atomic
    transition of the store; the browser's events, the cookie jar and the
    content script's answer are parameters. */
module Background {
  import opened Results
  import opened Strings
  import opened InsertionSets
  import PrivacyScore

  type TabId = int

  /** A tab record. A field is `None` when the path that created the record
      never wrote it: the request listener writes all four, the header and
      cookie paths start from an empty object `{}`. */
  datatype TabRecord = TabRecord(
    domains: Option<seq<string>>,
    etag: Option<bool>,
    firstParty: Option<nat>,
    thirdParty: Option<nat>)

  /** The record the request listener creates. */
  const FreshRecord := TabRecord(Some([]), Some(false), Some(0), Some(0))

  /** The empty object `{}` the header and cookie paths create. */
  const EmptyRecord := TabRecord(None, None, None, None)

  /** `dadosAbas`. */
  type Store = map<TabId, TabRecord>

  /** Why a listener throws: `new URL` rejects the address, or `.add` is
      called on a record that has no domain set. */
  datatype ListenerError = InvalidUrl | AddOnUndefined

  /** The record a tab has, or none. */
  function RecordOf(store: Store, tab: TabId): Option<TabRecord> {
    if tab in store then Some(store[tab]) else None
  }

  /** Every domain set in the store is free of duplicates. */
  ghost predicate DistinctDomains(store: Store) {
    forall t :: t in store && store[t].domains.Some? ==> Distinct(store[t].domains.value)
  }

  /** Only `tab`'s record may differ between `store` and `r`. */
  ghost predicate OthersUnchanged(store: Store, r: Store, tab: TabId) {
    forall t :: t != tab ==> (t in r <==> t in store) && (t in store ==> r[t] == store[t])
  }

  // ---------------------------------------------------------------------
  // onBeforeRequest
  // ---------------------------------------------------------------------

  /** The request listener as written: the record is created only when the
      tab has none, so a record made by another path keeps lacking its domain
      set and the insertion throws. `host` is `None` when the URL does not
      parse. */
  function OnRequestAsWritten(store: Store, tab: TabId, host: Option<string>): (r: Result<Store, ListenerError>)
    ensures host.None? ==> r == Failure(InvalidUrl)
    ensures host.Some? ==> (r == Failure(AddOnUndefined) <==> tab in store && store[tab].domains.None?)
    ensures r.Success? ==> (tab in r.value && r.value[tab].domains.Some?
      && host.value in r.value[tab].domains.value && OthersUnchanged(store, r.value, tab))
  {
    match host
    case None => Failure(InvalidUrl)
    case Some(h) =>
      var rec := if tab in store then store[tab] else FreshRecord;
      match rec.domains
      case None => Failure(AddOnUndefined)
      case Some(ds) => Success(store[tab := rec.(domains := Some(Add(ds, h)))])
  }

  /** The request listener with the evidently intended initialisation: a
      record without a domain set gets an empty one before the insertion, so
      only an unparseable URL makes it throw. A new record is the full fresh
      record; an existing one keeps its other fields. */
  function OnRequest(store: Store, tab: TabId, host: Option<string>): (r: Result<Store, ListenerError>)
    ensures r.Failure? <==> host.None?
    ensures r.Success? ==> tab in r.value && r.value[tab].domains.Some?
    ensures r.Success? ==> var ds := r.value[tab].domains.value;
      Elements(ds) == Elements(DomainsOf(RecordOf(store, tab))) + {host.value}
      && (Distinct(DomainsOf(RecordOf(store, tab))) ==> Distinct(ds))
      && (host.value in DomainsOf(RecordOf(store, tab)) ==> ds == DomainsOf(RecordOf(store, tab)))
    ensures r.Success? && tab in store ==>
      r.value[tab].(domains := None) == store[tab].(domains := None)
    ensures r.Success? && tab !in store ==> r.value[tab] == FreshRecord.(domains := Some([host.value]))
    ensures r.Success? ==> OthersUnchanged(store, r.value, tab)
  {
    match host
    case None => Failure(InvalidUrl)
    case Some(h) =>
      var rec := if tab in store then store[tab] else FreshRecord;
      assert [] + [h] == [h];
      Success(store[tab := rec.(domains := Some(Add(DomainsOf(Some(rec)), h)))])
  }

  /** The domain set of a record, empty when there is no record or no set. */
  function DomainsOf(rec: Option<TabRecord>): (r: seq<string>)
    ensures rec.Some? && rec.value.domains.Some? ==> r == rec.value.domains.value
    ensures rec.None? || rec.value.domains.None? ==> r == []
  {
    if rec.Some? && rec.value.domains.Some? then rec.value.domains.value else []
  }

  /** Whenever the listener as written succeeds, the corrected one does the
      same; they differ only where the original throws. */
  lemma RequestFixAgrees(store: Store, tab: TabId, host: Option<string>)
    ensures OnRequestAsWritten(store, tab, host).Success? ==>
      OnRequest(store, tab, host) == OnRequestAsWritten(store, tab, host)
    ensures OnRequestAsWritten(store, tab, host) == Failure(AddOnUndefined) ==> OnRequest(store, tab, host).Success?
  {
  }

  // ---------------------------------------------------------------------
  // onHeadersReceived
  // ---------------------------------------------------------------------

  /** A response header. */
  datatype Header = Header(name: string, value: string)

  /** A header name that lower-cases to `etag`. */
  predicate IsEtagName(name: string) {
    Lower(name) == "etag"
  }

  /** `headers.find(...)`: the first ETag header. */
  function FindEtag(headers: seq<Header>): (r: Option<Header>)
    ensures r.Some? <==> exists i :: 0 <= i < |headers| && IsEtagName(headers[i].name)
    ensures r.Some? ==> r.value in headers && IsEtagName(r.value.name)
    ensures r.Some? && IsEtagName(headers[0].name) ==> r.value == headers[0]
    ensures r.Some? ==>
      exists i :: 0 <= i < |headers| && headers[i] == r.value && forall j :: 0 <= j < i ==> !IsEtagName(headers[j].name)
  {
    if |headers| == 0 then None
    else if IsEtagName(headers[0].name) then Some(headers[0])
    else
      var r := FindEtag(headers[1..]);
      assert forall i :: 0 < i < |headers| ==> headers[i] == headers[1..][i - 1];
      assert r.Some? ==>
        exists i :: 0 <= i < |headers| && headers[i] == r.value && forall j :: 0 <= j < i ==> !IsEtagName(headers[j].name)
      by {
        if r.Some? {
          var k :| 0 <= k < |headers[1..]| && headers[1..][k] == r.value &&
            forall j :: 0 <= j < k ==> !IsEtagName(headers[1..][j].name);
          assert headers[k + 1] == r.value;
          assert forall j :: 0 <= j < k + 1 ==> !IsEtagName(headers[j].name);
        }
      }
      r
  }

  /** The header listener: an ETag header sets the tab's flag, creating an
      empty record if the tab has none; any other response changes nothing. */
  function OnHeaders(store: Store, tab: TabId, headers: seq<Header>): (r: Store)
    ensures (exists i :: 0 <= i < |headers| && IsEtagName(headers[i].name)) ==>
      tab in r && r[tab].etag == Some(true)
      && r[tab].(etag := None) == (if tab in store then store[tab] else EmptyRecord).(etag := None)
    ensures (forall i :: 0 <= i < |headers| ==> !IsEtagName(headers[i].name)) ==> r == store
    ensures OthersUnchanged(store, r, tab)
  {
    if FindEtag(headers).Some? then
      var rec := if tab in store then store[tab] else EmptyRecord;
      store[tab := rec.(etag := Some(true))]
    else store
  }

  // ---------------------------------------------------------------------
  // detectarCookies
  // ---------------------------------------------------------------------

  /** A cookie of the jar; only its `domain` is read. */
  datatype Cookie = Cookie(domain: string)

  /** The first-party test: the cookie's domain contains the page host. */
  predicate FirstParty(c: Cookie, host: string) {
    Includes(c.domain, host)
  }

  /** Reference definition: the first-party cookies, in order. */
  function FirstPartyCookies(cookies: seq<Cookie>, host: string): (r: seq<Cookie>)
    ensures |r| <= |cookies|
    ensures forall c :: c in r <==> c in cookies && FirstParty(c, host)
  {
    if |cookies| == 0 then []
    else
      var rest := FirstPartyCookies(cookies[..|cookies| - 1], host);
      var c := cookies[|cookies| - 1];
      assert forall x :: x in cookies <==> x in cookies[..|cookies| - 1] || x == c by {
        assert cookies == cookies[..|cookies| - 1] + [c];
      }
      if FirstParty(c, host) then rest + [c] else rest
  }

  /** The `forEach` that partitions the cookies: one count per side, every
      cookie counted exactly once. */
  method PartitionCookies(cookies: seq<Cookie>, host: string) returns (first: nat, third: nat)
    ensures first == |FirstPartyCookies(cookies, host)|
    ensures first + third == |cookies|
  {
    first, third := 0, 0;
    for n := 0 to |cookies|
      invariant first == |FirstPartyCookies(cookies[..n], host)|
      invariant first + third == n
    {
      assert cookies[..n + 1][..n] == cookies[..n];
      if FirstParty(cookies[n], host) {
        first := first + 1;
      } else {
        third := third + 1;
      }
    }
    assert cookies[..|cookies|] == cookies;
  }

  /** What detectarCookies resolves to. */
  datatype CookieCounts = CookieCounts(firstParty: nat, thirdParty: nat)

  /** detectarCookies. `host` is `None` when the page URL does not parse and
      `cookies` is `None` when the cookie jar rejects; either failure is
      caught, answers 0/0 and leaves the store alone. Otherwise the counts
      overwrite the tab's (creating an empty record if needed), whatever
      they were before. */
  method DetectCookies(store: Store, tab: TabId, host: Option<string>, cookies: Option<seq<Cookie>>)
    returns (r: Store, counts: CookieCounts)
    ensures host.None? || cookies.None? ==> r == store && counts == CookieCounts(0, 0)
    ensures host.Some? && cookies.Some? ==>
      counts.firstParty == |FirstPartyCookies(cookies.value, host.value)|
      && counts.firstParty + counts.thirdParty == |cookies.value|
      && tab in r && r[tab].firstParty == Some(counts.firstParty) && r[tab].thirdParty == Some(counts.thirdParty)
      && r[tab].domains == (if tab in store then store[tab].domains else None)
      && r[tab].etag == (if tab in store then store[tab].etag else None)
    ensures OthersUnchanged(store, r, tab)
    ensures r == Apply(store, Cookies(tab, host, cookies))
  {
    if host.None? || cookies.None? {
      return store, CookieCounts(0, 0);
    }
    var first, third := PartitionCookies(cookies.value, host.value);
    var rec := if tab in store then store[tab] else EmptyRecord;
    r := store[tab := rec.(firstParty := Some(first), thirdParty := Some(third))];
    counts := CookieCounts(first, third);
  }

  // ---------------------------------------------------------------------
  // onRemoved
  // ---------------------------------------------------------------------

  /** The removal listener: the tab's record is deleted. */
  function TabRemoved(store: Store, tab: TabId): (r: Store)
    ensures tab !in r
    ensures OthersUnchanged(store, r, tab)
  {
    map t | t in store && t != tab :: store[t]
  }

  // ---------------------------------------------------------------------
  // The store over a sequence of events
  // ---------------------------------------------------------------------

  /** The listeners' events. A cookie event carries the jar's answer. */
  datatype Event =
    | Request(tab: TabId, host: Option<string>)
    | Headers(tab: TabId, headers: seq<Header>)
    | Cookies(tab: TabId, pageHost: Option<string>, jar: Option<seq<Cookie>>)
    | Removed(tab: TabId)

  /** The store after one event, using the corrected request listener; a
      listener that throws leaves the store as it was. */
  function Apply(store: Store, e: Event): (r: Store)
    ensures e.Removed? ==> e.tab !in r
    ensures OthersUnchanged(store, r, e.tab)
  {
    match e
    case Request(tab, host) =>
      var o := OnRequest(store, tab, host);
      if o.Success? then o.value else store
    case Headers(tab, headers) => OnHeaders(store, tab, headers)
    case Cookies(tab, pageHost, jar) =>
      if pageHost.None? || jar.None? then store
      else
        var rec := if tab in store then store[tab] else EmptyRecord;
        var first := |FirstPartyCookies(jar.value, pageHost.value)|;
        store[tab := rec.(firstParty := Some(first), thirdParty := Some(|jar.value| - first))]
    case Removed(tab) => TabRemoved(store, tab)
  }

  /** The store after one event with the request listener as written: a
      request for a tab whose record has no domain set throws, and the store
      stays as it was. The other listeners are as in Apply. */
  function ApplyAsWritten(store: Store, e: Event): (r: Store)
    ensures e.Request? && e.host.Some? && e.tab in store && store[e.tab].domains.None? ==> r == store
    ensures e.Removed? ==> e.tab !in r
    ensures OthersUnchanged(store, r, e.tab)
  {
    match e
    case Request(tab, host) =>
      var o := OnRequestAsWritten(store, tab, host);
      if o.Success? then o.value else store
    case _ => Apply(store, e)
  }

  /** The two versions of an event differ only on a request for a tab whose
      record lacks a domain set, which the version as written drops. */
  lemma ApplyFixAgrees(store: Store, e: Event)
    ensures ApplyAsWritten(store, e) != Apply(store, e) ==>
      e.Request? && e.host.Some? && e.tab in store && store[e.tab].domains.None?
      && ApplyAsWritten(store, e) == store
  {
    if e.Request? {
      RequestFixAgrees(store, e.tab, e.host);
    }
  }

  /** Every tab that has a record was the subject of an event that is not its
      removal. */
  ghost predicate Touched(events: seq<Event>, r: Store) {
    forall t :: t in r ==> exists i :: 0 <= i < |events| && events[i].tab == t && !events[i].Removed?
  }

  /** One more event keeps every recorded tab accounted for. */
  lemma TouchedStep(events: seq<Event>, prev: Store, r: Store)
    requires |events| > 0
    requires Touched(events[..|events| - 1], prev)
    requires OthersUnchanged(prev, r, events[|events| - 1].tab)
    requires events[|events| - 1].Removed? ==> events[|events| - 1].tab !in r
    ensures Touched(events, r)
  {
    var n := |events| - 1;
    forall t | t in r ensures exists i :: 0 <= i < |events| && events[i].tab == t && !events[i].Removed? {
      if t == events[n].tab {
        assert events[n].tab == t && !events[n].Removed?;
      } else {
        assert t in prev;
        var i :| 0 <= i < n && events[..n][i].tab == t && !events[..n][i].Removed?;
        assert events[i] == events[..n][i];
      }
    }
  }

  /** The store after a run of events, from the empty store. */
  function Run(events: seq<Event>): (r: Store)
    ensures Touched(events, r)
    decreases |events|
  {
    if |events| == 0 then map[]
    else
      var prev := Run(events[..|events| - 1]);
      TouchedStep(events, prev, Apply(prev, events[|events| - 1]));
      Apply(prev, events[|events| - 1])
  }

  /** The store after a run of events with the request listener as written. */
  function RunAsWritten(events: seq<Event>): (r: Store)
    ensures Touched(events, r)
    decreases |events|
  {
    if |events| == 0 then map[]
    else
      var prev := RunAsWritten(events[..|events| - 1]);
      TouchedStep(events, prev, ApplyAsWritten(prev, events[|events| - 1]));
      ApplyAsWritten(prev, events[|events| - 1])
  }

  /** A response with an ETag before the tab's first request: as written,
      the request throws and the host is never recorded; corrected, it is. */
  lemma RunsDiffer()
    ensures var events := [Headers(7, [Header("ETag", "\"v1\"")]), Request(7, Some("cdn.example.com"))];
      7 in RunAsWritten(events) && RunAsWritten(events)[7].domains == None
      && 7 in Run(events) && Run(events)[7].domains == Some(["cdn.example.com"])
  {
    var events := [Headers(7, [Header("ETag", "\"v1\"")]), Request(7, Some("cdn.example.com"))];
    assert Lower("ETag") == "etag";
    assert events[..1] == [events[0]];
    assert [events[0]][..0] == [];
    var afterHeaders := map[7 := EmptyRecord.(etag := Some(true))];
    assert Run([events[0]]) == afterHeaders;
    assert RunAsWritten([events[0]]) == afterHeaders;
    assert [] + ["cdn.example.com"] == ["cdn.example.com"];
  }

  /** Every event keeps the domain sets free of duplicates. */
  lemma ApplyKeepsDistinct(store: Store, e: Event)
    requires DistinctDomains(store)
    ensures DistinctDomains(Apply(store, e))
  {
    var r := Apply(store, e);
    forall t | t in r && r[t].domains.Some? ensures Distinct(r[t].domains.value) {
      if t != e.tab {
        assert r[t] == store[t];
      } else if e.Request? && e.host.Some? {
        assert Distinct(DomainsOf(RecordOf(store, t)));
      } else {
        assert t in store && r[t].domains == store[t].domains;
      }
    }
  }

  /** Once a tab's ETag flag is set, nothing but closing the tab clears it. */
  lemma EtagIsSticky(store: Store, e: Event, tab: TabId)
    requires tab in store && store[tab].etag == Some(true)
    requires !(e.Removed? && e.tab == tab)
    ensures tab in Apply(store, e) && Apply(store, e)[tab].etag == Some(true)
  {
  }

  /** The version as written keeps the domain sets free of duplicates too. */
  lemma ApplyAsWrittenKeepsDistinct(store: Store, e: Event)
    requires DistinctDomains(store)
    ensures DistinctDomains(ApplyAsWritten(store, e))
  {
    ApplyFixAgrees(store, e);
    ApplyKeepsDistinct(store, e);
  }

  /** As written too, nothing but closing the tab clears its ETag flag. */
  lemma EtagIsStickyAsWritten(store: Store, e: Event, tab: TabId)
    requires tab in store && store[tab].etag == Some(true)
    requires !(e.Removed? && e.tab == tab)
    ensures tab in ApplyAsWritten(store, e) && ApplyAsWritten(store, e)[tab].etag == Some(true)
  {
    ApplyFixAgrees(store, e);
    EtagIsSticky(store, e, tab);
  }

  /** Over any run of events, as written, every domain set is free of
      duplicates. */
  lemma {:induction false} RunAsWrittenKeepsDistinct(events: seq<Event>)
    ensures DistinctDomains(RunAsWritten(events))
    decreases |events|
  {
    if |events| > 0 {
      RunAsWrittenKeepsDistinct(events[..|events| - 1]);
      ApplyAsWrittenKeepsDistinct(RunAsWritten(events[..|events| - 1]), events[|events| - 1]);
    }
  }

  /** Over any run of events, every domain set is free of duplicates. */
  lemma {:induction false} RunKeepsDistinct(events: seq<Event>)
    ensures DistinctDomains(Run(events))
    decreases |events|
  {
    if |events| > 0 {
      RunKeepsDistinct(events[..|events| - 1]);
      ApplyKeepsDistinct(Run(events[..|events| - 1]), events[|events| - 1]);
    }
  }

  // ---------------------------------------------------------------------
  // getReport
  // ---------------------------------------------------------------------

  /** The content script's answer. Its fields are read with `?.` and `||
      false`, so a missing answer reads as all false. */
  datatype ProbeData = ProbeData(hijacking: bool, localStorage: bool, indexedDB: bool, serviceWorker: bool, canvasFingerprint: bool)

  /** How the content script's message went: it answered (possibly with
      nothing), or the message failed. */
  datatype Probe = Replied(data: Option<ProbeData>) | Unreachable

  /** `supercookiesDetalhes`. */
  datatype SupercookieDetails = SupercookieDetails(etag: bool, indexedDB: bool, serviceWorker: bool)

  /** `dadosCompletos`, the object sent to the popup. */
  datatype Report = Report(
    connections: nat,
    connectionList: seq<string>,
    hijacking: bool,
    localStorage: bool,
    firstPartyCookies: nat,
    thirdPartyCookies: nat,
    supercookies: bool,
    supercookieDetails: SupercookieDetails,
    canvasFingerprint: bool,
    etag: bool,
    indexedDB: bool,
    serviceWorker: bool)

  /** The content script's answer as the report reads it: every field
      false when it did not answer. */
  function Answer(probe: Probe): (d: ProbeData)
    ensures probe.Replied? && probe.data.Some? ==> d == probe.data.value
    ensures probe.Unreachable? || probe.data.None? ==> !d.hijacking && !d.localStorage && !d.indexedDB && !d.serviceWorker && !d.canvasFingerprint
  {
    if probe.Replied? && probe.data.Some? then probe.data.value else ProbeData(false, false, false, false, false)
  }

  /** The getReport handler for the active tab. Both branches of the content
      message build the same object; the failure branch is the answered
      branch with every page-probe field false. */
  function GetReport(store: Store, tab: TabId, probe: Probe): (r: Report)
    ensures r.connections == |r.connectionList|
    ensures Elements(r.connectionList) == Elements(DomainsOf(RecordOf(store, tab)))
    ensures r.firstPartyCookies == (if tab in store then store[tab].firstParty.OrElse(0) else 0)
    ensures r.thirdPartyCookies == (if tab in store then store[tab].thirdParty.OrElse(0) else 0)
    ensures r.etag <==> tab in store && store[tab].etag == Some(true)
    ensures r.indexedDB <==> probe.Replied? && probe.data.Some? && probe.data.value.indexedDB
    ensures r.serviceWorker <==> probe.Replied? && probe.data.Some? && probe.data.value.serviceWorker
    ensures r.supercookies <==> r.etag || r.indexedDB || r.serviceWorker
    ensures r.supercookieDetails == SupercookieDetails(r.etag, r.indexedDB, r.serviceWorker)
    ensures r.hijacking <==> probe.Replied? && probe.data.Some? && probe.data.value.hijacking
    ensures r.localStorage <==> probe.Replied? && probe.data.Some? && probe.data.value.localStorage
    ensures r.canvasFingerprint <==> probe.Replied? && probe.data.Some? && probe.data.value.canvasFingerprint
  {
    var rec := if tab in store then store[tab] else EmptyRecord;
    var list := DomainsOf(Some(rec));
    var etag := rec.etag.OrElse(false);
    var page := Answer(probe);
    Report(|list|, list, page.hijacking, page.localStorage,
      rec.firstParty.OrElse(0), rec.thirdParty.OrElse(0),
      etag || page.indexedDB || page.serviceWorker,
      SupercookieDetails(etag, page.indexedDB, page.serviceWorker),
      page.canvasFingerprint, etag, page.indexedDB, page.serviceWorker)
  }

  /** A failed content message reports what an empty answer reports. */
  lemma UnreachableIsEmptyAnswer(store: Store, tab: TabId)
    ensures GetReport(store, tab, Unreachable) == GetReport(store, tab, Replied(None))
  {
  }

  /** The reported connection count is the number of distinct hosts seen. */
  lemma ConnectionCountIsDistinctHosts(store: Store, tab: TabId, probe: Probe)
    requires DistinctDomains(store)
    ensures GetReport(store, tab, probe).connections == |Elements(DomainsOf(RecordOf(store, tab)))|
  {
    DistinctCardinality(DomainsOf(RecordOf(store, tab)));
  }

  /** After a tab is closed its report holds only defaults. */
  lemma RemovedTabReportsDefaults(store: Store, tab: TabId, probe: Probe)
    ensures var r := GetReport(TabRemoved(store, tab), tab, probe);
      r.connections == 0 && r.connectionList == [] && r.firstPartyCookies == 0
      && r.thirdPartyCookies == 0 && !r.etag
  {
  }

  /** `contarSupercookies`: how many of the three supercookie kinds are set. */
  function SupercookieCount(d: SupercookieDetails): (n: nat)
    ensures n <= 3
    ensures n == 0 <==> !d.etag && !d.indexedDB && !d.serviceWorker
  {
    (if d.etag then 1 else 0) + (if d.indexedDB then 1 else 0) + (if d.serviceWorker then 1 else 0)
  }

  /** The popup shows a supercookie count above zero exactly when the report
      flags supercookies. */
  lemma SupercookieCountAgrees(store: Store, tab: TabId, probe: Probe)
    ensures var r := GetReport(store, tab, probe);
      SupercookieCount(r.supercookieDetails) > 0 <==> r.supercookies
  {
  }

  /** The fields of the report calcularPontuacao reads, under the same names. */
  function ToScoreInput(r: Report): (s: PrivacyScore.ScoreInput)
    ensures s.connections == r.connections && s.firstPartyCookies == r.firstPartyCookies
    ensures s.thirdPartyCookies == r.thirdPartyCookies
    ensures s.etag == r.etag && s.indexedDB == r.indexedDB && s.serviceWorker == r.serviceWorker
    ensures s.localStorage == r.localStorage && s.canvasFingerprint == r.canvasFingerprint && s.hijacking == r.hijacking
  {
    PrivacyScore.ScoreInput(r.connections, r.firstPartyCookies, r.thirdPartyCookies,
      r.localStorage, r.indexedDB, r.serviceWorker, r.etag, r.canvasFingerprint, r.hijacking)
  }

  /** A tab nothing was recorded for, whose page does not answer, scores 0,
      `Excelente`. */
  lemma UnknownTabScoresZero(log10: real -> real, store: Store, tab: TabId)
    requires PrivacyScore.Log10Like(log10)
    requires tab !in store
    ensures var s := PrivacyScore.Score(log10, ToScoreInput(GetReport(store, tab, Unreachable)));
      s.score == 0 && s.level == PrivacyScore.Excellent
  {
    var r := GetReport(store, tab, Unreachable);
    assert r.connectionList == [] && r.connections == 0;
    assert r.firstPartyCookies == 0 && r.thirdPartyCookies == 0;
    assert !r.etag && !r.indexedDB && !r.serviceWorker;
    assert !r.localStorage && !r.canvasFingerprint && !r.hijacking;
    assert ToScoreInput(r) == PrivacyScore.EmptyInput;
    PrivacyScore.EmptyInputIsExcellent(log10);
  }

  // ---------------------------------------------------------------------
  // The crash
  // ---------------------------------------------------------------------

  /** An ETag response arriving before any request of the tab leaves an
      empty record with the flag set; the tab's next request then throws in
      the listener as written, and is recorded by the corrected one. */
  lemma EtagBeforeRequestCrashes()
    ensures var s := OnHeaders(map[], 7, [Header("ETag", "\"abc\"")]);
      OnRequestAsWritten(s, 7, Some("cdn.example.com")) == Failure(AddOnUndefined)
      && OnRequest(s, 7, Some("cdn.example.com")).Success?
  {
    var s := OnHeaders(map[], 7, [Header("ETag", "\"abc\"")]);
    assert IsEtagName("ETag");
    assert s[7].domains.None?;
  }

  /** The cookie path makes the same record: after cookies are counted for a
      tab with no record, the tab's next request throws in the listener as
      written. */
  method CookiesBeforeRequestCrashes() returns (r: Result<Store, ListenerError>)
    ensures r == Failure(AddOnUndefined)
  {
    var s, counts := DetectCookies(map[], 3, Some("example.com"), Some([]));
    r := OnRequestAsWritten(s, 3, Some("example.com"));
  }
}
