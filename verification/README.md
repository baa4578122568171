# Privacy monitor extension: a Dafny model of its core

This project models the core of a browser extension that watches the
third-party traffic of each tab, classifies the hosts it sees against a
static catalog of known trackers, turns the signals it collected into a
privacy score and an itemised report, and lets the user block tracker
domains.

Modules, one per concern:

- `Results`: `Option` and `Result`.
- `Strings`: `startsWith`, `endsWith`, `includes` and ASCII case mapping over `seq<char>`.
- `InsertionSets`: a JavaScript `Set`, modelled as a duplicate-free sequence in insertion order.
- `ObjectLiterals`: the meaning of an object literal that writes a key more than once. The key keeps its first position and takes its last value, and `for ... in` walks the keys in that order.
- `TrackerCatalog`: `TRACKER_DATABASE`, exactly as written, duplicate keys included.
- `Trackers`: `identifyTracker`, covering the cleaning of the host, the exact lookup, the substring fallback scan and the record built by object spread.
- `ConnectionAnalysis`: `analyzeConnections`, covering the tracker/normal buckets and the per-category counters.
- `PrivacyScore`: `calcularPontuacao` and `gerarRelatorioDetalhado`.
- `Background`: the per-tab store `dadosAbas`. It covers the request, header, cookie and tab-removal listeners, and the `getReport` answer the popup scores.
- `Blocker`: `BlockerManager`, covering its state, its settings round trip and `shouldBlockRequest`.

`Math.log10` is a parameter of the score. It can be any function that is 0
at 1 and monotone from 1 on; nothing else about it is used. Scores are exact
reals.

Behaviour a reader might not expect:

- `analyzeConnections` neither sorts nor de-duplicates. Every listed domain is counted, once per occurrence.
- The record of an unknown domain is named `Desconhecido`, not after the domain. The category's style is spread after `name: domain` and overrides it.
- A tracker record likewise carries its category's name (for example `Publicidade`), not the catalog's product name.
- Cookie counts are overwritten by each detection, not accumulated. Two detections for one tab keep only the last.
- The background script has no storage-signal listener. The page's storage and fingerprinting flags reach the report only through the content-script answer that `getReport` requests.

## Model

| member | source | states |
|---|---|---|
| ObjectLiterals.ObjectLiteralGet | plugin/trackers.js:4-66 | looking a key up in the catalog literal yields the value of the key's last definition |
| ObjectLiterals.ObjectLiteralKeys | plugin/trackers.js:4-66 | the literal's keys, in enumeration order, are the written keys with later repeats dropped, so no key is enumerated twice |
| ObjectLiterals.DefineGet | plugin/trackers.js:4-66 | defining a property makes it read back the new value and leaves every other property's value unchanged |
| ObjectLiterals.ObjectLiteralFirstMatch | plugin/trackers.js:129-130 | the first written key accepted by a test, with no earlier written key accepted, is where the scan over the literal stops |
| ObjectLiterals.FirstKeyWhere | plugin/trackers.js:129-137 | the scan returns the first key position whose key passes the test; it returns nothing exactly when no key passes |
| Trackers.AdsystemResolvesToLast | plugin/trackers.js:12-25 | `adsystem.com`, written three times, resolves to its third value, Amazon DSP |
| Trackers.GooglesyndicationResolvesToLast | plugin/trackers.js:10-19 | `googlesyndication.com`, written twice, resolves to its second value, Google Ads |
| Trackers.BingIsAds | plugin/trackers.js:23 | `bing.com` resolves to the advertising entry Microsoft Advertising |
| Trackers.TrackerDatabaseKeysWellFormed | plugin/trackers.js:4-66 | every catalog key is non-empty and starts with neither `w` nor `.` |
| Trackers.FallbackIsIncludes | plugin/trackers.js:130 | the `endsWith('.' + key)` half of the fallback test adds nothing to its `includes(key)` half |
| Trackers.IdentifyTracker | plugin/trackers.js:115-146 | the record is the category record of the domain's classification, and `isTracker` holds exactly when some catalog key is a substring of the cleaned domain |
| Trackers.IsTrackerIffSomeKeyIncluded | plugin/trackers.js:115-146 | a domain is a tracker exactly when some catalog key is a substring of its cleaned form, and the record's `isTracker` says so |
| Trackers.FirstIncludedKeyWins | plugin/trackers.js:128-137 | when the cleaned host is no key, the first key in catalog order that it contains decides the entry and the category |
| Trackers.CleanDomainShape | plugin/trackers.js:117 | the cleaned domain has no upper-case letter and is four characters shorter exactly when the domain starts with `www.` |
| Trackers.LowerIsCleanOrWww | plugin/trackers.js:117 | the cleaned domain is the lower-cased domain, less a leading `www.` when there was one |
| Trackers.MatchedEntrySpec | plugin/trackers.js:120-137 | the exact entry when the host is a key; otherwise the entry of a key the host contains with no earlier key contained; none exactly when no key is contained |
| Trackers.TrackerRecord | plugin/trackers.js:121-125 | the record of a catalog entry is its category's record: the style's name overrides the product name |
| Trackers.UnknownRecord | plugin/trackers.js:140-145 | the record of an unknown domain is the `unknown` category's record: the style's name overrides the domain |
| Trackers.RecordIsTracker | plugin/trackers.js:121-145 | a record's `isTracker` is true exactly for a known category |
| Trackers.IdentifyIn | plugin/trackers.js:115-146 | the returned record depends on the matched category alone, since the category's style, spread last, overrides the product name and the domain |
| Trackers.WwwPrefixInvisible | plugin/trackers.js:117 | a `www.` in front of a cleaned host does not change its category, given that the host is no key or nested keys agree |
| Trackers.IdentifyIgnoresWwwPrefix | plugin/trackers.js:117 | prefixing `www.` to a domain leaves its record unchanged, under the same proviso |
| Trackers.IdentifyIgnoresCase | plugin/trackers.js:117 | upper-casing a domain leaves its record unchanged, under the same proviso |
| Trackers.NotbingIsNoKey | plugin/trackers.js:120 | `notbing.community` is not a catalog key, so the exact lookup misses |
| Trackers.NotbingFirstFallback | plugin/trackers.js:129-130 | among the written keys, `bing.com` is the first the fallback test accepts for `notbing.community` |
| Trackers.NotbingCommunityIsAds | plugin/trackers.js:115-137 | `notbing.community` is classified as advertising through the substring fallback |
| Trackers.NotbingCommunityRecord | plugin/trackers.js:69-135 | the record for `notbing.community` is a tracker named `Publicidade` |
| ConnectionAnalysis.CategoryRecordFields | plugin/trackers.js:140-145 | a classification record carries `isTracker` (true exactly for a known category) and the category id, and no `domain` |
| ConnectionAnalysis.Entry | plugin/trackers.js:166-175 | a bucket entry carries the domain, the tracker flag and the category id of the domain's classification |
| ConnectionAnalysis.IdentifyFields | plugin/trackers.js:164-175 | `{ domain, ...analysis }` is the bucket entry of that domain |
| ConnectionAnalysis.Classified | plugin/trackers.js:163-179 | reference filter: the listed domains classified under a category, each drawn from the input |
| ConnectionAnalysis.TrackerDomains | plugin/trackers.js:163-170 | reference filter: the listed domains classified as trackers, each drawn from the input |
| ConnectionAnalysis.Counts | plugin/trackers.js:150-179 | there is a counter for each of the six categories, and each equals the number of listed domains classified under that category |
| ConnectionAnalysis.Record | plugin/trackers.js:163-179 | one callback appends the domain's entry to exactly one bucket and increments exactly its category's counter |
| ConnectionAnalysis.AnalyzeIn | plugin/trackers.js:149-182 | the tracker bucket holds the entries of the tracker domains in input order, the normal bucket those of the unknown ones, and the counters are the per-category counts |
| ConnectionAnalysis.AnalyzeConnections | plugin/trackers.js:149-182 | the same, against the catalog |
| ConnectionAnalysis.ClassifiedPartition | plugin/trackers.js:163-179 | every listed domain lands in exactly one bucket and in exactly one counter |
| ConnectionAnalysis.AnalysisTotals | plugin/trackers.js:149-182 | the buckets together hold as many entries as there are domains, the six counters sum to that number, and `unknown` is the size of `normal` |
| PrivacyScore.Round | plugin/privacyScore.js:100 | the rounded score lies within half a point of the exact one |
| PrivacyScore.ConnectionPoints | plugin/privacyScore.js:13-18 | connection points lie between 0 and 25, and are 0 without connections |
| PrivacyScore.ConnectionPointsMonotone | plugin/privacyScore.js:15-17 | more connections never give fewer points |
| PrivacyScore.CookiePoints | plugin/privacyScore.js:23-30 | cookie points lie between 0 and 20, and are 0 exactly when there are no cookies |
| PrivacyScore.CookiePointsMonotone | plugin/privacyScore.js:28-30 | more cookies of either kind never give fewer points |
| PrivacyScore.StoragePoints | plugin/privacyScore.js:36-48 | storage points lie between 0 and 29, and are 0 exactly when no storage signal is set |
| PrivacyScore.StorageIsUncapped | plugin/privacyScore.js:35-48 | all four storage signals give 29 points, above the 25 the group's heading announces |
| PrivacyScore.FingerprintPoints | plugin/privacyScore.js:54-57 | 15 points exactly with canvas fingerprinting, otherwise 0 |
| PrivacyScore.SecurityPoints | plugin/privacyScore.js:66-69 | 15 points exactly with API hijacking, otherwise 0 |
| PrivacyScore.GroupPoints | plugin/privacyScore.js:3-72 | each group's points lie within its bounds, and the unrounded score lies between 0 and 104 |
| PrivacyScore.LevelFor | plugin/privacyScore.js:75-97 | the level's rank is the number of boundaries 10, 25, 45, 70 the score lies strictly above; `Excelente` exactly up to 10 and `Crítico` exactly above 70 |
| PrivacyScore.ThresholdsBelow | plugin/privacyScore.js:77-93 | the boundaries below a score, counted boundary by boundary |
| PrivacyScore.LevelMonotone | plugin/privacyScore.js:77-97 | a higher score never gets a better level |
| PrivacyScore.Score | plugin/privacyScore.js:2-106 | the level comes from the unrounded score; the displayed score is within half a point of it, between 0 and 104; the percentage is the displayed score capped at 100 |
| PrivacyScore.ScoreMonotone | plugin/privacyScore.js:2-106 | detecting more (more connections or cookies, more flags) never lowers the score or improves the level |
| PrivacyScore.EmptyInputIsExcellent | plugin/privacyScore.js:2-106 | a report with nothing detected scores 0 and is rated `Excelente` |
| PrivacyScore.WorkerCanvasHijackingIsModerate | plugin/privacyScore.js:45-89 | a Service Worker, canvas fingerprinting and API hijacking score 40, rated `Moderado` |
| PrivacyScore.DisplayedTenCanBeGood | plugin/privacyScore.js:77-100 | a displayed score of 10 can carry the level `Bom`, because the level reads the unrounded 10.4 |
| PrivacyScore.StorageKinds | plugin/privacyScore.js:137-141 | each storage kind is listed exactly when its signal is set, and the list is empty exactly when the storage points are 0 |
| PrivacyScore.Join | plugin/privacyScore.js:146 | joining no parts gives the empty string and one part gives that part; two or more parts start with the first part and the separator and end with the separator and the last part |
| PrivacyScore.JoinAppend | plugin/privacyScore.js:146 | joining one more part appends the separator and that part to the join of the others |
| PrivacyScore.Grade | plugin/privacyScore.js:121-148 | a quantity above the upper limit is `Alto`, above the lower limit only is `Médio`, and otherwise `Baixo`; never `Crítico` |
| PrivacyScore.SectionEntry | plugin/privacyScore.js:115-170 | a section has an entry exactly when its signal is present; the entry carries that group's points and its value (the connection count, the two cookie counts, the storage kinds joined with `, `, or the fixed text), and its impact: connections `Alto` exactly above 20 and `Médio` exactly from 11 to 20, third-party cookies at 10 and 5, storage points at 15 and 8, fingerprinting always `Alto`, hijacking always `Crítico` |
| PrivacyScore.StorageImpact | plugin/privacyScore.js:148 | the storage entry is graded `Alto` exactly for a Service Worker with IndexedDB or an ETag, or for IndexedDB with an ETag and localStorage; IndexedDB alone is `Baixo` |
| PrivacyScore.SignalledSections | plugin/privacyScore.js:113-170 | reference filter: the listed sections whose signals are present, in order, never more than listed |
| PrivacyScore.Collect | plugin/privacyScore.js:113-172 | the entries built for a list of sections are those of its signalled sections, in list order, each with its group's points and each exactly the entry its section is given on its own, value and impact included |
| PrivacyScore.SignalledSectionsMembers | plugin/privacyScore.js:113-170 | a section is kept by the filter exactly when it is listed and signalled |
| PrivacyScore.SignalledSectionsIncreasing | plugin/privacyScore.js:113-170 | filtering keeps the sections' order |
| PrivacyScore.EverySectionListed | plugin/privacyScore.js:113-170 | each of the five sections has its place in the report order |
| PrivacyScore.DetailedReport | plugin/privacyScore.js:110-173 | the report's sections are those whose signals are present, in the fixed order connections, cookies, storage, fingerprinting, security; each entry is its section's entry, with its group's points, its value and its impact |
| PrivacyScore.ReportSections | plugin/privacyScore.js:113-170 | the report lists its sections in strictly increasing order and lists a section exactly when its signal is present |
| Background.OnRequestAsWritten | plugin/background.js:5-22 | an unparseable URL throws; otherwise the listener throws exactly when the tab's record exists without a domain set, and on success the host is in the tab's set and other tabs are untouched |
| Background.OnRequest | plugin/background.js:11-22 | corrected listener: only an unparseable URL throws; the host joins the tab's set, a repeated host leaves it unchanged, the set stays duplicate-free, a new record is the fresh one and an old one keeps its other fields |
| Background.RequestFixAgrees | plugin/background.js:12-22 | the corrected listener does what the original does whenever the original succeeds, and succeeds where the original crashes |
| Background.EtagBeforeRequestCrashes | plugin/background.js:12-36 | an ETag response on a tab with no record, followed by a request on that tab, crashes the original listener; the corrected one records the host |
| Background.CookiesBeforeRequestCrashes | plugin/background.js:12-70 | counting cookies for a tab with no record, followed by a request on that tab, crashes the original listener |
| Background.FindEtag | plugin/background.js:30 | finds a header exactly when some header name lower-cases to `etag`, and returns a header at a position before which no name does |
| Background.OnHeaders | plugin/background.js:28-37 | an ETag header sets the tab's flag and nothing else; a response without one changes nothing; other tabs are untouched |
| Background.EtagIsSticky | plugin/background.js:28-37 | once set, a tab's ETag flag stays set under every event except closing that tab |
| Background.FirstPartyCookies | plugin/background.js:53-59 | reference filter: a cookie is first-party exactly when its domain contains the page host |
| Background.PartitionCookies | plugin/background.js:50-59 | the first-party count is the number of first-party cookies, and the two counts add up to the number of cookies |
| Background.DetectCookies | plugin/background.js:44-77 | a URL or jar failure answers 0/0 and leaves the store alone; otherwise the counts partition the cookies and overwrite the tab's counts, keeping its other fields |
| Background.TabRemoved | plugin/background.js:149-151 | the tab's record is gone and every other record is untouched |
| Background.Apply | plugin/background.js:5-151 | with the corrected request listener: an event touches only its own tab's record, and a removal deletes it |
| Background.ApplyAsWritten | plugin/background.js:5-151 | with the request listener as written: a request for a tab whose record has no domain set leaves the store as it was; an event touches only its own tab's record, and a removal deletes it |
| Background.ApplyFixAgrees | plugin/background.js:12-22 | the two versions of an event differ only on a request for a tab whose record lacks a domain set, which the version as written drops |
| Background.Run | plugin/background.js:5-151 | after any run of events, every tab with a record was the subject of an event other than its removal |
| Background.RunAsWritten | plugin/background.js:5-151 | the same for the run with the request listener as written |
| Background.RunsDiffer | plugin/background.js:12-36 | an ETag response on tab 7 before its request to `cdn.example.com`: as written the host is never recorded, corrected it is |
| Background.EtagIsStickyAsWritten | plugin/background.js:28-37 | as written too, a set ETag flag stays set under every event except closing that tab |
| Background.ApplyAsWrittenKeepsDistinct | plugin/background.js:12-22 | as written too, no event puts a duplicate into a domain set |
| Background.RunAsWrittenKeepsDistinct | plugin/background.js:5-151 | as written too, over any run of events every domain set stays duplicate-free |
| Background.ApplyKeepsDistinct | plugin/background.js:12-22 | no event puts a duplicate into a domain set |
| Background.RunKeepsDistinct | plugin/background.js:5-151 | over any run of events, every domain set stays duplicate-free |
| Background.GetReport | plugin/background.js:87-146 | the connection count is the length of the list, which holds the tab's hosts; missing counts read 0; `supercookies` is etag or IndexedDB or Service Worker; the detail and top-level flags mirror those three and the page's answer |
| Background.UnreachableIsEmptyAnswer | plugin/background.js:118-138 | a failed content message yields the same report as an empty answer |
| Background.ConnectionCountIsDistinctHosts | plugin/background.js:99 | the reported connection count is the number of distinct hosts seen on the tab |
| Background.RemovedTabReportsDefaults | plugin/background.js:149-150 | after a tab is closed its report has no connections, no cookies and no ETag |
| Background.SupercookieCount | plugin/popup.js:90-96 | the count is at most 3, and 0 exactly when none of the three kinds is set |
| Background.SupercookieCountAgrees | plugin/popup.js:90-96 | the popup's count is positive exactly when the report flags supercookies |
| Background.UnknownTabScoresZero | plugin/popup.js:46 | a tab with no record whose page does not answer scores 0, `Excelente` |
| Blocker.LoadSettings | plugin/blocker.js:17-26 | a failing read leaves the state alone; otherwise blocking is on only if stored on, the domains are the stored ones without duplicates, and a missing counter reads 0 |
| Blocker.SaveSettings | plugin/blocker.js:29-39 | all three keys are written |
| Blocker.SaveLoadRoundTrip | plugin/blocker.js:17-39 | loading what was saved restores the state exactly, domain order included |
| Blocker.LoadDefaults | plugin/blocker.js:20-22 | with nothing stored, loading gives disabled, no domains, no blocks |
| Blocker.Toggle | plugin/blocker.js:42-48 | sets the switch and nothing else |
| Blocker.Block | plugin/blocker.js:51-55 | adds exactly the domain, keeps the list duplicate-free, touches nothing else |
| Blocker.Unblock | plugin/blocker.js:58-62 | removes exactly the domain, keeps the list duplicate-free, touches nothing else |
| Blocker.IsDomainBlocked | plugin/blocker.js:65-67 | a domain is reported blocked exactly when it is in the set, and then the request test blocks it too |
| Blocker.BlockUnblockIdempotent | plugin/blocker.js:51-67 | blocking twice is blocking once, unblocking twice is unblocking once; afterwards the domain is and is not reported blocked |
| Blocker.UnblockUndoesBlock | plugin/blocker.js:51-62 | unblocking a domain just blocked, not blocked before, restores the state |
| Blocker.OtherDomainsUnchanged | plugin/blocker.js:51-67 | blocking or unblocking one domain does not change whether another is blocked |
| Blocker.Increment | plugin/blocker.js:92-96 | adds exactly one block and nothing else |
| Blocker.ResetSession | plugin/blocker.js:99-103 | sets the counter to 0 and nothing else |
| Blocker.ResetAfterIncrements | plugin/blocker.js:92-103 | a reset forgets an increment before it |
| Blocker.GetStats | plugin/blocker.js:106-113 | the count is the length of the list, which holds exactly the blocked domains |
| Blocker.StatsCountDistinct | plugin/blocker.js:109 | the count is the number of distinct blocked domains |
| Blocker.ShouldBlockRequest | plugin/blocker.js:70-89 | blocks exactly when blocking is on, the URL parses, and the host is blocked itself or ends with a dot and a blocked domain |
| Blocker.SubdomainMatching | plugin/blocker.js:65-85 | a blocked `ads.com` blocks `x.ads.com`, which isDomainBlocked does not report, and does not block `myads.com` |
| InsertionSets.Add | plugin/background.js:22 | `set.add` adds exactly the element, keeps the set duplicate-free, and leaves it unchanged when the element is present |
| InsertionSets.Delete | plugin/blocker.js:59 | `set.delete` removes exactly the element, keeps the set duplicate-free, and changes nothing when the element is absent |
| InsertionSets.DeleteAt | plugin/blocker.js:59 | in a duplicate-free sequence, deleting an element cuts it out of its position and keeps the others in order |
| InsertionSets.FromSeq | plugin/blocker.js:21 | `new Set(array)` is duplicate-free and holds exactly the array's elements |
| InsertionSets.FromDistinctSeq | plugin/blocker.js:21-33 | a set built from a duplicate-free array gives back that array in its order |
| InsertionSets.DistinctCardinality | plugin/blocker.js:109 | `set.size` is the number of distinct elements |

## Left out

- `Math.log10`: a parameter constrained only by being 0 at 1 and monotone from 1 on. Floating-point rounding in the score is not modelled: points are exact reals, and `Math.round` is `floor(x + 1/2)`.
- Trackers.IdentifyIgnoresWwwPrefix: proved only for domains whose cleaned form is not an exact catalog key after a `www.`, or for catalogs whose nested keys agree. `NestedKeysAgree` says that a key found inside a later key has the later key's category. It is not proved for the 46-entry catalog, since that means checking every pair of keys.
- Trackers.IdentifyIgnoresCase: the same proviso as `IdentifyIgnoresWwwPrefix`.
- Trackers.WwwPrefixInvisible: the same proviso.
- Case mapping is ASCII only. JavaScript's `toLowerCase` also maps non-ASCII letters.
- Object lookups in the catalog ignore inherited properties. A host such as `constructor` would hit `Object.prototype` in the original. Here the catalog is a finite list of its own keys.
- Category styles are constant records of strings (name, icon, colour, background, description). Nothing is proved about their colours.
- `byCategory` is keyed by the category rather than by its property name. `CategoryId` gives the name.
- URL parsing: each input carries the parsed hostname, or none when `new URL` throws.
- Browser APIs are parameters or left out. `webRequest` events, `cookies.getAll`, `tabs.query` (the active tab is a parameter), runtime messaging, `storage.local`, `broadcastUpdate` and console logging all fall here.
- The `onUpdated` guard, which only detects cookies for completed `http` pages, is left to the caller of `DetectCookies`.
- Background.Apply: its request step is the corrected listener of the Findings table, and so are `Run`, `ApplyKeepsDistinct`, `EtagIsSticky` and `RunKeepsDistinct`. `ApplyAsWritten` and `RunAsWritten` follow the listener as written, with the same invariants proved for them.
- Asynchrony: each listener is one atomic transition, with no interleaving of promises.
- Truthiness: flags and counts read from storage or the content script are booleans and naturals. Other truthy or falsy JavaScript values are not modelled.
- The cookie report value `"<n> (1ª) + <m> (3ª)"` is kept as the pair of counts, without its string formatting.
- `setupMessageListener` and `init` (message dispatch to the operations modelled here) are left out.
- The content script (`plugin/content.js`) and the popup's rendering are left out. The popup's `contarSupercookies` and its call to `calcularPontuacao` are modelled.

## Findings

| source | as written | input that shows it | evidently intended | confidence | as-written member | corrected member |
|---|---|---|---|---|---|---|
| plugin/background.js:12-22 | The request listener creates a full record only when the tab has none. The header listener (line 34) and `detectarCookies` (line 67) create `{}` without a domain set, so `.add` is then called on `undefined` and throws. | An ETag response on tab 7 before any request on it, then a request to `cdn.example.com` on tab 7 | Every request records its host: a record without a domain set gets an empty one first | not executed; high | Background.OnRequestAsWritten, Background.EtagBeforeRequestCrashes, Background.RunsDiffer | Background.OnRequest, Background.RequestFixAgrees |
