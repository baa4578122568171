/** calcularPontuacao and gerarRelatorioDetalhado: the privacy score of a
    page report, its level, and the itemised report. The one transcendental
    function, `Math.log10`, is a parameter: any function that is zero at 1
    and monotone from 1 on. */
module PrivacyScore {
  import opened Results
  import opened Strings

  /** The report fields the score reads. A missing count reads as 0 and a
      missing flag as false, as `|| 0` and the truthiness tests do. */
  datatype ScoreInput = ScoreInput(
    connections: nat,
    firstPartyCookies: nat,
    thirdPartyCookies: nat,
    localStorage: bool,
    indexedDB: bool,
    serviceWorker: bool,
    etag: bool,
    canvasFingerprint: bool,
    hijacking: bool)

  /** A report with nothing detected. */
  const EmptyInput := ScoreInput(0, 0, 0, false, false, false, false, false, false)

  /** What the score asks of `Math.log10`. */
  ghost predicate Log10Like(log10: real -> real) {
    log10(1.0) == 0.0 &&
    forall x: real, y: real {:trigger log10(x), log10(y)} :: 1.0 <= x <= y ==> log10(x) <= log10(y)
  }

  function Min(a: real, b: real): (r: real)
    ensures r <= a && r <= b && (r == a || r == b)
  {
    if a <= b then a else b
  }

  /** `Math.round`: the nearest integer, halves rounded up. */
  function Round(x: real): (r: int)
    ensures x - 0.5 < r as real <= x + 0.5
  {
    (x + 0.5).Floor
  }

  /** Points for third-party connections: `log10(n + 1) * 8` capped at 25,
      and none at all without connections. */
  function ConnectionPoints(log10: real -> real, n: nat): (r: real)
    requires Log10Like(log10)
    ensures 0.0 <= r <= 25.0
    ensures n == 0 ==> r == 0.0
  {
    if n > 0 then
      assert log10(1.0) <= log10((n + 1) as real);
      Min(25.0, log10((n + 1) as real) * 8.0)
    else 0.0
  }

  /** Points for cookies: a fifth of a point per first-party cookie, capped
      at 5, and four fifths per third-party cookie, capped at 15. */
  function CookiePoints(firstParty: nat, thirdParty: nat): (r: real)
    ensures 0.0 <= r <= 20.0
    ensures r == 0.0 <==> firstParty == 0 && thirdParty == 0
  {
    Min(5.0, firstParty as real * 0.2) + Min(15.0, thirdParty as real * 0.8)
  }

  /** Points for persistent storage: 5 for localStorage, 8 for IndexedDB, 10
      for a Service Worker and 6 for an ETag, with no cap. */
  function StoragePoints(s: ScoreInput): (r: real)
    ensures 0.0 <= r <= 29.0
    ensures r == 0.0 <==> !s.localStorage && !s.indexedDB && !s.serviceWorker && !s.etag
  {
    (if s.localStorage then 5.0 else 0.0) + (if s.indexedDB then 8.0 else 0.0)
      + (if s.serviceWorker then 10.0 else 0.0) + (if s.etag then 6.0 else 0.0)
  }

  /** Points for canvas fingerprinting. */
  function FingerprintPoints(s: ScoreInput): (r: real)
    ensures r == 15.0 <==> s.canvasFingerprint
    ensures r == 0.0 <==> !s.canvasFingerprint
  {
    if s.canvasFingerprint then 15.0 else 0.0
  }

  /** Points for API hijacking. */
  function SecurityPoints(s: ScoreInput): (r: real)
    ensures r == 15.0 <==> s.hijacking
    ensures r == 0.0 <==> !s.hijacking
  {
    if s.hijacking then 15.0 else 0.0
  }

  /** The `detalhes` object: the points of each group. */
  datatype Details = Details(connections: real, cookies: real, storage: real, fingerprinting: real, security: real)
  {
    /** The unrounded score: the sum of the groups. */
    function Total(): real {
      connections + cookies + storage + fingerprinting + security
    }
  }

  /** The five levels, from most to least respectful of privacy. */
  datatype Level = Excellent | Good | Moderate | High | Critical
  {
    /** `nivel`. */
    function Label(): string {
      match this
      case Excellent => "Excelente"
      case Good => "Bom"
      case Moderate => "Moderado"
      case High => "Alto"
      case Critical => "Crítico"
    }

    /** `cor`: the style class of the level. */
    function ColorClass(): string {
      match this
      case Excellent => "excelente"
      case Good => "bom"
      case Moderate => "moderado"
      case High => "alto"
      case Critical => "critico"
    }

    /** `descricao`. */
    function Description(): string {
      match this
      case Excellent => "Site muito respeitoso com privacidade"
      case Good => "Nível aceitável de tracking"
      case Moderate => "Tracking moderado detectado"
      case High => "Alto nível de tracking"
      case Critical => "Tracking muito invasivo detectado"
    }

    /** The position of the level, 0 for `Excellent` to 4 for `Critical`. */
    function Rank(): nat {
      match this
      case Excellent => 0
      case Good => 1
      case Moderate => 2
      case High => 3
      case Critical => 4
    }
  }

  /** The level boundaries; each is the highest score of its level. */
  const Thresholds: seq<real> := [10.0, 25.0, 45.0, 70.0]

  /** Reference definition of a level's position: the number of boundaries
      the score lies strictly above. */
  function BoundariesBelow(score: real, bounds: seq<real>): (r: nat)
    ensures r <= |bounds|
  {
    if |bounds| == 0 then 0
    else (if bounds[0] < score then 1 else 0) + BoundariesBelow(score, bounds[1..])
  }

  /** The boundaries below a score, counted one by one. */
  lemma ThresholdsBelow(score: real)
    ensures BoundariesBelow(score, Thresholds) ==
      (if 10.0 < score then 1 else 0) + (if 25.0 < score then 1 else 0)
      + (if 45.0 < score then 1 else 0) + (if 70.0 < score then 1 else 0)
  {
    var t0, t1, t2, t3: seq<real> := [70.0], [45.0, 70.0], [25.0, 45.0, 70.0], Thresholds;
    assert t0[1..] == [] && t1[1..] == t0 && t2[1..] == t1 && t3[1..] == t2;
    assert BoundariesBelow(score, t0) == (if 70.0 < score then 1 else 0);
    assert BoundariesBelow(score, t1) == (if 45.0 < score then 1 else 0) + BoundariesBelow(score, t0);
    assert BoundariesBelow(score, t2) == (if 25.0 < score then 1 else 0) + BoundariesBelow(score, t1);
  }

  /** The level of an unrounded score: each boundary belongs to the level
      below it. */
  function LevelFor(score: real): (r: Level)
    ensures r.Rank() == BoundariesBelow(score, Thresholds)
    ensures r == Excellent <==> score <= 10.0
    ensures r == Critical <==> score > 70.0
  {
    ThresholdsBelow(score);
    if score <= 10.0 then Excellent
    else if score <= 25.0 then Good
    else if score <= 45.0 then Moderate
    else if score <= 70.0 then High
    else Critical
  }

  /** A higher score never gets a better level. */
  lemma LevelMonotone(s: real, t: real)
    requires s <= t
    ensures LevelFor(s).Rank() <= LevelFor(t).Rank()
  {
  }

  /** The object calcularPontuacao returns. */
  datatype ScoreResult = ScoreResult(score: int, level: Level, details: Details, percentage: int)

  /** The points of each group. */
  function GroupPoints(log10: real -> real, s: ScoreInput): (d: Details)
    requires Log10Like(log10)
    ensures 0.0 <= d.connections <= 25.0 && 0.0 <= d.cookies <= 20.0 && 0.0 <= d.storage <= 29.0
    ensures (d.fingerprinting == 0.0 || d.fingerprinting == 15.0) && (d.security == 0.0 || d.security == 15.0)
    ensures 0.0 <= d.Total() <= 104.0
  {
    Details(ConnectionPoints(log10, s.connections), CookiePoints(s.firstPartyCookies, s.thirdPartyCookies),
      StoragePoints(s), FingerprintPoints(s), SecurityPoints(s))
  }

  /** calcularPontuacao. The level is chosen from the unrounded score, the
      displayed score is that score rounded, and the percentage is the
      rounded score capped at 100. */
  function Score(log10: real -> real, s: ScoreInput): (r: ScoreResult)
    requires Log10Like(log10)
    ensures r.details == GroupPoints(log10, s)
    ensures r.level == LevelFor(r.details.Total())
    ensures 0 <= r.score <= 104
    ensures r.score as real - 0.5 <= r.details.Total() < r.score as real + 0.5
    ensures 0 <= r.percentage <= 100
    ensures r.percentage == if r.score < 100 then r.score else 100
  {
    var details := GroupPoints(log10, s);
    var score := details.Total();
    var rounded := Round((score / 100.0) * 100.0);
    ScoreResult(Round(score), LevelFor(score), details, if rounded <= 100 then rounded else 100)
  }

  /** Nothing detected scores 0, `Excelente`. */
  lemma EmptyInputIsExcellent(log10: real -> real)
    requires Log10Like(log10)
    ensures Score(log10, EmptyInput).score == 0
    ensures Score(log10, EmptyInput).level == Excellent
  {
    var d := GroupPoints(log10, EmptyInput);
    assert d.connections == 0.0;
    assert d.cookies == 0.0;
    assert d.storage == 0.0;
    assert d.fingerprinting == 0.0 && d.security == 0.0;
  }

  /** A Service Worker, canvas fingerprinting and API hijacking score 40,
      `Moderado`. */
  lemma WorkerCanvasHijackingIsModerate(log10: real -> real)
    requires Log10Like(log10)
    ensures var s := EmptyInput.(serviceWorker := true, canvasFingerprint := true, hijacking := true);
      Score(log10, s).score == 40 && Score(log10, s).level == Moderate
  {
  }

  /** The level's display boundary and the rounded score disagree: a Service
      Worker and two first-party cookies score 10.4, shown as 10, yet the
      level is `Bom`, not the `Excelente` of a score of 10. */
  lemma DisplayedTenCanBeGood(log10: real -> real)
    requires Log10Like(log10)
    ensures var s := EmptyInput.(serviceWorker := true, firstPartyCookies := 2);
      Score(log10, s).score == 10 && Score(log10, s).level == Good
    ensures LevelFor(10.0) == Excellent
  {
  }

  /** Inputs ordered signal by signal: more connections and cookies, and
      every flag of `s` also set in `t`. */
  predicate Dominates(t: ScoreInput, s: ScoreInput) {
    s.connections <= t.connections && s.firstPartyCookies <= t.firstPartyCookies &&
    s.thirdPartyCookies <= t.thirdPartyCookies &&
    (s.localStorage ==> t.localStorage) && (s.indexedDB ==> t.indexedDB) &&
    (s.serviceWorker ==> t.serviceWorker) && (s.etag ==> t.etag) &&
    (s.canvasFingerprint ==> t.canvasFingerprint) && (s.hijacking ==> t.hijacking)
  }

  /** More connections never give fewer points. */
  lemma ConnectionPointsMonotone(log10: real -> real, n: nat, m: nat)
    requires Log10Like(log10)
    requires n <= m
    ensures ConnectionPoints(log10, n) <= ConnectionPoints(log10, m)
  {
    if n > 0 {
      assert log10((n + 1) as real) <= log10((m + 1) as real);
    }
  }

  /** More cookies of either kind never give fewer points. */
  lemma CookiePointsMonotone(c1: nat, c3: nat, d1: nat, d3: nat)
    requires c1 <= d1 && c3 <= d3
    ensures CookiePoints(c1, c3) <= CookiePoints(d1, d3)
  {
  }

  /** Detecting more never lowers any group, the score or the level. */
  lemma ScoreMonotone(log10: real -> real, s: ScoreInput, t: ScoreInput)
    requires Log10Like(log10)
    requires Dominates(t, s)
    ensures GroupPoints(log10, s).Total() <= GroupPoints(log10, t).Total()
    ensures Score(log10, s).score <= Score(log10, t).score
    ensures Score(log10, s).level.Rank() <= Score(log10, t).level.Rank()
  {
    ConnectionPointsMonotone(log10, s.connections, t.connections);
    CookiePointsMonotone(s.firstPartyCookies, s.thirdPartyCookies, t.firstPartyCookies, t.thirdPartyCookies);
    LevelMonotone(GroupPoints(log10, s).Total(), GroupPoints(log10, t).Total());
  }

  /** All four storage signals give 29 points, above the 25 that the group's
      heading announces: the group has no cap. */
  lemma StorageIsUncapped()
    ensures StoragePoints(EmptyInput.(localStorage := true, indexedDB := true, serviceWorker := true, etag := true)) == 29.0
  {
  }

  // ---------------------------------------------------------------------
  // gerarRelatorioDetalhado
  // ---------------------------------------------------------------------

  /** The report's sections, in the order the report lists them. */
  datatype Section = ConnectionsSection | CookiesSection | StorageSection | FingerprintingSection | SecuritySection
  {
    /** `categoria`. */
    function Title(): string {
      match this
      case ConnectionsSection => "Conexões de Terceiros"
      case CookiesSection => "Cookies"
      case StorageSection => "Armazenamento Persistente"
      case FingerprintingSection => "Fingerprinting"
      case SecuritySection => "Segurança"
    }

    function Position(): nat {
      match this
      case ConnectionsSection => 0
      case CookiesSection => 1
      case StorageSection => 2
      case FingerprintingSection => 3
      case SecuritySection => 4
    }
  }

  /** `impacto`. */
  datatype Impact = Low | Medium | HighImpact | CriticalImpact
  {
    function Label(): string {
      match this
      case Low => "Baixo"
      case Medium => "Médio"
      case HighImpact => "Alto"
      case CriticalImpact => "Crítico"
    }
  }

  /** `valor`: a count, the two cookie counts, the storage kinds joined with
      `", "`, or a fixed text. */
  datatype ReportValue = Count(n: nat) | CookieCounts(firstParty: nat, thirdParty: nat) | Text(s: string)

  /** One report entry. */
  datatype ReportEntry = ReportEntry(section: Section, value: ReportValue, points: real, impact: Impact)

  /** `a.join(sep)`. */
  function Join(parts: seq<string>, sep: string): (r: string)
    ensures |parts| == 0 ==> r == ""
    ensures |parts| == 1 ==> r == parts[0]
    ensures |parts| >= 2 ==> IsPrefix(parts[0] + sep, r) && EndsWith(r, sep + parts[|parts| - 1])
  {
    if |parts| == 0 then ""
    else if |parts| == 1 then parts[0]
    else
      var rest := Join(parts[1..], sep);
      assert parts[1..][|parts[1..]| - 1] == parts[|parts| - 1];
      assert (parts[0] + sep + rest)[..|parts[0] + sep|] == parts[0] + sep;
      JoinTail(parts[0], sep, rest, parts[|parts| - 1]);
      parts[0] + sep + rest
  }

  /** Prefixing a part and a separator to a join that is the last part, or
      ends with the separator and the last part, gives a join that ends with
      the separator and the last part. */
  lemma JoinTail(first: string, sep: string, rest: string, last: string)
    requires rest == last || EndsWith(rest, sep + last)
    ensures EndsWith(first + sep + rest, sep + last)
  {
    if rest == last {
      assert first + sep + rest == first + (sep + last);
    } else {
      assert (first + sep + rest)[|first + sep + rest| - |sep + last|..] == rest[|rest| - |sep + last|..];
    }
  }

  /** Joining one more part appends the separator and the part. */
  lemma {:induction false} JoinAppend(parts: seq<string>, x: string, sep: string)
    requires |parts| >= 1
    ensures Join(parts + [x], sep) == Join(parts, sep) + sep + x
    decreases |parts|
  {
    if |parts| == 1 {
      assert (parts + [x])[1..] == [x];
    } else {
      assert (parts + [x])[1..] == parts[1..] + [x];
      JoinAppend(parts[1..], x, sep);
    }
  }

  /** The storage kinds detected, in the fixed order localStorage, IndexedDB,
      Service Worker, ETag. */
  function StorageKinds(s: ScoreInput): (r: seq<string>)
    ensures "localStorage" in r <==> s.localStorage
    ensures "IndexedDB" in r <==> s.indexedDB
    ensures "Service Worker" in r <==> s.serviceWorker
    ensures "ETag" in r <==> s.etag
    ensures |r| == 0 <==> StoragePoints(s) == 0.0
  {
    (if s.localStorage then ["localStorage"] else []) + (if s.indexedDB then ["IndexedDB"] else [])
      + (if s.serviceWorker then ["Service Worker"] else []) + (if s.etag then ["ETag"] else [])
  }

  /** The grade of a quantity against two limits: above `high` is `Alto`,
      above `medium` is `Médio`, anything else `Baixo`. */
  function Grade(x: real, medium: real, high: real): (r: Impact)
    ensures r == HighImpact <==> x > high
    ensures r == Medium <==> medium < x <= high
    ensures r == Low <==> x <= medium && x <= high
    ensures r != CriticalImpact
  {
    if x > high then HighImpact else if x > medium then Medium else Low
  }

  /** Whether a section's signal is present. */
  predicate Signalled(s: ScoreInput, section: Section) {
    match section
    case ConnectionsSection => s.connections > 0
    case CookiesSection => s.firstPartyCookies + s.thirdPartyCookies > 0
    case StorageSection => s.localStorage || s.indexedDB || s.serviceWorker || s.etag
    case FingerprintingSection => s.canvasFingerprint
    case SecuritySection => s.hijacking
  }

  /** The points a section contributes to the score. */
  function SectionPoints(d: Details, section: Section): real {
    match section
    case ConnectionsSection => d.connections
    case CookiesSection => d.cookies
    case StorageSection => d.storage
    case FingerprintingSection => d.fingerprinting
    case SecuritySection => d.security
  }

  /** Reference definition of what an entry shows for its section: the
      value, and the grade of connections (above 20 `Alto`, above 10
      `Médio`), of third-party cookies (above 10 and 5), and of the storage
      points (above 15 and 8); fingerprinting is always `Alto` and hijacking
      always `Crítico`. */
  predicate Describes(s: ScoreInput, e: ReportEntry) {
    match e.section
    case ConnectionsSection =>
      e.value == Count(s.connections) &&
      (e.impact == HighImpact <==> s.connections > 20) &&
      (e.impact == Medium <==> 10 < s.connections <= 20) &&
      (e.impact == Low <==> s.connections <= 10)
    case CookiesSection =>
      e.value == CookieCounts(s.firstPartyCookies, s.thirdPartyCookies) &&
      (e.impact == HighImpact <==> s.thirdPartyCookies > 10) &&
      (e.impact == Medium <==> 5 < s.thirdPartyCookies <= 10) &&
      (e.impact == Low <==> s.thirdPartyCookies <= 5)
    case StorageSection =>
      e.value == Text(Join(StorageKinds(s), ", ")) &&
      (e.impact == HighImpact <==> StoragePoints(s) > 15.0) &&
      (e.impact == Medium <==> 8.0 < StoragePoints(s) <= 15.0) &&
      (e.impact == Low <==> StoragePoints(s) <= 8.0)
    case FingerprintingSection =>
      e.value == Text("Canvas detectado") && e.impact == HighImpact
    case SecuritySection =>
      e.value == Text("Hijacking de APIs detectado") && e.impact == CriticalImpact
  }

  /** The entry of one section: present exactly when its signal is, and
      carrying its group's points. */
  function SectionEntry(log10: real -> real, s: ScoreInput, section: Section): (e: Option<ReportEntry>)
    requires Log10Like(log10)
    ensures e.Some? <==> Signalled(s, section)
    ensures e.Some? ==> e.value.section == section
    ensures e.Some? ==> e.value.points == SectionPoints(GroupPoints(log10, s), section)
    ensures e.Some? ==> Describes(s, e.value)
  {
    var d := GroupPoints(log10, s);
    match section
    case ConnectionsSection =>
      if s.connections > 0 then
        Some(ReportEntry(section, Count(s.connections), d.connections, Grade(s.connections as real, 10.0, 20.0)))
      else None
    case CookiesSection =>
      if s.firstPartyCookies + s.thirdPartyCookies > 0 then
        Some(ReportEntry(section, CookieCounts(s.firstPartyCookies, s.thirdPartyCookies), d.cookies,
          Grade(s.thirdPartyCookies as real, 5.0, 10.0)))
      else None
    case StorageSection =>
      var kinds := StorageKinds(s);
      if |kinds| > 0 then
        Some(ReportEntry(section, Text(Join(kinds, ", ")), d.storage, Grade(d.storage, 8.0, 15.0)))
      else None
    case FingerprintingSection =>
      if s.canvasFingerprint then Some(ReportEntry(section, Text("Canvas detectado"), d.fingerprinting, HighImpact))
      else None
    case SecuritySection =>
      if s.hijacking then Some(ReportEntry(section, Text("Hijacking de APIs detectado"), d.security, CriticalImpact))
      else None
  }

  /** The sections in the order the report lists them. */
  const ReportOrder: seq<Section> :=
    [ConnectionsSection, CookiesSection, StorageSection, FingerprintingSection, SecuritySection]

  /** Sections listed in strictly increasing position. */
  predicate Increasing(sections: seq<Section>) {
    forall i, j :: 0 <= i < j < |sections| ==> sections[i].Position() < sections[j].Position()
  }

  /** Reference definition: the listed sections whose signals are present, in list order. */
  function SignalledSections(s: ScoreInput, sections: seq<Section>): (r: seq<Section>)
    ensures |r| <= |sections|
  {
    if |sections| == 0 then []
    else (if Signalled(s, sections[0]) then [sections[0]] else []) + SignalledSections(s, sections[1..])
  }

  /** The sections of a list of entries. */
  function SectionsOf(entries: seq<ReportEntry>): (r: seq<Section>)
    ensures |r| == |entries|
    ensures forall i :: 0 <= i < |entries| ==> r[i] == entries[i].section
  {
    seq(|entries|, i requires 0 <= i < |entries| => entries[i].section)
  }

  /** The entries of the listed sections whose signals are present, in list order. */
  function Collect(log10: real -> real, s: ScoreInput, sections: seq<Section>): (r: seq<ReportEntry>)
    requires Log10Like(log10)
    ensures SectionsOf(r) == SignalledSections(s, sections)
    ensures forall i :: 0 <= i < |r| ==> r[i].points == SectionPoints(GroupPoints(log10, s), r[i].section)
    ensures forall i :: 0 <= i < |r| ==> SectionEntry(log10, s, r[i].section) == Some(r[i])
  {
    if |sections| == 0 then []
    else
      var e := SectionEntry(log10, s, sections[0]);
      var rest := Collect(log10, s, sections[1..]);
      SectionsStep(s, sections, e, rest);
      assert e.Some? ==> SectionEntry(log10, s, e.value.section) == e;
      EntriesConcat(log10, s, Present(e), rest);
      Present(e) + rest
  }

  /** One step of the filter: the first section, if its entry is present,
      before the sections of the others. */
  lemma SectionsStep(s: ScoreInput, sections: seq<Section>, e: Option<ReportEntry>, rest: seq<ReportEntry>)
    requires |sections| > 0
    requires e.Some? <==> Signalled(s, sections[0])
    requires e.Some? ==> e.value.section == sections[0]
    requires SectionsOf(rest) == SignalledSections(s, sections[1..])
    ensures SectionsOf(Present(e) + rest) == SignalledSections(s, sections)
  {
    assert SectionsOf(Present(e) + rest) == SectionsOf(Present(e)) + SectionsOf(rest);
  }

  /** Two lists of a page's entries concatenate to one. */
  lemma EntriesConcat(log10: real -> real, s: ScoreInput, head: seq<ReportEntry>, rest: seq<ReportEntry>)
    requires Log10Like(log10)
    requires forall i :: 0 <= i < |head| ==> SectionEntry(log10, s, head[i].section) == Some(head[i])
    requires forall i :: 0 <= i < |rest| ==> SectionEntry(log10, s, rest[i].section) == Some(rest[i])
    ensures forall i :: 0 <= i < |head + rest| ==>
      SectionEntry(log10, s, (head + rest)[i].section) == Some((head + rest)[i])
  {
    forall i | 0 <= i < |head + rest|
      ensures SectionEntry(log10, s, (head + rest)[i].section) == Some((head + rest)[i])
    {
      if i >= |head| {
        assert (head + rest)[i] == rest[i - |head|];
      } else {
        assert (head + rest)[i] == head[i];
      }
    }
  }

  /** A section is kept by the filter exactly when it is listed and signalled. */
  lemma {:induction false} SignalledSectionsMembers(s: ScoreInput, sections: seq<Section>, x: Section)
    ensures x in SignalledSections(s, sections) <==> x in sections && Signalled(s, x)
  {
    if |sections| > 0 {
      SignalledSectionsMembers(s, sections[1..], x);
      assert x in sections <==> x == sections[0] || x in sections[1..];
    }
  }

  /** Filtering keeps the sections' order. */
  lemma {:induction false} SignalledSectionsIncreasing(s: ScoreInput, sections: seq<Section>)
    requires Increasing(sections)
    ensures Increasing(SignalledSections(s, sections))
  {
    if |sections| > 0 {
      var rest := SignalledSections(s, sections[1..]);
      assert Increasing(sections[1..]);
      SignalledSectionsIncreasing(s, sections[1..]);
      forall i | 0 <= i < |rest| ensures sections[0].Position() < rest[i].Position() {
        SignalledSectionsMembers(s, sections[1..], rest[i]);
        var k :| 0 <= k < |sections[1..]| && sections[1..][k] == rest[i];
        assert sections[k + 1] == rest[i];
      }
    }
  }

  function Present(e: Option<ReportEntry>): (r: seq<ReportEntry>)
    ensures |r| <= 1 && (e.Some? ==> r == [e.value]) && (e.None? ==> r == [])
  {
    match e
    case Some(x) => [x]
    case None => []
  }

  /** Every section is in the report order. */
  lemma EverySectionListed(section: Section)
    ensures section in ReportOrder
  {
    match section
    case ConnectionsSection =>
    case CookiesSection =>
    case StorageSection =>
    case FingerprintingSection =>
    case SecuritySection =>
  }

  /** gerarRelatorioDetalhado: an entry per present signal, in the fixed
      section order, each carrying its group's points. */
  function DetailedReport(log10: real -> real, s: ScoreInput): (r: seq<ReportEntry>)
    requires Log10Like(log10)
    ensures SectionsOf(r) == SignalledSections(s, ReportOrder)
    ensures forall i :: 0 <= i < |r| ==> r[i].points == SectionPoints(GroupPoints(log10, s), r[i].section)
    ensures forall i :: 0 <= i < |r| ==> SectionEntry(log10, s, r[i].section) == Some(r[i])
  {
    Collect(log10, s, ReportOrder)
  }

  /** The report lists its sections in the fixed order, and lists a section
      exactly when its signal is present. */
  lemma ReportSections(log10: real -> real, s: ScoreInput, section: Section)
    requires Log10Like(log10)
    ensures Increasing(SectionsOf(DetailedReport(log10, s)))
    ensures section in SectionsOf(DetailedReport(log10, s)) <==> Signalled(s, section)
  {
    assert Increasing(ReportOrder);
    SignalledSectionsIncreasing(s, ReportOrder);
    SignalledSectionsMembers(s, ReportOrder, section);
    EverySectionListed(section);
  }

  /** The storage entry is graded `Alto` exactly for a Service Worker with
      IndexedDB or an ETag, or for all three of IndexedDB, an ETag and
      localStorage; IndexedDB alone, at exactly 8 points, is only `Baixo`. */
  lemma StorageImpact(log10: real -> real, s: ScoreInput)
    requires Log10Like(log10)
    requires Signalled(s, StorageSection)
    ensures SectionEntry(log10, s, StorageSection).Some?
    ensures SectionEntry(log10, s, StorageSection).value.impact == HighImpact <==>
      (s.serviceWorker && (s.indexedDB || s.etag)) || (s.indexedDB && s.etag && s.localStorage)
    ensures s == EmptyInput.(indexedDB := true) ==> SectionEntry(log10, s, StorageSection).value.impact == Low
  {
  }
}
