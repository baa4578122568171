/** BlockerManager: the blocking switch, the blocked domains and the session
    counter, with the request test and the persisted settings. Every
    operation is a function from the old state to the new one; saving and
    broadcasting are left to the caller. */
module Blocker {
  import opened Results
  import opened Strings
  import opened InsertionSets

  /** The manager's state. `blockedDomains` is the `Set` in insertion order. */
  datatype Blocker = Blocker(isEnabled: bool, blockedDomains: seq<string>, sessionBlocks: nat)

  /** The blocked domains hold no duplicates, as a `Set` does. */
  ghost predicate Valid(b: Blocker) {
    Distinct(b.blockedDomains)
  }

  /** The state the constructor sets before the settings load. */
  const Initial := Blocker(false, [], 0)

  /** The three keys of `browser.storage.local`, each possibly absent. */
  datatype StoredSettings = StoredSettings(
    blockerEnabled: Option<bool>,
    blockedDomains: Option<seq<string>>,
    sessionBlocks: Option<nat>)

  /** loadSettings. `stored` is `None` when the storage read throws, which is
      caught and leaves the state as it was; an absent key reads as its
      default (disabled, no domains, no blocks). */
  function LoadSettings(b: Blocker, stored: Option<StoredSettings>): (r: Blocker)
    ensures Valid(r) || stored.None?
    ensures stored.None? ==> r == b
    ensures stored.Some? ==> (r.isEnabled <==> stored.value.blockerEnabled == Some(true))
    ensures stored.Some? ==> Elements(r.blockedDomains) == Elements(stored.value.blockedDomains.OrElse([]))
    ensures stored.Some? && stored.value.sessionBlocks.None? ==> r.sessionBlocks == 0
  {
    match stored
    case None => b
    case Some(st) =>
      Blocker(st.blockerEnabled.OrElse(false), FromSeq(st.blockedDomains.OrElse([])), st.sessionBlocks.OrElse(0))
  }

  /** saveSettings: what is written to storage. */
  function SaveSettings(b: Blocker): (st: StoredSettings)
    ensures st.blockerEnabled.Some? && st.blockedDomains.Some? && st.sessionBlocks.Some?
  {
    StoredSettings(Some(b.isEnabled), Some(b.blockedDomains), Some(b.sessionBlocks))
  }

  /** Loading what was saved restores the state exactly, domain order included. */
  lemma SaveLoadRoundTrip(b: Blocker, any: Blocker)
    requires Valid(b)
    ensures LoadSettings(any, Some(SaveSettings(b))) == b
  {
    FromDistinctSeq(b.blockedDomains);
  }

  /** With nothing stored, the manager starts disabled, with no domains and
      no blocks. */
  lemma LoadDefaults(b: Blocker)
    ensures LoadSettings(b, Some(StoredSettings(None, None, None))) == Initial
  {
  }

  /** toggleBlocking. */
  function Toggle(b: Blocker, enabled: bool): (r: Blocker)
    ensures r.isEnabled == enabled
    ensures r.blockedDomains == b.blockedDomains && r.sessionBlocks == b.sessionBlocks
  {
    b.(isEnabled := enabled)
  }

  /** blockDomain. */
  function Block(b: Blocker, domain: string): (r: Blocker)
    ensures Elements(r.blockedDomains) == Elements(b.blockedDomains) + {domain}
    ensures Valid(b) ==> Valid(r)
    ensures r.isEnabled == b.isEnabled && r.sessionBlocks == b.sessionBlocks
  {
    b.(blockedDomains := Add(b.blockedDomains, domain))
  }

  /** unblockDomain. */
  function Unblock(b: Blocker, domain: string): (r: Blocker)
    ensures Elements(r.blockedDomains) == Elements(b.blockedDomains) - {domain}
    ensures Valid(b) ==> Valid(r)
    ensures r.isEnabled == b.isEnabled && r.sessionBlocks == b.sessionBlocks
  {
    b.(blockedDomains := Delete(b.blockedDomains, domain))
  }

  /** isDomainBlocked: exact membership. A domain it reports is one the
      request test blocks, when blocking is on; the converse fails for
      subdomains (see SubdomainMatching). */
  function IsDomainBlocked(b: Blocker, domain: string): (r: bool)
    ensures r <==> domain in Elements(b.blockedDomains)
    ensures r ==> BlocksHost(b.blockedDomains, domain)
  {
    domain in b.blockedDomains
  }

  /** Blocking and unblocking are idempotent. */
  lemma BlockUnblockIdempotent(b: Blocker, domain: string)
    ensures Block(Block(b, domain), domain) == Block(b, domain)
    ensures Unblock(Unblock(b, domain), domain) == Unblock(b, domain)
    ensures IsDomainBlocked(Block(b, domain), domain)
    ensures !IsDomainBlocked(Unblock(b, domain), domain)
  {
    assert domain in Elements(Block(b, domain).blockedDomains);
    assert domain !in Elements(Unblock(b, domain).blockedDomains);
  }

  /** Deleting what was just appended gives the sequence back. */
  lemma {:induction false} DeleteAppended(s: seq<string>, x: string)
    requires x !in s
    ensures Delete(s + [x], x) == s
    decreases |s|
  {
    if |s| > 0 {
      assert (s + [x])[1..] == s[1..] + [x];
      DeleteAppended(s[1..], x);
      assert [s[0]] + s[1..] == s;
    } else {
      assert ([] + [x])[1..] == [];
    }
  }

  /** Unblocking a domain that was just blocked, and was not blocked before,
      restores the state. */
  lemma UnblockUndoesBlock(b: Blocker, domain: string)
    requires !IsDomainBlocked(b, domain)
    ensures Unblock(Block(b, domain), domain) == b
  {
    DeleteAppended(b.blockedDomains, domain);
  }

  /** Blocking or unblocking one domain leaves the others as they were. */
  lemma OtherDomainsUnchanged(b: Blocker, domain: string, other: string)
    requires other != domain
    ensures IsDomainBlocked(Block(b, domain), other) <==> IsDomainBlocked(b, other)
    ensures IsDomainBlocked(Unblock(b, domain), other) <==> IsDomainBlocked(b, other)
  {
    assert other in Elements(Block(b, domain).blockedDomains) <==> other in Elements(b.blockedDomains);
    assert other in Elements(Unblock(b, domain).blockedDomains) <==> other in Elements(b.blockedDomains);
  }

  /** incrementBlockCount. */
  function Increment(b: Blocker): (r: Blocker)
    ensures r.sessionBlocks == b.sessionBlocks + 1
    ensures r.isEnabled == b.isEnabled && r.blockedDomains == b.blockedDomains
  {
    b.(sessionBlocks := b.sessionBlocks + 1)
  }

  /** resetSessionCount. */
  function ResetSession(b: Blocker): (r: Blocker)
    ensures r.sessionBlocks == 0
    ensures r.isEnabled == b.isEnabled && r.blockedDomains == b.blockedDomains
  {
    b.(sessionBlocks := 0)
  }

  /** Resetting forgets every increment since the last reset. */
  lemma ResetAfterIncrements(b: Blocker)
    ensures ResetSession(Increment(b)) == ResetSession(b)
  {
  }

  /** The object getStats returns. */
  datatype Stats = Stats(isEnabled: bool, blockedDomainsCount: nat, sessionBlocks: nat, blockedDomains: seq<string>)

  /** getStats: the count is the length of the list, which holds exactly the
      blocked domains. */
  function GetStats(b: Blocker): (r: Stats)
    ensures r.blockedDomainsCount == |r.blockedDomains|
    ensures Elements(r.blockedDomains) == Elements(b.blockedDomains)
    ensures r.isEnabled == b.isEnabled && r.sessionBlocks == b.sessionBlocks
  {
    Stats(b.isEnabled, |b.blockedDomains|, b.sessionBlocks, b.blockedDomains)
  }

  /** The reported count is the number of distinct blocked domains. */
  lemma StatsCountDistinct(b: Blocker)
    requires Valid(b)
    ensures GetStats(b).blockedDomainsCount == |Elements(b.blockedDomains)|
  {
    DistinctCardinality(b.blockedDomains);
  }

  /** Reference definition of the request test on a hostname: the host is
      blocked itself, or is a subdomain of a blocked domain. */
  predicate BlocksHost(blocked: seq<string>, host: string) {
    host in blocked || exists i :: 0 <= i < |blocked| && EndsWith(host, "." + blocked[i])
  }

  /** shouldBlockRequest. `host` is `None` when the URL does not parse, which
      is caught and answers false. */
  method ShouldBlockRequest(b: Blocker, host: Option<string>) returns (block: bool)
    ensures block <==> b.isEnabled && host.Some? && BlocksHost(b.blockedDomains, host.value)
  {
    if !b.isEnabled || host.None? {
      return false;
    }
    var h := host.value;
    if h in b.blockedDomains {
      return true;
    }
    var n := 0;
    while n < |b.blockedDomains|
      invariant 0 <= n <= |b.blockedDomains|
      invariant forall i :: 0 <= i < n ==> !EndsWith(h, "." + b.blockedDomains[i])
    {
      if EndsWith(h, "." + b.blockedDomains[n]) {
        return true;
      }
      n := n + 1;
    }
    return false;
  }

  /** The subdomain test is a suffix test at a dot: a blocked `ads.com`
      blocks `x.ads.com`, which isDomainBlocked does not report, and does not
      block `myads.com`. */
  method SubdomainMatching() returns (sub: bool, lookalike: bool)
    ensures sub && !lookalike
    ensures !IsDomainBlocked(Block(Toggle(Initial, true), "ads.com"), "x.ads.com")
  {
    var b := Block(Toggle(Initial, true), "ads.com");
    assert b.blockedDomains == ["ads.com"];
    assert EndsWith("x.ads.com", "." + "ads.com");
    sub := ShouldBlockRequest(b, Some("x.ads.com"));
    assert "myads.com"[1] != ".ads.com"[0];
    assert !EndsWith("myads.com", "." + "ads.com");
    lookalike := ShouldBlockRequest(b, Some("myads.com"));
  }
}
