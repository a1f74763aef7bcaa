/**
  `ActiveDirectoryHelper` (active_directory_helper.py): the directory
  lookups of a user's location, behind a cache with a time to live.

  The LDAP connection is abstracted: whether binding succeeds is a
  parameter of the constructor, the directory is a search function from a
  search base and a filter to an outcome, and the clock is an integer
  parameter of each lookup (seconds).
*/
module DirectoryHelper {
  import opened Wrappers
  import opened Text

  // ===========================================================================
  // Entries and the attributes taken from them
  // ===========================================================================

  /** A directory entry: attribute name to value. An attribute that is
      absent and one whose value is empty are alike (both falsy). */
  type Entry = map<string, string>

  /** The value of an attribute, empty when absent. */
  function Attr(e: Entry, name: string): string {
    if name in e then e[name] else ""
  }

  /** The keys of the dictionaries `_extract_user_info` builds. */
  datatype Key = FullName | Username | Office | City | State | Country | Department | Location

  /** A dictionary as built by `_extract_user_info` and returned by `_search_user`. */
  type Info = map<Key, string>

  /** `info.get(key, default)` */
  function Get(info: Info, key: Key, default: string): string {
    if key in info then info[key] else default
  }

  /** The office, the city and the state, those that are present, in that order. */
  function LocationParts(e: Entry): (parts: seq<string>)
    ensures |parts| <= 3
    ensures forall k :: 0 <= k < |parts| ==> parts[k] != ""
  {
    (if Attr(e, "physicalDeliveryOfficeName") != "" then [Attr(e, "physicalDeliveryOfficeName")] else []) +
    (if Attr(e, "l") != "" then [Attr(e, "l")] else []) +
    (if Attr(e, "st") != "" then [Attr(e, "st")] else [])
  }

  /** `co`, else `c`, else nothing. */
  function CountryOf(e: Entry): string {
    if Attr(e, "co") != "" then Attr(e, "co") else Attr(e, "c")
  }

  /** `_extract_user_info`: the names, the location attributes that are
      present, and the location string. */
  function ExtractUserInfo(e: Entry): (info: Info)
    ensures FullName in info && Username in info && Location in info
  {
    var parts := LocationParts(e);
    var country := CountryOf(e);
    var office, city, state := Attr(e, "physicalDeliveryOfficeName"), Attr(e, "l"), Attr(e, "st");
    var department := Attr(e, "department");
    var i0 := map[FullName := if Attr(e, "displayName") != "" then Attr(e, "displayName") else Attr(e, "cn"),
                  Username := Attr(e, "sAMAccountName")];
    var i1 := if office != "" then i0[Office := office] else i0;
    var i2 := if city != "" then i1[City := city] else i1;
    var i3 := if state != "" then i2[State := state] else i2;
    var i4 := if country != "" then i3[Country := country] else i3;
    var i5 := if department != "" then i4[Department := department] else i4;
    i5[Location := if parts != [] then Join(parts, " - ") else if country != "" then country else "Unknown"]
  }

  /** The optional keys are there exactly when their attributes are present. */
  lemma ExtractedKeys(e: Entry)
    ensures var info := ExtractUserInfo(e);
      && (Office in info <==> Attr(e, "physicalDeliveryOfficeName") != "")
      && (City in info <==> Attr(e, "l") != "")
      && (State in info <==> Attr(e, "st") != "")
      && (Country in info <==> CountryOf(e) != "")
      && (Department in info <==> Attr(e, "department") != "")
  {
  }

  /** Joining non-empty pieces gives a non-empty text that starts with the first. */
  lemma JoinStarts(parts: seq<string>, sep: string)
    requires |parts| > 0
    ensures |Join(parts, sep)| >= |parts[0]| && Join(parts, sep)[..|parts[0]|] == parts[0]
  {
  }

  /** The location is the office, city and state joined by ` - ` when any
      of them is present, else the country, else `Unknown`; it is never empty.
      The full name is the display name, else the common name. */
  lemma ExtractedLocation(e: Entry)
    ensures var loc := ExtractUserInfo(e)[Location]; var parts := LocationParts(e);
      && (parts != [] ==> loc == Join(parts, " - "))
      && (parts == [] && CountryOf(e) != "" ==> loc == CountryOf(e))
      && (parts == [] && CountryOf(e) == "" ==> loc == "Unknown")
      && loc != ""
  {
    var parts := LocationParts(e);
    if parts != [] {
      JoinStarts(parts, " - ");
    }
  }

  /** The full name is the display name, else the common name; the username
      is the account name. */
  lemma ExtractedNames(e: Entry)
    ensures var info := ExtractUserInfo(e);
      && info[FullName] == (if Attr(e, "displayName") != "" then Attr(e, "displayName") else Attr(e, "cn"))
      && info[Username] == Attr(e, "sAMAccountName")
  {
  }

  /** An office, when present, comes first in the location. */
  lemma OfficeFirst(e: Entry)
    requires Attr(e, "physicalDeliveryOfficeName") != ""
    ensures var o := Attr(e, "physicalDeliveryOfficeName"); var loc := ExtractUserInfo(e)[Location];
      |loc| >= |o| && loc[..|o|] == o
  {
    ExtractedLocation(e);
    JoinStarts(LocationParts(e), " - ");
  }

  // ===========================================================================
  // The search
  // ===========================================================================

  /** `"DC=" + domain.replace('.', ',DC=')` */
  function DomainBase(domain: string): string {
    "DC=" + Replace(domain, '.', ",DC=")
  }

  /** The search bases, in the order they are tried. */
  function SearchBases(domain: string): (bs: seq<string>)
    ensures |bs| == 3 && bs[2] == ""
  {
    [DomainBase(domain), "CN=Users," + DomainBase(domain), ""]
  }

  /** The search filters, in the order they are tried; the username is
      put in as it is, without escaping. */
  function SearchFilters(username: string, domain: string): (fs: seq<string>)
    ensures |fs| == 4
  {
    ["(sAMAccountName=" + username + ")", "(userPrincipalName=" + username + "@" + domain + ")",
     "(cn=" + username + ")", "(displayName=" + username + ")"]
  }

  /** Each filter holds the username verbatim after its attribute name. */
  lemma FiltersHoldUsername(username: string, domain: string)
    ensures var fs := SearchFilters(username, domain); var n := |username|;
      && fs[0][16..16 + n] == username && fs[1][19..19 + n] == username
      && fs[2][4..4 + n] == username && fs[3][13..13 + n] == username
  {
  }

  /** The relative distinguished names of the labels of a domain name. */
  function DomainComponents(labels: seq<string>): (dcs: seq<string>)
    ensures |dcs| == |labels|
    decreases |labels|
  {
    if labels == [] then [] else ["DC=" + labels[0]] + DomainComponents(labels[1..])
  }

  lemma {:induction false} JoinComponents(labels: seq<string>)
    requires |labels| > 0
    ensures "DC=" + Join(labels, ",DC=") == Join(DomainComponents(labels), ",")
    decreases |labels|
  {
    if |labels| > 1 {
      JoinComponents(labels[1..]);
      var dcs := DomainComponents(labels);
      assert dcs[1..] == DomainComponents(labels[1..]);
      assert "DC=" + Join(labels, ",DC=") == ("DC=" + labels[0]) + "," + ("DC=" + Join(labels[1..], ",DC="));
    }
  }

  /** The first search base is the domain name written as a distinguished
      name of domain components, one `DC=` per label, as in section 2 of
      RFC 2247. */
  lemma DomainBaseComponents(labels: seq<string>)
    requires |labels| > 0
    requires forall k, j :: 0 <= k < |labels| && 0 <= j < |labels[k]| ==> labels[k][j] != '.'
    ensures DomainBase(Join(labels, ".")) == Join(DomainComponents(labels), ",")
  {
    ReplaceJoin(labels, '.', ",DC=");
    JoinComponents(labels);
  }

  /** What one search call gives: entries, or an exception. */
  datatype Outcome = Entries(entries: seq<Entry>) | Raised

  /** The search hits: it gives at least one entry. */
  predicate Hit(o: Outcome) {
    o.Entries? && |o.entries| > 0
  }

  /** The first entry found with `base` by the first filter that hits;
      filters that raise or find nothing are skipped. */
  function FirstWithBase(base: string, filters: seq<string>, search: (string, string) -> Outcome): Option<Entry>
    decreases |filters|
  {
    if filters == [] then None
    else
      var o := search(base, filters[0]);
      if Hit(o) then Some(o.entries[0]) else FirstWithBase(base, filters[1..], search)
  }

  /** The first entry found, bases in order and, for each, filters in order. */
  function FirstHit(bases: seq<string>, filters: seq<string>, search: (string, string) -> Outcome): Option<Entry>
    decreases |bases|
  {
    if bases == [] then None
    else match FirstWithBase(bases[0], filters, search)
      case Some(e) => Some(e)
      case None => FirstHit(bases[1..], filters, search)
  }

  /** With one base: nothing is found exactly when no filter hits, and what is
      found is the first entry of the first filter that hits. */
  lemma {:induction false} FirstWithBaseIs(base: string, filters: seq<string>, search: (string, string) -> Outcome)
    ensures FirstWithBase(base, filters, search).None? <==>
      forall f :: 0 <= f < |filters| ==> !Hit(search(base, filters[f]))
    ensures FirstWithBase(base, filters, search).Some? ==>
      exists f :: 0 <= f < |filters| && Hit(search(base, filters[f])) &&
        FirstWithBase(base, filters, search).value == search(base, filters[f]).entries[0] &&
        forall f' :: 0 <= f' < f ==> !Hit(search(base, filters[f']))
    decreases |filters|
  {
    if filters != [] && !Hit(search(base, filters[0])) {
      FirstWithBaseIs(base, filters[1..], search);
      forall f | 0 < f < |filters| ensures filters[1..][f - 1] == filters[f] { }
      if FirstWithBase(base, filters, search).Some? {
        var f :| 0 <= f < |filters[1..]| && Hit(search(base, filters[1..][f])) &&
          FirstWithBase(base, filters[1..], search).value == search(base, filters[1..][f]).entries[0] &&
          forall f' :: 0 <= f' < f ==> !Hit(search(base, filters[1..][f']));
        assert filters[1..][f] == filters[f + 1];
        forall f' | 0 <= f' < f + 1 ensures !Hit(search(base, filters[f'])) {
          if f' > 0 {
            assert filters[1..][f' - 1] == filters[f'];
          }
        }
      }
    }
  }

  /** Pair `(b', f')` comes before pair `(b, f)`: bases outer, filters inner. */
  predicate Before(b': int, f': int, b: int, f: int) {
    b' < b || (b' == b && f' < f)
  }

  /** Misses on the first base and on the pairs of the other bases before
      `(b, f)` are misses on all pairs before `(b + 1, f)`. */
  lemma EarlierMiss(bases: seq<string>, filters: seq<string>, search: (string, string) -> Outcome, b: nat, f: nat)
    requires b + 1 < |bases|
    requires forall f' :: 0 <= f' < |filters| ==> !Hit(search(bases[0], filters[f']))
    requires forall b', f' :: 0 <= b' < |bases[1..]| && 0 <= f' < |filters| && Before(b', f', b, f) ==>
      !Hit(search(bases[1..][b'], filters[f']))
    ensures forall b', f' :: 0 <= b' < |bases| && 0 <= f' < |filters| && Before(b', f', b + 1, f) ==>
      !Hit(search(bases[b'], filters[f']))
  {
    forall b', f' | 0 <= b' < |bases| && 0 <= f' < |filters| && Before(b', f', b + 1, f)
      ensures !Hit(search(bases[b'], filters[f']))
    {
      if b' > 0 {
        assert bases[1..][b' - 1] == bases[b'] && Before(b' - 1, f', b, f);
      }
    }
  }

  /** Nothing is found exactly when no pair hits, and what is found is the
      first entry of the first pair that hits, bases outer and filters inner. */
  lemma {:induction false} FirstHitIs(bases: seq<string>, filters: seq<string>, search: (string, string) -> Outcome)
    ensures FirstHit(bases, filters, search).None? <==>
      forall b, f :: 0 <= b < |bases| && 0 <= f < |filters| ==> !Hit(search(bases[b], filters[f]))
    ensures FirstHit(bases, filters, search).Some? ==>
      exists b, f :: 0 <= b < |bases| && 0 <= f < |filters| && Hit(search(bases[b], filters[f])) &&
        FirstHit(bases, filters, search).value == search(bases[b], filters[f]).entries[0] &&
        forall b', f' :: 0 <= b' < |bases| && 0 <= f' < |filters| && Before(b', f', b, f) ==>
          !Hit(search(bases[b'], filters[f']))
    decreases |bases|
  {
    if bases != [] {
      FirstWithBaseIs(bases[0], filters, search);
      if FirstWithBase(bases[0], filters, search).None? {
        FirstHitIs(bases[1..], filters, search);
        forall b | 0 < b < |bases| ensures bases[1..][b - 1] == bases[b] { }
        if FirstHit(bases, filters, search).Some? {
          var b, f :| 0 <= b < |bases[1..]| && 0 <= f < |filters| && Hit(search(bases[1..][b], filters[f])) &&
            FirstHit(bases[1..], filters, search).value == search(bases[1..][b], filters[f]).entries[0] &&
            forall b', f' :: 0 <= b' < |bases[1..]| && 0 <= f' < |filters| && Before(b', f', b, f) ==>
              !Hit(search(bases[1..][b'], filters[f']));
          assert bases[1..][b] == bases[b + 1];
          EarlierMiss(bases, filters, search, b, f);
        }
      } else {
        var f :| 0 <= f < |filters| && Hit(search(bases[0], filters[f])) &&
          FirstWithBase(bases[0], filters, search).value == search(bases[0], filters[f]).entries[0] &&
          forall f' :: 0 <= f' < f ==> !Hit(search(bases[0], filters[f']));
        assert FirstHit(bases, filters, search).value == search(bases[0], filters[f]).entries[0];
        assert forall b', f' :: 0 <= b' < |bases| && 0 <= f' < |filters| && Before(b', f', 0, f) ==>
          !Hit(search(bases[b'], filters[f']));
      }
    }
  }

  /** The nested loops of `_search_user` over bases and filters: they stop
      at the first pair that finds entries and skip pairs that raise. */
  method FindEntry(bases: seq<string>, filters: seq<string>, search: (string, string) -> Outcome)
    returns (found: Option<Entry>)
    ensures found == FirstHit(bases, filters, search)
  {
    for b := 0 to |bases|
      invariant FirstHit(bases[b..], filters, search) == FirstHit(bases, filters, search)
    {
      assert bases[b..][0] == bases[b] && bases[b..][1..] == bases[b + 1..];
      for f := 0 to |filters|
        invariant FirstWithBase(bases[b], filters[f..], search) == FirstWithBase(bases[b], filters, search)
      {
        assert filters[f..][0] == filters[f] && filters[f..][1..] == filters[f + 1..];
        var o := search(bases[b], filters[f]);
        if o.Entries? && |o.entries| > 0 {
          return Some(o.entries[0]);
        }
      }
      assert filters[|filters|..] == [];
    }
    assert bases[|bases|..] == [];
    return None;
  }

  /** What `_search_user` returns: nothing when the helper is disabled or
      has no connection, else the first hit. */
  function SearchResult(enabled: bool, connected: bool, domain: string, username: string,
                        search: (string, string) -> Outcome): Info
  {
    if !enabled || !connected then map[]
    else match FirstHit(SearchBases(domain), SearchFilters(username, domain), search)
      case Some(e) => ExtractUserInfo(e)
      case None => map[]
  }

  /** The `UserInfo` dataclass. */
  datatype UserInfo = UserInfo(username: string, fullName: string, location: string, department: string,
                               office: string, city: string, country: string)

  /** The `UserInfo` built from a cached or fresh dictionary. */
  function UserInfoOf(username: string, info: Info): (u: UserInfo)
    ensures u.username == username && u.location == Get(info, Location, "Unknown")
  {
    UserInfo(username, Get(info, FullName, ""), Get(info, Location, "Unknown"), Get(info, Department, ""),
             Get(info, Office, ""), Get(info, City, ""), Get(info, Country, ""))
  }

  /** What a caller of `get_user_info` sees of an entry: every optional field
      is its attribute, or empty when the attribute is absent; the full name is
      empty only when both name attributes are; the location is never empty and
      is `Unknown` when no location attribute is present. Besides the two
      names, the dictionary holds no empty value. */
  lemma ExtractedUserInfo(username: string, e: Entry)
    ensures var info := ExtractUserInfo(e); var r := UserInfoOf(username, info);
      && r.office == Attr(e, "physicalDeliveryOfficeName") && r.city == Attr(e, "l")
      && r.country == CountryOf(e) && r.department == Attr(e, "department")
      && (r.fullName == "" <==> Attr(e, "displayName") == "" && Attr(e, "cn") == "")
      && r.location == info[Location] && r.location != ""
      && (LocationParts(e) == [] && CountryOf(e) == "" ==> r.location == "Unknown")
      && forall k :: k in info && k != FullName && k != Username ==> info[k] != ""
  {
    ExtractedKeys(e);
    ExtractedNames(e);
    ExtractedLocation(e);
  }

  /** A cache entry: the location, when it was stored, and the full dictionary. */
  datatype CacheEntry = CacheEntry(location: string, timestamp: int, fullInfo: Info)

  /** The entry that a lookup stores. */
  function EntryFor(info: Info, now: int): (c: CacheEntry)
    ensures c.location == Get(info, Location, "Unknown") && c.timestamp == now && c.fullInfo == info
  {
    CacheEntry(Get(info, Location, "Unknown"), now, info)
  }

  const CacheTimeout: int := 300

  /** The entry for the user exists and is younger than the timeout. */
  predicate Fresh(cache: map<string, CacheEntry>, username: string, now: int) {
    username in cache && now - cache[username].timestamp < CacheTimeout
  }

  /** A stored entry stays fresh for the full timeout, and not longer. */
  lemma FreshWindow(cache: map<string, CacheEntry>, info: Info, username: string, t: int, now: int)
    ensures Fresh(cache[username := EntryFor(info, t)], username, now) <==> now < t + CacheTimeout
  {
  }

  /** A failed lookup is remembered as `Unknown`. */
  lemma EmptyResultUnknown(now: int)
    ensures EntryFor(map[], now).location == "Unknown"
  {
  }

  class ActiveDirectoryHelper {
    const domain: string
    var enabled: bool
    /** A bound connection exists. */
    var connected: bool
    var userCache: map<string, CacheEntry>
    /** The number of `_search_user` calls so far: one per lookup that finds
        no fresh cache entry, whether or not a connection exists and however
        many bases and filters the call tries. */
    ghost var searches: nat

    /** Every cached location is the one its full dictionary gives, so the
        two lookups report the same location from the same entry. */
    ghost predicate Valid()
      reads this
    {
      forall u :: u in userCache ==> userCache[u].location == Get(userCache[u].fullInfo, Location, "Unknown")
    }

    /** `enabled` starts as the availability of the LDAP modules; when they
        are available, the connection is set up at once. Whether binding
        and the test query succeed is `binds`. */
    constructor(domain: string, adAvailable: bool, binds: bool)
      ensures this.domain == domain && userCache == map[] && searches == 0 && Valid()
      ensures enabled <==> adAvailable && domain != "localhost" && domain != "" && binds
      ensures connected == enabled
    {
      this.domain := domain;
      enabled := adAvailable;
      connected := false;
      userCache := map[];
      searches := 0;
      new;
      if enabled {
        var _ := InitializeConnection(binds);
      }
    }

    /** `_initialize_connection`: outside a domain, or when bind or test
        fail, the helper disables itself; it never enables itself. */
    method InitializeConnection(binds: bool) returns (ok: bool)
      modifies this
      ensures ok <==> old(enabled) && domain != "localhost" && domain != "" && binds
      ensures enabled == (old(enabled) && ok)
      ensures connected == (ok || old(connected))
      ensures userCache == old(userCache) && searches == old(searches)
    {
      if !enabled {
        return false;
      }
      if domain == "localhost" || domain == "" {
        enabled := false;
        return false;
      }
      if binds {
        connected := true;
        return true;
      }
      enabled := false;
      return false;
    }

    /** `_search_user`: outside a working connection nothing is searched;
        otherwise the first entry found is converted. */
    method SearchUser(username: string, search: (string, string) -> Outcome) returns (info: Info)
      ensures info == SearchResult(enabled, connected, domain, username, search)
    {
      if !enabled || !connected {
        return map[];
      }
      var found := FindEntry(SearchBases(domain), SearchFilters(username, domain), search);
      match found
      case Some(e) => info := ExtractUserInfo(e);
      case None => info := map[];
    }

    /** `get_user_location` at time `now`. */
    method GetUserLocation(username: string, now: int, search: (string, string) -> Outcome) returns (location: string)
      requires Valid()
      modifies this
      ensures Valid()
      ensures enabled == old(enabled) && connected == old(connected)
      ensures !enabled ==> location == "AD_Disabled" && userCache == old(userCache) && searches == old(searches)
      ensures enabled && Fresh(old(userCache), username, now) ==>
        location == old(userCache)[username].location && userCache == old(userCache) && searches == old(searches)
      ensures enabled && !Fresh(old(userCache), username, now) ==>
        var info := SearchResult(enabled, connected, domain, username, search);
        && location == Get(info, Location, "Unknown")
        && userCache == old(userCache)[username := EntryFor(info, now)]
        && searches == old(searches) + 1
    {
      if !enabled {
        return "AD_Disabled";
      }
      if username in userCache {
        var entry := userCache[username];
        if now - entry.timestamp < CacheTimeout {
          return entry.location;
        }
      }
      var userInfo := SearchUser(username, search);
      searches := searches + 1;
      location := if Location in userInfo then userInfo[Location] else "Unknown";
      userCache := userCache[username := CacheEntry(location, now, userInfo)];
    }

    /** `get_user_info` at time `now`. */
    method GetUserInfo(username: string, now: int, search: (string, string) -> Outcome) returns (info: UserInfo)
      requires Valid()
      modifies this
      ensures Valid()
      ensures enabled == old(enabled) && connected == old(connected)
      ensures !enabled ==>
        info == UserInfo(username, "", "AD_Disabled", "", "", "", "") && userCache == old(userCache) && searches == old(searches)
      ensures enabled && Fresh(old(userCache), username, now) ==>
        info == UserInfoOf(username, old(userCache)[username].fullInfo)
        && info.location == old(userCache)[username].location
        && userCache == old(userCache) && searches == old(searches)
      ensures enabled && !Fresh(old(userCache), username, now) ==>
        var found := SearchResult(enabled, connected, domain, username, search);
        && info == UserInfoOf(username, found)
        && userCache == old(userCache)[username := EntryFor(found, now)]
        && searches == old(searches) + 1
    {
      if !enabled {
        return UserInfo(username, "", "AD_Disabled", "", "", "", "");
      }
      if username in userCache {
        var entry := userCache[username];
        if now - entry.timestamp < CacheTimeout {
          return UserInfoOf(username, entry.fullInfo);
        }
      }
      var userInfo := SearchUser(username, search);
      searches := searches + 1;
      userCache := userCache[username := CacheEntry(Get(userInfo, Location, "Unknown"), now, userInfo)];
      return UserInfoOf(username, userInfo);
    }

    /** `clear_cache` */
    method ClearCache()
      modifies this
      ensures userCache == map[] && Valid()
      ensures enabled == old(enabled) && connected == old(connected) && searches == old(searches)
    {
      userCache := map[];
    }

    /** `is_enabled` */
    method IsEnabled() returns (r: bool)
      ensures r == enabled
    {
      return enabled;
    }
  }
}
