/**
  The metric part of `FlexLMExporter.collect_metrics` (flexlm_exporter.py):
  from the return code of `lmstat` and the parsed report to the gauges.
  Each Prometheus gauge is a map from its label values to the value last
  set for them, and the error counter is a number. A gauge is only ever
  set: label values of earlier scrapes keep their last value.
*/
module Exporter {
  import opened Text
  import opened LmstatReport
  import opened LmstatParser

  // ===========================================================================
  // Gauges
  // ===========================================================================

  /** The gauge after the writes, one after the other. */
  function Put<K>(m: map<K, int>, ws: seq<(K, int)>): map<K, int>
    decreases |ws|
  {
    if ws == [] then m else Put(m, ws[..|ws| - 1])[ws[|ws| - 1].0 := ws[|ws| - 1].1]
  }

  /** The label values the writes set. */
  function Written<K>(ws: seq<(K, int)>): set<K>
    decreases |ws|
  {
    if ws == [] then {} else Written(ws[..|ws| - 1]) + {ws[|ws| - 1].0}
  }

  lemma PutSnoc<K>(m: map<K, int>, ws: seq<(K, int)>, w: (K, int))
    ensures Put(m, ws + [w]) == Put(m, ws)[w.0 := w.1]
  {
    assert (ws + [w])[..|ws|] == ws;
  }

  lemma {:induction false} PutAppend<K>(m: map<K, int>, ws: seq<(K, int)>, vs: seq<(K, int)>)
    ensures Put(m, ws + vs) == Put(Put(m, ws), vs)
    decreases |vs|
  {
    if vs == [] {
      assert ws + vs == ws;
    } else {
      var n := |vs| - 1;
      PutAppend(m, ws, vs[..n]);
      assert (ws + vs)[..|ws| + n] == ws + vs[..n];
    }
  }

  /** Setting never removes a label set: the keys afterwards are the keys
      before and the keys written. */
  lemma {:induction false} PutKeys<K>(m: map<K, int>, ws: seq<(K, int)>)
    ensures Put(m, ws).Keys == m.Keys + Written(ws)
    decreases |ws|
  {
    if ws != [] {
      PutKeys(m, ws[..|ws| - 1]);
    }
  }

  /** A label set no write names keeps its value. */
  lemma {:induction false} PutOther<K>(m: map<K, int>, ws: seq<(K, int)>, k: K)
    requires k in m && k !in Written(ws)
    ensures k in Put(m, ws) && Put(m, ws)[k] == m[k]
    decreases |ws|
  {
    if ws != [] {
      PutOther(m, ws[..|ws| - 1], k);
    }
  }

  /** The last write of a label set decides its value. */
  lemma {:induction false} PutLast<K>(m: map<K, int>, ws: seq<(K, int)>, i: nat)
    requires i < |ws|
    requires forall j :: i < j < |ws| ==> ws[j].0 != ws[i].0
    ensures ws[i].0 in Put(m, ws) && Put(m, ws)[ws[i].0] == ws[i].1
    decreases |ws|
  {
    var n := |ws| - 1;
    if i < n {
      var init := ws[..n];
      assert forall j :: i < j < |init| ==> init[j].0 != init[i].0 by {
        forall j | i < j < |init| ensures init[j].0 != init[i].0 {
          assert init[j] == ws[j];
        }
      }
      PutLast(m, init, i);
    }
  }

  /** When every write of a label set gives it the same value, that is its value. */
  lemma {:induction false} PutConstant<K>(m: map<K, int>, ws: seq<(K, int)>, k: K, v: int)
    requires k in Written(ws)
    requires forall j :: 0 <= j < |ws| && ws[j].0 == k ==> ws[j].1 == v
    ensures k in Put(m, ws) && Put(m, ws)[k] == v
    decreases |ws|
  {
    var n := |ws| - 1;
    if ws[n].0 != k {
      var init := ws[..n];
      assert forall j :: 0 <= j < |init| && init[j].0 == k ==> init[j].1 == v by {
        forall j | 0 <= j < |init| && init[j].0 == k ensures init[j].1 == v {
          assert init[j] == ws[j];
        }
      }
      PutConstant(m, init, k, v);
    }
  }

  // ===========================================================================
  // Label sets and the writes of one scrape
  // ===========================================================================

  /** `f"{self.license_server}:{self.port}"` */
  function ServerLabel(server: string, port: int): (l: string)
    ensures |l| > |server| + 1 && l[..|server|] == server && l[|server|] == ':'
  {
    server + ":" + ShowInt(port)
  }

  /** After the colon the label holds the port in decimal: its digits give the
      port back, behind a `-` when the port is negative. */
  lemma ServerLabelPort(server: string, port: int)
    ensures var l := ServerLabel(server, port);
      && (port >= 0 ==> AllOf(Digit, l[|server| + 1..]) && ParseNat(l[|server| + 1..]) == port)
      && (port < 0 ==> l[|server| + 1] == '-' && AllOf(Digit, l[|server| + 2..]) &&
                       ParseNat(l[|server| + 2..]) == -port)
  {
    var l := ServerLabel(server, port);
    var digits := ShowNat(if port < 0 then -port else port);
    ParseShowNat(if port < 0 then -port else port);
    assert port >= 0 ==> l[|server| + 1..] == digits;
    assert port < 0 ==> l[|server| + 2..] == digits;
  }

  /** Every feature is reported under this vendor. */
  const Vendor := "solidworks"

  datatype DaemonKey = DaemonKey(server: string, daemon: string, version: string)
  datatype FeatureKey = FeatureKey(server: string, vendor: string, feature: string)
  datatype UserKey = UserKey(server: string, vendor: string, feature: string, user: string, hostname: string, display: string)
  datatype HostKey = HostKey(server: string, hostname: string)

  /** `daemon_up`: 1 for a daemon whose status is `UP`. */
  function DaemonWrites(l: string, ds: seq<Daemon>): (ws: seq<(DaemonKey, int)>)
    ensures |ws| == |ds|
    decreases |ds|
  {
    if ds == [] then []
    else
      var d := ds[|ds| - 1];
      DaemonWrites(l, ds[..|ds| - 1]) + [(DaemonKey(l, d.name, d.version), if d.status == "UP" then 1 else 0)]
  }

  /** Write `j` of `daemon_up` names daemon `j` and sets 1 exactly when it is `UP`. */
  lemma {:induction false} DaemonWritesAre(l: string, ds: seq<Daemon>)
    ensures forall j :: 0 <= j < |ds| ==>
      DaemonWrites(l, ds)[j] == (DaemonKey(l, ds[j].name, ds[j].version), if ds[j].status == "UP" then 1 else 0)
    decreases |ds|
  {
    if ds != [] {
      DaemonWritesAre(l, ds[..|ds| - 1]);
    }
  }

  /** The three per-feature gauges. */
  datatype FeatureGauge = Total | Used | Available

  function Reading(g: FeatureGauge, f: Feature): int {
    match g
    case Total => f.total
    case Used => f.used
    case Available => f.available
  }

  function FeatureWrites(l: string, fs: seq<Feature>, g: FeatureGauge): (ws: seq<(FeatureKey, int)>)
    ensures |ws| == |fs|
    decreases |fs|
  {
    if fs == [] then []
    else
      var f := fs[|fs| - 1];
      FeatureWrites(l, fs[..|fs| - 1], g) + [(FeatureKey(l, Vendor, f.name), Reading(g, f))]
  }

  function UserKeyOf(l: string, f: Feature, u: UserRecord): UserKey {
    UserKey(l, Vendor, f.name, u.username, u.hostname, u.display)
  }

  /** `user_licenses` for the users of one feature: 1 each. */
  function UserWritesOf(l: string, f: Feature, us: seq<UserRecord>): (ws: seq<(UserKey, int)>)
    ensures |ws| == |us|
    decreases |us|
  {
    if us == [] then [] else UserWritesOf(l, f, us[..|us| - 1]) + [(UserKeyOf(l, f, us[|us| - 1]), 1)]
  }

  /** `user_licenses` for all features, feature after feature. */
  function UserWrites(l: string, fs: seq<Feature>): seq<(UserKey, int)>
    decreases |fs|
  {
    if fs == [] then [] else UserWrites(l, fs[..|fs| - 1]) + UserWritesOf(l, fs[|fs| - 1], fs[|fs| - 1].users)
  }

  // ===========================================================================
  // Host counts
  // ===========================================================================

  /** The number of user records with the hostname. */
  function Count(users: seq<UserRecord>, h: string): nat
    decreases |users|
  {
    if users == [] then 0
    else Count(users[..|users| - 1], h) + (if users[|users| - 1].hostname == h then 1 else 0)
  }

  /** The hostnames of the records, each once, in the order they first
      appear (the insertion order of the `host_counts` dictionary). */
  function Hosts(users: seq<UserRecord>): seq<string>
    decreases |users|
  {
    if users == [] then []
    else
      var hs := Hosts(users[..|users| - 1]);
      var h := users[|users| - 1].hostname;
      if h in hs then hs else hs + [h]
  }

  predicate Distinct(hs: seq<string>) {
    forall i, j :: 0 <= i < j < |hs| ==> hs[i] != hs[j]
  }

  /** The hosts are the records' hostnames, without repetition. */
  lemma {:induction false} HostsAre(users: seq<UserRecord>)
    ensures Distinct(Hosts(users))
    ensures forall h :: h in Hosts(users) <==> Count(users, h) > 0
    decreases |users|
  {
    if users != [] {
      HostsAre(users[..|users| - 1]);
    }
  }

  /** `host_licenses`: the count of each host, in dictionary order. */
  function HostWritesOf(l: string, hs: seq<string>, users: seq<UserRecord>): (ws: seq<(HostKey, int)>)
    ensures |ws| == |hs|
    decreases |hs|
  {
    if hs == [] then [] else HostWritesOf(l, hs[..|hs| - 1], users) + [(HostKey(l, hs[|hs| - 1]), Count(users, hs[|hs| - 1]))]
  }

  function HostWrites(l: string, users: seq<UserRecord>): seq<(HostKey, int)> {
    HostWritesOf(l, Hosts(users), users)
  }

  /** The counts of the given hosts, added up. */
  function CountSum(users: seq<UserRecord>, hs: seq<string>): nat
    decreases |hs|
  {
    if hs == [] then 0 else CountSum(users, hs[..|hs| - 1]) + Count(users, hs[|hs| - 1])
  }

  /** One more record adds one to the sum over distinct hosts exactly when
      its hostname is among them. */
  lemma {:induction false} CountSumSnoc(users: seq<UserRecord>, u: UserRecord, hs: seq<string>)
    ensures CountSum(users + [u], hs) == CountSum(users, hs) + (if u.hostname in hs then 1 else 0)
    requires Distinct(hs)
    decreases |hs|
  {
    assert (users + [u])[..|users|] == users;
    if hs != [] {
      var init := hs[..|hs| - 1];
      assert Distinct(init) by {
        forall i, j | 0 <= i < j < |init| ensures init[i] != init[j] {
          assert init[i] == hs[i] && init[j] == hs[j];
        }
      }
      CountSumSnoc(users, u, init);
      assert u.hostname in hs <==> u.hostname in init || u.hostname == hs[|hs| - 1];
      if u.hostname == hs[|hs| - 1] {
        assert hs[|hs| - 1] !in init by {
          forall i | 0 <= i < |init| ensures init[i] != hs[|hs| - 1] {
            assert init[i] == hs[i];
          }
        }
      }
    }
  }

  /** The host counts add up to the number of user records. */
  lemma {:induction false} HostCountsSum(users: seq<UserRecord>)
    ensures CountSum(users, Hosts(users)) == |users|
    decreases |users|
  {
    if users != [] {
      var init := users[..|users| - 1];
      var u := users[|users| - 1];
      assert users == init + [u];
      HostCountsSum(init);
      HostsAre(init);
      var hs := Hosts(init);
      CountSumSnoc(init, u, hs);
      if u.hostname !in hs {
        assert hs + [u.hostname] == Hosts(users);
        assert (hs + [u.hostname])[..|hs|] == hs;
        assert Count(init, u.hostname) == 0;
        assert CountSum(users, Hosts(users)) == CountSum(users, hs) + Count(users, u.hostname);
      }
    }
  }

  /** The loop that fills `host_counts`: the hostnames in insertion order and
      the count of each. */
  method CountHosts(users: seq<UserRecord>) returns (order: seq<string>, counts: map<string, int>)
    ensures order == Hosts(users)
    ensures forall h :: h in counts <==> h in order
    ensures forall h :: h in counts ==> counts[h] == Count(users, h)
  {
    order, counts := [], map[];
    for i := 0 to |users|
      invariant order == Hosts(users[..i])
      invariant forall h :: h in counts <==> h in order
      invariant forall h :: h in counts ==> counts[h] == Count(users[..i], h)
    {
      var hostname := users[i].hostname;
      assert users[..i + 1][..i] == users[..i];
      HostsAre(users[..i]);
      if hostname in counts {
        counts := counts[hostname := counts[hostname] + 1];
      } else {
        counts := counts[hostname := 1];
        order := order + [hostname];
      }
    }
    assert users[..|users|] == users;
  }

  // ===========================================================================
  // What the gauges hold after a scrape
  // ===========================================================================

  lemma {:induction false} WrittenAppend<K>(ws: seq<(K, int)>, vs: seq<(K, int)>)
    ensures Written(ws + vs) == Written(ws) + Written(vs)
    decreases |vs|
  {
    if vs == [] {
      assert ws + vs == ws;
    } else {
      var n := |vs| - 1;
      WrittenAppend(ws, vs[..n]);
      assert (ws + vs)[..|ws| + n] == ws + vs[..n];
    }
  }

  lemma {:induction false} WrittenAt<K>(ws: seq<(K, int)>, i: nat)
    requires i < |ws|
    ensures ws[i].0 in Written(ws)
    decreases |ws|
  {
    if i < |ws| - 1 {
      WrittenAt(ws[..|ws| - 1], i);
    }
  }

  lemma {:induction false} FeatureWritesAt(l: string, fs: seq<Feature>, g: FeatureGauge, i: nat)
    requires i < |fs|
    ensures FeatureWrites(l, fs, g)[i] == (FeatureKey(l, Vendor, fs[i].name), Reading(g, fs[i]))
    decreases |fs|
  {
    if i < |fs| - 1 {
      FeatureWritesAt(l, fs[..|fs| - 1], g, i);
    }
  }

  /** A feature that no later feature of the report repeats has its own total,
      used and available counts in the three feature gauges. */
  lemma FeatureGaugeLast(m: map<FeatureKey, int>, l: string, fs: seq<Feature>, g: FeatureGauge, i: nat)
    requires i < |fs|
    requires forall j :: i < j < |fs| ==> fs[j].name != fs[i].name
    ensures FeatureKey(l, Vendor, fs[i].name) in Put(m, FeatureWrites(l, fs, g))
    ensures Put(m, FeatureWrites(l, fs, g))[FeatureKey(l, Vendor, fs[i].name)] == Reading(g, fs[i])
  {
    var ws := FeatureWrites(l, fs, g);
    FeatureWritesAt(l, fs, g, i);
    forall j | i < j < |ws| ensures ws[j].0 != ws[i].0 {
      FeatureWritesAt(l, fs, g, j);
    }
    PutLast(m, ws, i);
  }

  /** After a successful scrape the available gauge of a feature is its
      total gauge minus its used gauge. */
  lemma ScrapedAvailable(mt: map<FeatureKey, int>, mu: map<FeatureKey, int>, ma: map<FeatureKey, int>,
                         l: string, output: string, i: nat)
    requires i < |Parse(output).features|
    requires var fs := Parse(output).features; forall j :: i < j < |fs| ==> fs[j].name != fs[i].name
    ensures var fs := Parse(output).features; var k := FeatureKey(l, Vendor, fs[i].name);
      && k in Put(mt, FeatureWrites(l, fs, Total))
      && k in Put(mu, FeatureWrites(l, fs, Used))
      && k in Put(ma, FeatureWrites(l, fs, Available))
      && Put(ma, FeatureWrites(l, fs, Available))[k] ==
           Put(mt, FeatureWrites(l, fs, Total))[k] - Put(mu, FeatureWrites(l, fs, Used))[k]
  {
    var fs := Parse(output).features;
    ParseConsistent(output);
    FeatureGaugeLast(mt, l, fs, Total, i);
    FeatureGaugeLast(mu, l, fs, Used, i);
    FeatureGaugeLast(ma, l, fs, Available, i);
  }

  lemma {:induction false} UserWritesOfAre(l: string, f: Feature, us: seq<UserRecord>)
    ensures forall j :: 0 <= j < |us| ==> UserWritesOf(l, f, us)[j] == (UserKeyOf(l, f, us[j]), 1)
    decreases |us|
  {
    if us != [] {
      UserWritesOfAre(l, f, us[..|us| - 1]);
    }
  }

  /** Every write of `user_licenses` sets 1. */
  lemma {:induction false} UserWritesOne(l: string, fs: seq<Feature>)
    ensures forall j :: 0 <= j < |UserWrites(l, fs)| ==> UserWrites(l, fs)[j].1 == 1
    decreases |fs|
  {
    if fs != [] {
      var f := fs[|fs| - 1];
      UserWritesOne(l, fs[..|fs| - 1]);
      UserWritesOfAre(l, f, f.users);
    }
  }

  /** Every user record of every feature is written. */
  lemma {:induction false} UserWritten(l: string, fs: seq<Feature>, i: nat, k: nat)
    requires i < |fs| && k < |fs[i].users|
    ensures UserKeyOf(l, fs[i], fs[i].users[k]) in Written(UserWrites(l, fs))
    decreases |fs|
  {
    var n := |fs| - 1;
    var f := fs[n];
    WrittenAppend(UserWrites(l, fs[..n]), UserWritesOf(l, f, f.users));
    if i < n {
      UserWritten(l, fs[..n], i, k);
    } else {
      UserWritesOfAre(l, f, f.users);
      WrittenAt(UserWritesOf(l, f, f.users), k);
    }
  }

  /** Each user record of the report sets its user gauge to 1. */
  lemma UserGaugeOne(m: map<UserKey, int>, l: string, fs: seq<Feature>, i: nat, k: nat)
    requires i < |fs| && k < |fs[i].users|
    ensures UserKeyOf(l, fs[i], fs[i].users[k]) in Put(m, UserWrites(l, fs))
    ensures Put(m, UserWrites(l, fs))[UserKeyOf(l, fs[i], fs[i].users[k])] == 1
  {
    UserWritten(l, fs, i, k);
    UserWritesOne(l, fs);
    PutConstant(m, UserWrites(l, fs), UserKeyOf(l, fs[i], fs[i].users[k]), 1);
  }

  /** Every daemon record the parser collects has status `UP`. */
  lemma {:induction false} DaemonsInUp(lines: seq<string>)
    ensures forall j :: 0 <= j < |DaemonsIn(lines)| ==> DaemonsIn(lines)[j].status == "UP"
    decreases |lines|
  {
    if lines != [] {
      DaemonsInUp(lines[..|lines| - 1]);
    }
  }

  /** When every daemon is `UP`, every daemon's `daemon_up` is 1. */
  lemma DaemonGaugeUp(m: map<DaemonKey, int>, l: string, ds: seq<Daemon>, i: nat)
    requires i < |ds|
    requires forall j :: 0 <= j < |ds| ==> ds[j].status == "UP"
    ensures var k := DaemonKey(l, ds[i].name, ds[i].version);
      k in Put(m, DaemonWrites(l, ds)) && Put(m, DaemonWrites(l, ds))[k] == 1
  {
    var ws := DaemonWrites(l, ds);
    DaemonWritesAre(l, ds);
    WrittenAt(ws, i);
    PutConstant(m, ws, ws[i].0, 1);
  }

  /** After a successful scrape every daemon of the report has `daemon_up` 1. */
  lemma DaemonGaugeOne(m: map<DaemonKey, int>, l: string, output: string, i: nat)
    requires i < |Parse(output).daemons|
    ensures var d := Parse(output).daemons[i]; var k := DaemonKey(l, d.name, d.version);
      k in Put(m, DaemonWrites(l, Parse(output).daemons)) && Put(m, DaemonWrites(l, Parse(output).daemons))[k] == 1
  {
    var lines := Split(output, '\n');
    RunDaemons(lines);
    DaemonsInUp(lines);
    DaemonGaugeUp(m, l, Parse(output).daemons, i);
  }

  lemma {:induction false} HostWritesOfAre(l: string, hs: seq<string>, users: seq<UserRecord>)
    ensures forall j :: 0 <= j < |hs| ==> HostWritesOf(l, hs, users)[j] == (HostKey(l, hs[j]), Count(users, hs[j]))
    decreases |hs|
  {
    if hs != [] {
      HostWritesOfAre(l, hs[..|hs| - 1], users);
    }
  }

  /** Each host of the report has as its host gauge the number of user
      records with its hostname; no other host is written. */
  lemma HostGauge(m: map<HostKey, int>, l: string, users: seq<UserRecord>, h: string)
    ensures HostKey(l, h) in Written(HostWrites(l, users)) <==> Count(users, h) > 0
    ensures Count(users, h) > 0 ==>
      HostKey(l, h) in Put(m, HostWrites(l, users)) && Put(m, HostWrites(l, users))[HostKey(l, h)] == Count(users, h)
  {
    var hs := Hosts(users);
    var ws := HostWrites(l, users);
    HostsAre(users);
    HostWritesOfAre(l, hs, users);
    if HostKey(l, h) in Written(ws) {
      var j := WrittenHas(ws, HostKey(l, h));
      assert hs[j] == h;
    }
    if Count(users, h) > 0 {
      var i :| 0 <= i < |hs| && hs[i] == h;
      WrittenAt(ws, i);
      PutConstant(m, ws, HostKey(l, h), Count(users, h));
    }
  }

  /** A label set is written only by a write that names it. */
  lemma {:induction false} WrittenHas<K>(ws: seq<(K, int)>, k: K) returns (j: nat)
    requires k in Written(ws)
    ensures j < |ws| && ws[j].0 == k
    decreases |ws|
  {
    var n := |ws| - 1;
    if ws[n].0 == k {
      j := n;
    } else {
      j := WrittenHas(ws[..n], k);
      assert ws[..n][j] == ws[j];
    }
  }

  // ===========================================================================
  // The exporter
  // ===========================================================================

  /** The exporter's gauges and its error counter. The duration gauge,
      the HTTP server and the call of `lmutil` are not part of this model. */
  class FlexLMExporter {
    const licenseServer: string
    const port: int
    var serverUp: map<string, int>
    var daemonUp: map<DaemonKey, int>
    var featureTotal: map<FeatureKey, int>
    var featureUsed: map<FeatureKey, int>
    var featureAvailable: map<FeatureKey, int>
    var userLicenses: map<UserKey, int>
    var hostLicenses: map<HostKey, int>
    var scrapeErrors: nat

    constructor(licenseServer: string, port: int)
      ensures this.licenseServer == licenseServer && this.port == port
      ensures serverUp == map[] && daemonUp == map[] && featureTotal == map[] && featureUsed == map[]
      ensures featureAvailable == map[] && userLicenses == map[] && hostLicenses == map[]
      ensures scrapeErrors == 0
    {
      this.licenseServer := licenseServer;
      this.port := port;
      serverUp, daemonUp, featureTotal, featureUsed := map[], map[], map[], map[];
      featureAvailable, userLicenses, hostLicenses := map[], map[], map[];
      scrapeErrors := 0;
    }

    function Label(): string
      reads this
    {
      ServerLabel(licenseServer, port)
    }

    /** One scrape, given the return code and the standard output of
        `lmstat -a`. A failed call marks the server down and counts an error;
        otherwise the server gauge is set twice (1, then the parsed status)
        and every record of the report sets its gauges. */
    method CollectMetrics(rc: int, output: string)
      modifies this
      ensures rc != 0 ==>
        && serverUp == old(serverUp)[Label() := 0]
        && scrapeErrors == old(scrapeErrors) + 1
        && daemonUp == old(daemonUp) && featureTotal == old(featureTotal)
        && featureUsed == old(featureUsed) && featureAvailable == old(featureAvailable)
        && userLicenses == old(userLicenses) && hostLicenses == old(hostLicenses)
      ensures rc == 0 ==>
        var d := Parse(output);
        && serverUp == Put(old(serverUp), [(Label(), 1), (Label(), if d.serverStatus then 1 else 0)])
        && daemonUp == Put(old(daemonUp), DaemonWrites(Label(), d.daemons))
        && featureTotal == Put(old(featureTotal), FeatureWrites(Label(), d.features, Total))
        && featureUsed == Put(old(featureUsed), FeatureWrites(Label(), d.features, Used))
        && featureAvailable == Put(old(featureAvailable), FeatureWrites(Label(), d.features, Available))
        && userLicenses == Put(old(userLicenses), UserWrites(Label(), d.features))
        && hostLicenses == Put(old(hostLicenses), HostWrites(Label(), d.users))
        && scrapeErrors == old(scrapeErrors)
    {
      var serverLabel := ServerLabel(licenseServer, port);
      if rc != 0 {
        serverUp := serverUp[serverLabel := 0];
        scrapeErrors := scrapeErrors + 1;
        return;
      }
      serverUp := serverUp[serverLabel := 1];
      var data := ParseLmstatOutput(output);
      serverUp := serverUp[serverLabel := if data.serverStatus then 1 else 0];
      assert serverUp == Put(old(serverUp), [(serverLabel, 1), (serverLabel, if data.serverStatus then 1 else 0)]) by {
        PutSnoc(old(serverUp), [], (serverLabel, 1));
        PutSnoc(old(serverUp), [(serverLabel, 1)], (serverLabel, if data.serverStatus then 1 else 0));
      }
      SetDaemons(serverLabel, data.daemons);
      SetFeatures(serverLabel, data.features);
      SetHosts(serverLabel, data.users);
    }

    /** The daemon loop. */
    method SetDaemons(serverLabel: string, ds: seq<Daemon>)
      modifies this
      ensures daemonUp == Put(old(daemonUp), DaemonWrites(serverLabel, ds))
      ensures serverUp == old(serverUp) && scrapeErrors == old(scrapeErrors)
      ensures featureTotal == old(featureTotal) && featureUsed == old(featureUsed)
      ensures featureAvailable == old(featureAvailable)
      ensures userLicenses == old(userLicenses) && hostLicenses == old(hostLicenses)
    {
      for i := 0 to |ds|
        invariant daemonUp == Put(old(daemonUp), DaemonWrites(serverLabel, ds[..i]))
        invariant serverUp == old(serverUp) && scrapeErrors == old(scrapeErrors)
        invariant featureTotal == old(featureTotal) && featureUsed == old(featureUsed)
        invariant featureAvailable == old(featureAvailable)
        invariant userLicenses == old(userLicenses) && hostLicenses == old(hostLicenses)
      {
        var daemon := ds[i];
        var w := (DaemonKey(serverLabel, daemon.name, daemon.version), if daemon.status == "UP" then 1 else 0);
        assert ds[..i + 1][..i] == ds[..i];
        assert DaemonWrites(serverLabel, ds[..i + 1]) == DaemonWrites(serverLabel, ds[..i]) + [w];
        PutSnoc(old(daemonUp), DaemonWrites(serverLabel, ds[..i]), w);
        daemonUp := daemonUp[w.0 := w.1];
      }
      assert ds[..|ds|] == ds;
    }

    /** The feature loop, with the loop over each feature's users inside. */
    method SetFeatures(serverLabel: string, fs: seq<Feature>)
      modifies this
      ensures featureTotal == Put(old(featureTotal), FeatureWrites(serverLabel, fs, Total))
      ensures featureUsed == Put(old(featureUsed), FeatureWrites(serverLabel, fs, Used))
      ensures featureAvailable == Put(old(featureAvailable), FeatureWrites(serverLabel, fs, Available))
      ensures userLicenses == Put(old(userLicenses), UserWrites(serverLabel, fs))
      ensures serverUp == old(serverUp) && scrapeErrors == old(scrapeErrors)
      ensures daemonUp == old(daemonUp) && hostLicenses == old(hostLicenses)
    {
      for i := 0 to |fs|
        invariant featureTotal == Put(old(featureTotal), FeatureWrites(serverLabel, fs[..i], Total))
        invariant featureUsed == Put(old(featureUsed), FeatureWrites(serverLabel, fs[..i], Used))
        invariant featureAvailable == Put(old(featureAvailable), FeatureWrites(serverLabel, fs[..i], Available))
        invariant userLicenses == Put(old(userLicenses), UserWrites(serverLabel, fs[..i]))
        invariant serverUp == old(serverUp) && scrapeErrors == old(scrapeErrors)
        invariant daemonUp == old(daemonUp) && hostLicenses == old(hostLicenses)
      {
        var feature := fs[i];
        assert fs[..i + 1][..i] == fs[..i];
        var key := FeatureKey(serverLabel, Vendor, feature.name);
        featureTotal := featureTotal[key := feature.total];
        featureUsed := featureUsed[key := feature.used];
        featureAvailable := featureAvailable[key := feature.available];
        SetUsers(serverLabel, feature);
        PutAppend(old(userLicenses), UserWrites(serverLabel, fs[..i]), UserWritesOf(serverLabel, feature, feature.users));
      }
      assert fs[..|fs|] == fs;
    }

    /** The loop over the users of one feature. */
    method SetUsers(serverLabel: string, feature: Feature)
      modifies this
      ensures userLicenses == Put(old(userLicenses), UserWritesOf(serverLabel, feature, feature.users))
      ensures serverUp == old(serverUp) && scrapeErrors == old(scrapeErrors) && daemonUp == old(daemonUp)
      ensures featureTotal == old(featureTotal) && featureUsed == old(featureUsed)
      ensures featureAvailable == old(featureAvailable) && hostLicenses == old(hostLicenses)
    {
      for j := 0 to |feature.users|
        invariant userLicenses == Put(old(userLicenses), UserWritesOf(serverLabel, feature, feature.users[..j]))
        invariant serverUp == old(serverUp) && scrapeErrors == old(scrapeErrors) && daemonUp == old(daemonUp)
        invariant featureTotal == old(featureTotal) && featureUsed == old(featureUsed)
        invariant featureAvailable == old(featureAvailable) && hostLicenses == old(hostLicenses)
      {
        var user := feature.users[j];
        assert feature.users[..j + 1][..j] == feature.users[..j];
        userLicenses := userLicenses[UserKey(serverLabel, Vendor, feature.name, user.username, user.hostname, user.display) := 1];
      }
      assert feature.users[..|feature.users|] == feature.users;
    }

    /** The `host_counts` loop and the loop that sets the host gauges. */
    method SetHosts(serverLabel: string, users: seq<UserRecord>)
      modifies this
      ensures hostLicenses == Put(old(hostLicenses), HostWrites(serverLabel, users))
      ensures serverUp == old(serverUp) && scrapeErrors == old(scrapeErrors) && daemonUp == old(daemonUp)
      ensures featureTotal == old(featureTotal) && featureUsed == old(featureUsed)
      ensures featureAvailable == old(featureAvailable) && userLicenses == old(userLicenses)
    {
      var order, counts := CountHosts(users);
      for i := 0 to |order|
        invariant hostLicenses == Put(old(hostLicenses), HostWritesOf(serverLabel, order[..i], users))
        invariant serverUp == old(serverUp) && scrapeErrors == old(scrapeErrors) && daemonUp == old(daemonUp)
        invariant featureTotal == old(featureTotal) && featureUsed == old(featureUsed)
        invariant featureAvailable == old(featureAvailable) && userLicenses == old(userLicenses)
      {
        assert order[..i + 1][..i] == order[..i];
        hostLicenses := hostLicenses[HostKey(serverLabel, order[i]) := counts[order[i]]];
      }
      assert order[..|order|] == order;
    }
  }
}
