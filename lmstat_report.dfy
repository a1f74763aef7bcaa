/**
  The dictionary that both lmstat parsers build (`server_status`, `daemons`,
  `features`, `users`), the state they carry from line to line, and the
  per-line updates the two parsers share: the server status, the daemon
  list and the opening of a feature section.
*/
module LmstatReport {
  import opened Wrappers
  import opened Text
  import opened LineMatchers

  /** `{'name': ..., 'status': 'UP', 'version': ...}` */
  datatype Daemon = Daemon(name: string, status: string, version: string)

  /** `{'username': ..., 'hostname': ..., 'display': ..., 'feature': ...}` */
  datatype UserRecord = UserRecord(username: string, hostname: string, display: string, feature: string)

  /** `{'name': ..., 'total': ..., 'used': ..., 'available': ..., 'users': [...]}` */
  datatype Feature = Feature(name: string, total: int, used: int, available: int, users: seq<UserRecord>)

  datatype Report = Report(serverStatus: bool, daemons: seq<Daemon>, features: seq<Feature>, users: seq<UserRecord>)

  /** The state between two lines: the report so far, whether `current_feature`
      is set (it is then the last feature of the report, the same dictionary),
      and `in_users_section`. */
  datatype ParseState = ParseState(report: Report, current: bool, inUsers: bool)

  const Start: ParseState := ParseState(Report(false, [], [], []), false, false)

  /** The users of the features, feature after feature. */
  function AllUsers(fs: seq<Feature>): seq<UserRecord>
    decreases |fs|
  {
    if fs == [] then [] else AllUsers(fs[..|fs| - 1]) + fs[|fs| - 1].users
  }

  /** Every user record of `f` names `f` as its feature. */
  predicate OwnsUsers(f: Feature) {
    forall k :: 0 <= k < |f.users| ==> f.users[k].feature == f.name
  }

  /** Each feature's `available` is its `total - used`, and its users name it. */
  predicate FeaturesConsistent(fs: seq<Feature>)
    decreases |fs|
  {
    fs == [] ||
      (var f := fs[|fs| - 1];
       FeaturesConsistent(fs[..|fs| - 1]) && f.available == f.total - f.used && OwnsUsers(f))
  }

  /** What holds of the state after every line: a current feature exists
      whenever it is set, the two flags agree, the global user list is the
      features' lists one after the other, and each feature is consistent. */
  predicate Valid(st: ParseState) {
    && (st.current ==> |st.report.features| > 0)
    && st.current == st.inUsers
    && st.report.users == AllUsers(st.report.features)
    && FeaturesConsistent(st.report.features)
  }

  /** Every feature of a consistent list has `available == total - used`,
      and every user record in it names it. */
  lemma {:induction false} ConsistentAt(fs: seq<Feature>, i: nat)
    requires FeaturesConsistent(fs) && i < |fs|
    ensures fs[i].available == fs[i].total - fs[i].used && OwnsUsers(fs[i])
    decreases |fs|
  {
    if i < |fs| - 1 {
      ConsistentAt(fs[..|fs| - 1], i);
    }
  }

  lemma StartValid()
    ensures Valid(Start)
  {
  }

  const ServerUp := "license server UP"
  const ServerDown := "Cannot connect to license server"

  /** The line says something about the server's status. */
  predicate Reports(line: string) {
    Contains(line, ServerUp) || Contains(line, ServerDown)
  }

  /** The server status after the (stripped) line. */
  function StatusAfter(status: bool, line: string): (r: bool)
    ensures Reports(line) ==> r == Contains(line, ServerUp)
    ensures !Reports(line) ==> r == status
  {
    if Contains(line, ServerUp) then true
    else if Contains(line, ServerDown) then false
    else status
  }

  /** The daemon record the (stripped) line adds, if any. */
  function DaemonOf(line: string): (r: Option<Daemon>)
    ensures r.Some? ==> r.value.status == "UP" && RunOf(Word, r.value.name) && RunOf(Version, r.value.version)
    ensures r.Some? ==> Contains(line, r.value.name + (": UP v" + r.value.version))
  {
    match DaemonMatch(line)
    case None => None
    case Some(g) => Some(Daemon(g.name, "UP", g.version))
  }

  /** The status and daemon updates, which both parsers make on every
      stripped line before anything else. */
  function Observe(st: ParseState, line: string): (st': ParseState)
    requires Valid(st)
    ensures Valid(st')
    ensures st'.current == st.current && st'.inUsers == st.inUsers
    ensures st'.report.features == st.report.features && st'.report.users == st.report.users
    ensures st'.report.serverStatus == StatusAfter(st.report.serverStatus, line)
    ensures st'.report.daemons == st.report.daemons + (match DaemonOf(line) case Some(d) => [d] case None => [])
  {
    var r := st.report;
    var ds := match DaemonOf(line) case Some(d) => r.daemons + [d] case None => r.daemons;
    st.(report := r.(serverStatus := StatusAfter(r.serverStatus, line), daemons := ds))
  }

  /** The feature a header line starts: `available` is `total - used`,
      without clamping, and the user list is empty. */
  function NewFeature(h: HeaderGroups): (f: Feature)
    ensures f.name == h.name && f.total == h.total && f.used == h.used
    ensures f.available == f.total - f.used && f.users == []
  {
    Feature(h.name, h.total, h.used, h.total - h.used, [])
  }

  /** A header line: the new feature is appended, becomes current, and its
      users section opens. */
  function OpenFeature(st: ParseState, h: HeaderGroups): (st': ParseState)
    requires Valid(st)
    ensures Valid(st')
    ensures st'.report.features == st.report.features + [NewFeature(h)]
    ensures st'.report.users == st.report.users && st'.current && st'.inUsers
    ensures st'.report.serverStatus == st.report.serverStatus && st'.report.daemons == st.report.daemons
  {
    AllUsersOpen(st.report.features, NewFeature(h));
    assert (st.report.features + [NewFeature(h)])[..|st.report.features|] == st.report.features;
    ParseState(st.report.(features := st.report.features + [NewFeature(h)]), true, true)
  }

  /** The end of the users section: no feature is current any more. */
  function CloseSection(st: ParseState): (st': ParseState)
    requires Valid(st)
    ensures Valid(st') && !st'.current && !st'.inUsers && st'.report == st.report
  {
    st.(current := false, inUsers := false)
  }

  /** The record of a user line of the current feature (the last one). */
  function UserOf(fs: seq<Feature>, g: UserGroups): (u: UserRecord)
    requires |fs| > 0
    ensures u.feature == fs[|fs| - 1].name
    ensures u.username == g.username && u.hostname == g.hostname && u.display == g.display
  {
    UserRecord(g.username, g.hostname, g.display, fs[|fs| - 1].name)
  }

  /** A user line: its record is appended to the current feature's list and
      to the global list (the same dictionary in both). */
  function AddUser(st: ParseState, g: UserGroups): (st': ParseState)
    requires Valid(st) && st.current
    ensures Valid(st')
    ensures st'.current == st.current && st'.inUsers == st.inUsers
    ensures var fs := st.report.features;
      st'.report.features == fs[..|fs| - 1] + [fs[|fs| - 1].(users := fs[|fs| - 1].users + [UserOf(fs, g)])]
    ensures st'.report.users == st.report.users + [UserOf(st.report.features, g)]
    ensures st'.report.serverStatus == st.report.serverStatus && st'.report.daemons == st.report.daemons
  {
    var r := st.report;
    var n := |r.features|;
    var u := UserOf(r.features, g);
    var f := r.features[n - 1];
    var fs' := r.features[..n - 1] + [f.(users := f.users + [u])];
    assert fs'[..n - 1] == r.features[..n - 1];
    AllUsersAdd(r.features, fs', u);
    st.(report := r.(features := fs', users := r.users + [u]))
  }

  /** A feature with no users adds nothing to the global list. */
  lemma AllUsersOpen(fs: seq<Feature>, f: Feature)
    requires f.users == []
    ensures AllUsers(fs + [f]) == AllUsers(fs)
  {
    assert (fs + [f])[..|fs|] == fs;
  }

  /** A record added to the last feature is added at the end of the global list. */
  lemma AllUsersAdd(fs: seq<Feature>, fs': seq<Feature>, u: UserRecord)
    requires |fs| > 0 && |fs'| == |fs|
    requires fs'[..|fs| - 1] == fs[..|fs| - 1]
    requires fs'[|fs| - 1].users == fs[|fs| - 1].users + [u]
    ensures AllUsers(fs') == AllUsers(fs) + [u]
  {
  }

}
