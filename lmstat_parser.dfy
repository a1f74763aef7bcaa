/**
  `FlexLMExporter.parse_lmstat_output`: one pass over the lines of an
  `lmstat -a` report. Each line is stripped; the server-status phrases, the
  daemon pattern and the feature header are looked for in the stripped line,
  a `Users of ` line that is not a header closes the open section, and in an
  open section a user line is matched against the raw line.

  `LineStep` and `Run` give the meaning of the pass; the method
  `ParseLmstatOutput` is the loop itself, proved to compute `Parse`.
*/
module LmstatParser {
  import opened Wrappers
  import opened Text
  import opened LineMatchers
  import opened LmstatReport

  /** `Users of ` at the start of a line that is not a header closes the
      section of the current feature. */
  function CloseOnUsersOf(st: ParseState, line: string): (st': ParseState)
    requires Valid(st)
    ensures Valid(st')
  {
    if StartsWith(line, "Users of ") && st.current then CloseSection(st) else st
  }

  /** In an open section, a raw line that matches the user pattern adds a
      record to the current feature. */
  function TakeUser(st: ParseState, raw: string): (st': ParseState)
    requires Valid(st)
    ensures Valid(st')
  {
    if st.inUsers && st.current then
      match MainUserMatch(raw)
      case Some(g) => AddUser(st, g)
      case None => st
    else st
  }

  /** The effect of one raw line, in the order the parser checks. */
  function LineStep(st: ParseState, raw: string): (st': ParseState)
    requires Valid(st)
    ensures Valid(st')
  {
    var line := Strip(raw);
    var st0 := Observe(st, line);
    match HeaderMatch(line)
    case Some(h) => OpenFeature(st0, h)
    case None => TakeUser(CloseOnUsersOf(st0, line), raw)
  }

  /** The state after the lines, one after the other. */
  function Run(st: ParseState, lines: seq<string>): (st': ParseState)
    requires Valid(st)
    ensures Valid(st')
    decreases |lines|
  {
    if lines == [] then st else LineStep(Run(st, lines[..|lines| - 1]), lines[|lines| - 1])
  }

  /** The report for the whole output, split at line breaks. */
  function Parse(output: string): Report {
    StartValid();
    Run(Start, Split(output, '\n')).report
  }

  /** The state after one more line. */
  lemma RunSnoc(lines: seq<string>, i: nat)
    requires i < |lines|
    ensures Valid(Run(Start, lines[..i]))
    ensures Run(Start, lines[..i + 1]) == LineStep(Run(Start, lines[..i]), lines[i])
  {
    StartValid();
    assert lines[..i + 1][..i] == lines[..i];
  }

  /** The body of the parser's loop for one raw line: the status flag, the
      three lists and the two section variables are updated in place, and a
      header line or a user line ends the iteration early (`continue`). */
  method ParseLine(raw: string, serverStatus: bool, daemons: seq<Daemon>, features: seq<Feature>,
                   users: seq<UserRecord>, current: bool, inUsers: bool)
    returns (serverStatus': bool, daemons': seq<Daemon>, features': seq<Feature>,
             users': seq<UserRecord>, current': bool, inUsers': bool)
    requires Valid(ParseState(Report(serverStatus, daemons, features, users), current, inUsers))
    ensures ParseState(Report(serverStatus', daemons', features', users'), current', inUsers') ==
      LineStep(ParseState(Report(serverStatus, daemons, features, users), current, inUsers), raw)
  {
    ghost var st := ParseState(Report(serverStatus, daemons, features, users), current, inUsers);
    serverStatus', daemons', features', users', current', inUsers' := serverStatus, daemons, features, users, current, inUsers;
    var line := Strip(raw);
    if Contains(line, ServerUp) {
      serverStatus' := true;
    } else if Contains(line, ServerDown) {
      serverStatus' := false;
    }
    var daemon := DaemonMatch(line);
    if daemon.Some? {
      daemons' := daemons' + [Daemon(daemon.value.name, "UP", daemon.value.version)];
    }
    ghost var st0 := Observe(st, line);
    assert ParseState(Report(serverStatus', daemons', features', users'), current', inUsers') == st0;
    var header := HeaderMatch(line);
    if header.Some? {
      var h := header.value;
      features' := features' + [Feature(h.name, h.total, h.used, h.total - h.used, [])];
      current' := true;
      inUsers' := true;
      assert LineStep(st, raw) == OpenFeature(st0, h);
      assert features' == st0.report.features + [NewFeature(h)];
      assert ParseState(Report(serverStatus', daemons', features', users'), current', inUsers') == OpenFeature(st0, h);
      return;
    }
    if StartsWith(line, "Users of ") && current' {
      inUsers' := false;
      current' := false;
    }
    ghost var st1 := CloseOnUsersOf(st0, line);
    assert ParseState(Report(serverStatus', daemons', features', users'), current', inUsers') == st1;
    assert LineStep(st, raw) == TakeUser(st1, raw);
    if inUsers' && current' {
      var user := MainUserMatch(raw);
      if user.Some? {
        var f := features'[|features'| - 1];
        var u := UserRecord(user.value.username, user.value.hostname, user.value.display, f.name);
        features' := features'[..|features'| - 1] + [f.(users := f.users + [u])];
        users' := users' + [u];
        assert TakeUser(st1, raw) == AddUser(st1, user.value);
        assert ParseState(Report(serverStatus', daemons', features', users'), current', inUsers') == AddUser(st1, user.value);
        return;
      }
    }
    assert TakeUser(st1, raw) == st1;
  }

  /** The parser's loop over the lines of the output. */
  method ParseLmstatOutput(output: string) returns (data: Report)
    ensures data == Parse(output)
  {
    var lines := Split(output, '\n');
    var serverStatus := false;
    var daemons: seq<Daemon> := [];
    var features: seq<Feature> := [];
    var users: seq<UserRecord> := [];
    var current := false;
    var inUsers := false;
    StartValid();
    for i := 0 to |lines|
      invariant ParseState(Report(serverStatus, daemons, features, users), current, inUsers) == Run(Start, lines[..i])
    {
      RunSnoc(lines, i);
      serverStatus, daemons, features, users, current, inUsers :=
        ParseLine(lines[i], serverStatus, daemons, features, users, current, inUsers);
    }
    assert lines[..|lines|] == lines;
    data := Report(serverStatus, daemons, features, users);
  }

  // ===========================================================================
  // What one line does
  // ===========================================================================

  /** The daemon record a stripped line adds, as a list of zero or one. */
  function DaemonsOfLine(line: string): (ds: seq<Daemon>)
    ensures |ds| <= 1 && (|ds| == 1 <==> DaemonMatch(line).Some?)
  {
    match DaemonOf(line) case Some(d) => [d] case None => []
  }

  /** The features without their users: what the header lines alone decide. */
  function Bare(fs: seq<Feature>): (b: seq<Feature>)
    ensures |b| == |fs|
    decreases |fs|
  {
    if fs == [] then [] else Bare(fs[..|fs| - 1]) + [fs[|fs| - 1].(users := [])]
  }

  /** The feature a stripped line starts, as a list of zero or one. */
  function HeadersOfLine(line: string): (fs: seq<Feature>)
    ensures |fs| <= 1 && (|fs| == 1 <==> HeaderMatch(line).Some?)
  {
    match HeaderMatch(line) case Some(h) => [NewFeature(h)] case None => []
  }

  /** The raw line is taken as a checkout of the current feature: a section
      is open, the stripped line is no header and does not start with
      `Users of `, and the raw line matches the user pattern. */
  predicate TakesUser(st: ParseState, raw: string) {
    && st.current
    && HeaderMatch(Strip(raw)).None?
    && !StartsWith(Strip(raw), "Users of ")
    && MainUserMatch(raw).Some?
  }

  /** Status and daemons: every line is looked at for them, whatever the
      section state. */
  lemma LineStepObserves(st: ParseState, raw: string)
    requires Valid(st)
    ensures LineStep(st, raw).report.serverStatus == StatusAfter(st.report.serverStatus, Strip(raw))
    ensures LineStep(st, raw).report.daemons == st.report.daemons + DaemonsOfLine(Strip(raw))
  {
  }

  /** The features, users aside: a header line appends its feature, no other
      line changes them. */
  lemma LineStepHeaders(st: ParseState, raw: string)
    requires Valid(st)
    ensures Bare(LineStep(st, raw).report.features) == Bare(st.report.features) + Bare(HeadersOfLine(Strip(raw)))
  {
    var line := Strip(raw);
    var st0 := Observe(st, line);
    var fs := st.report.features;
    match HeaderMatch(line)
    case Some(h) =>
      BareSnoc(fs, NewFeature(h));
      BareSnoc([], NewFeature(h));
    case None =>
      assert Bare(HeadersOfLine(line)) == [];
      var st1 := CloseOnUsersOf(st0, line);
      if TakesUser(st, raw) {
        var fs' := AddUser(st1, MainUserMatch(raw).value).report.features;
        BareUsers(fs, fs');
      }
  }

  /** A feature appended with its users removed. */
  lemma BareSnoc(fs: seq<Feature>, f: Feature)
    ensures Bare(fs + [f]) == Bare(fs) + [f.(users := [])]
  {
    assert (fs + [f])[..|fs|] == fs;
  }

  /** A change to the users of the last feature does not show in the bare list. */
  lemma BareUsers(fs: seq<Feature>, fs': seq<Feature>)
    requires |fs'| == |fs| > 0 && fs'[..|fs| - 1] == fs[..|fs| - 1]
    requires fs'[|fs| - 1].(users := []) == fs[|fs| - 1].(users := [])
    ensures Bare(fs') == Bare(fs)
  {
  }

  /** The users: a record is added exactly when the line is taken as a
      checkout of the current feature, and it names that feature. */
  lemma LineStepUsers(st: ParseState, raw: string)
    requires Valid(st)
    ensures TakesUser(st, raw) ==>
      LineStep(st, raw).report.users == st.report.users + [UserOf(st.report.features, MainUserMatch(raw).value)]
    ensures !TakesUser(st, raw) ==> LineStep(st, raw).report.users == st.report.users
  {
  }

  /** The section state: a header opens one, a `Users of ` line that is not a
      header closes it, and any other line leaves it as it is. */
  lemma LineStepSection(st: ParseState, raw: string)
    requires Valid(st)
    ensures LineStep(st, raw).current <==>
      HeaderMatch(Strip(raw)).Some? || (st.current && !StartsWith(Strip(raw), "Users of "))
  {
  }

  /** A line of white space only changes nothing. */
  lemma BlankLine(st: ParseState, raw: string)
    requires Valid(st) && AllOf(Space, raw)
    ensures LineStep(st, raw) == st
  {
    StripBlank(raw);
    assert !Contains([], ServerUp) && !Contains([], ServerDown);
    DaemonMatchNone([]);
    HeaderMatchNone([]);
    NoParenNoUser(raw);
  }

  /** A line that carries none of the phrases the parser looks for and no
      parenthesis (a quoted title line, a `floating license` line) changes
      nothing. */
  lemma QuietLine(st: ParseState, raw: string)
    requires Valid(st)
    requires forall i :: 0 <= i < |raw| ==> raw[i] != '('
    requires !Reports(Strip(raw)) && !Contains(Strip(raw), ": UP v") && !Contains(Strip(raw), "Users of ")
    ensures LineStep(st, raw) == st
  {
    NoDaemon(Strip(raw));
    NoHeader(Strip(raw));
    NoParenNoUser(raw);
    assert !StartsWith(Strip(raw), "Users of ");
  }

  // ===========================================================================
  // What the whole pass computes
  // ===========================================================================

  /** The daemon records of the lines, line after line. */
  function DaemonsIn(lines: seq<string>): seq<Daemon>
    decreases |lines|
  {
    if lines == [] then [] else DaemonsIn(lines[..|lines| - 1]) + DaemonsOfLine(Strip(lines[|lines| - 1]))
  }

  /** The features the header lines start, line after line. */
  function HeadersIn(lines: seq<string>): seq<Feature>
    decreases |lines|
  {
    if lines == [] then [] else HeadersIn(lines[..|lines| - 1]) + HeadersOfLine(Strip(lines[|lines| - 1]))
  }

  /** Every daemon line adds its record, in or out of a feature section. */
  lemma {:induction false} RunDaemons(lines: seq<string>)
    ensures Run(Start, lines).report.daemons == DaemonsIn(lines)
    decreases |lines|
  {
    StartValid();
    if lines != [] {
      var init := lines[..|lines| - 1];
      RunDaemons(init);
      LineStepObserves(Run(Start, init), lines[|lines| - 1]);
    }
  }

  /** The features are the header lines' features, in order; only their
      user lists depend on the lines in between. */
  lemma {:induction false} RunHeaders(lines: seq<string>)
    ensures Bare(Run(Start, lines).report.features) == HeadersIn(lines)
    decreases |lines|
  {
    StartValid();
    if lines != [] {
      var init := lines[..|lines| - 1];
      var last := lines[|lines| - 1];
      RunHeaders(init);
      LineStepHeaders(Run(Start, init), last);
      var hs := HeadersOfLine(Strip(last));
      assert Bare(hs) == hs by {
        if hs != [] {
          assert hs[..0] == [];
        }
      }
    }
  }

  /** Once no section is open, lines without a header add no user and
      no feature, and no section opens. */
  lemma {:induction false} ClosedStaysClosed(st: ParseState, lines: seq<string>)
    requires Valid(st) && !st.current
    requires forall i :: 0 <= i < |lines| ==> HeaderMatch(Strip(lines[i])).None?
    ensures !Run(st, lines).current
    ensures Run(st, lines).report.users == st.report.users
    ensures Run(st, lines).report.features == st.report.features
    decreases |lines|
  {
    if lines != [] {
      var init := lines[..|lines| - 1];
      assert forall i :: 0 <= i < |init| ==> init[i] == lines[i];
      ClosedStaysClosed(st, init);
      var last := lines[|lines| - 1];
      LineStepSection(Run(st, init), last);
      LineStepUsers(Run(st, init), last);
    }
  }

  /** The stripped line says the server is up. */
  predicate SaysUp(raw: string) { Contains(Strip(raw), ServerUp) }

  /** The stripped line says something about the server's status. */
  predicate SaysStatus(raw: string) { Reports(Strip(raw)) }

  /** A flag that a line sets when `up` holds of it and else clears when
      `rep` holds of it, folded over the lines from `false`. */
  function LastFlag(up: string -> bool, rep: string -> bool, lines: seq<string>): bool
    decreases |lines|
  {
    if lines == [] then false
    else if up(lines[|lines| - 1]) then true
    else if rep(lines[|lines| - 1]) then false
    else LastFlag(up, rep, lines[..|lines| - 1])
  }

  /** The flag is set exactly when some line sets it and no later line
      clears or sets it. */
  lemma {:induction false} LastFlagWins(up: string -> bool, rep: string -> bool, lines: seq<string>)
    ensures LastFlag(up, rep, lines) <==>
      exists i :: 0 <= i < |lines| && up(lines[i]) && forall j :: i < j < |lines| ==> !rep(lines[j]) && !up(lines[j])
    decreases |lines|
  {
    if lines != [] {
      var n := |lines| - 1;
      var init := lines[..n];
      LastFlagWins(up, rep, init);
      if up(lines[n]) {
      } else if LastFlag(up, rep, lines) {
        var i :| 0 <= i < |init| && up(init[i]) && forall j :: i < j < |init| ==> !rep(init[j]) && !up(init[j]);
        assert lines[i] == init[i];
        forall j | i < j < |lines| ensures !rep(lines[j]) && !up(lines[j]) {
          if j < n {
            assert lines[j] == init[j];
          }
        }
      } else {
        forall i | 0 <= i < |lines| && up(lines[i])
          ensures exists j :: i < j < |lines| && (rep(lines[j]) || up(lines[j]))
        {
          if i < n && !rep(lines[n]) {
            assert init[i] == lines[i];
            var j :| i < j < |init| && (rep(init[j]) || up(init[j]));
            assert init[j] == lines[j];
          }
        }
      }
    }
  }

  /** Some line says the server is up, and no later line says anything
      about its status. */
  predicate UpReportedLast(lines: seq<string>) {
    exists i :: 0 <= i < |lines| && SaysUp(lines[i]) &&
      forall j :: i < j < |lines| ==> !SaysStatus(lines[j]) && !SaysUp(lines[j])
  }

  /** The status fold, stated for the status phrases. */
  lemma StatusWins(lines: seq<string>)
    ensures LastFlag(SaysUp, SaysStatus, lines) <==>
      UpReportedLast(lines)
  {
    LastFlagWins(SaysUp, SaysStatus, lines);
  }

  lemma {:induction false} RunStatusFold(lines: seq<string>)
    ensures Run(Start, lines).report.serverStatus == LastFlag(SaysUp, SaysStatus, lines)
    decreases |lines|
  {
    StartValid();
    if lines != [] {
      var init := lines[..|lines| - 1];
      RunStatusFold(init);
      LineStepObserves(Run(Start, init), lines[|lines| - 1]);
    }
  }

  /** The server status is that of the last line that reports one: up if it
      says the server is up, and down if no line reports it. */
  lemma RunStatus(lines: seq<string>)
    ensures Run(Start, lines).report.serverStatus <==>
      UpReportedLast(lines)
  {
    RunStatusFold(lines);
    StatusWins(lines);
  }

  /** In the parsed report every feature has `available == total - used`,
      every user record of a feature names it, and the global user list is
      the features' lists one after the other. */
  lemma ParseConsistent(output: string)
    ensures var r := Parse(output);
      && r.users == AllUsers(r.features)
      && forall i :: 0 <= i < |r.features| ==>
           r.features[i].available == r.features[i].total - r.features[i].used && OwnsUsers(r.features[i])
  {
    StartValid();
    var r := Parse(output);
    forall i | 0 <= i < |r.features|
      ensures r.features[i].available == r.features[i].total - r.features[i].used && OwnsUsers(r.features[i])
    {
      ConsistentAt(r.features, i);
    }
  }
}
