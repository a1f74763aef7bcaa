/**
  `debug_parse_lmstat_output` (debug_parser.py): the same pass as the
  exporter's parser, except for the users section. In an open section the
  raw line is tried against three user patterns in turn, and afterwards a
  stripped line that is empty, starts with `Users of ` or starts with `"`
  closes the section. There is no separate close on a `Users of ` line
  before the user patterns, and the main parser's close does not exist.
*/
module DebugParser {
  import opened Wrappers
  import opened Text
  import opened LineMatchers
  import opened LmstatReport
  import opened LmstatParser

  /** The stripped line ends the users section. */
  predicate Closes(line: string) {
    line == [] || StartsWith(line, "Users of ") || StartsWith(line, "\"")
  }

  /** A raw line that one of the debug patterns matches adds a record to the
      current feature. */
  function DebugTake(st: ParseState, raw: string): (st': ParseState)
    requires Valid(st) && st.current
    ensures Valid(st') && st'.current
  {
    match DebugUserMatch(raw)
    case Some(g) => AddUser(st, g)
    case None => st
  }

  /** The effect of one raw line on the debug parser's state. */
  function DebugStep(st: ParseState, raw: string): (st': ParseState)
    requires Valid(st)
    ensures Valid(st')
  {
    var line := Strip(raw);
    var st0 := Observe(st, line);
    match HeaderMatch(line)
    case Some(h) => OpenFeature(st0, h)
    case None =>
      if st0.inUsers && st0.current then
        var st1 := DebugTake(st0, raw);
        if Closes(line) then CloseSection(st1) else st1
      else st0
  }

  function DebugRun(st: ParseState, lines: seq<string>): (st': ParseState)
    requires Valid(st)
    ensures Valid(st')
    decreases |lines|
  {
    if lines == [] then st else DebugStep(DebugRun(st, lines[..|lines| - 1]), lines[|lines| - 1])
  }

  /** The report the debug parser returns for the whole output. */
  function DebugParse(output: string): Report {
    StartValid();
    DebugRun(Start, Split(output, '\n')).report
  }

  lemma DebugRunSnoc(lines: seq<string>, i: nat)
    requires i < |lines|
    ensures Valid(DebugRun(Start, lines[..i]))
    ensures DebugRun(Start, lines[..i + 1]) == DebugStep(DebugRun(Start, lines[..i]), lines[i])
  {
    StartValid();
    assert lines[..i + 1][..i] == lines[..i];
  }

  // ===========================================================================
  // The loops
  // ===========================================================================

  /** The loop over the three user patterns: the first that matches gives
      the groups (`break`). */
  method DebugFindUser(raw: string) returns (r: Option<UserGroups>)
    ensures r == DebugUserMatch(raw)
  {
    var patterns := DebugRegexes;
    for i := 0 to |patterns|
      invariant FirstUser(patterns[i..], raw) == DebugUserMatch(raw)
    {
      assert patterns[i..][0] == patterns[i] && patterns[i..][1..] == patterns[i + 1..];
      var m := TryUser(patterns[i], raw);
      if m.Some? {
        return m;
      }
    }
    assert patterns[|patterns|..] == [];
    return None;
  }

  /** The body of the debug parser's loop for one raw line. */
  method DebugParseLine(raw: string, serverStatus: bool, daemons: seq<Daemon>, features: seq<Feature>,
                        users: seq<UserRecord>, current: bool, inUsers: bool)
    returns (serverStatus': bool, daemons': seq<Daemon>, features': seq<Feature>,
             users': seq<UserRecord>, current': bool, inUsers': bool)
    requires Valid(ParseState(Report(serverStatus, daemons, features, users), current, inUsers))
    ensures ParseState(Report(serverStatus', daemons', features', users'), current', inUsers') ==
      DebugStep(ParseState(Report(serverStatus, daemons, features, users), current, inUsers), raw)
  {
    ghost var st := ParseState(Report(serverStatus, daemons, features, users), current, inUsers);
    serverStatus', daemons', features', users', current', inUsers' := serverStatus, daemons, features, users, current, inUsers;
    var line := Strip(raw);
    if Contains(line, ServerUp) {
      serverStatus' := true;
    } else if Contains(line, ServerDown) {
      serverStatus' := false;
    }
    var daemon := DaemonMatch(line);
    if daemon.Some? {
      daemons' := daemons' + [Daemon(daemon.value.name, "UP", daemon.value.version)];
    }
    ghost var st0 := Observe(st, line);
    assert ParseState(Report(serverStatus', daemons', features', users'), current', inUsers') == st0;
    var header := HeaderMatch(line);
    if header.Some? {
      var h := header.value;
      features' := features' + [Feature(h.name, h.total, h.used, h.total - h.used, [])];
      current' := true;
      inUsers' := true;
      assert DebugStep(st, raw) == OpenFeature(st0, h);
      assert features' == st0.report.features + [NewFeature(h)];
      assert ParseState(Report(serverStatus', daemons', features', users'), current', inUsers') == OpenFeature(st0, h);
      return;
    }
    if inUsers' && current' {
      var user := DebugFindUser(raw);
      if user.Some? {
        var f := features'[|features'| - 1];
        var u := UserRecord(user.value.username, user.value.hostname, user.value.display, f.name);
        features' := features'[..|features'| - 1] + [f.(users := f.users + [u])];
        users' := users' + [u];
        assert DebugTake(st0, raw) == AddUser(st0, user.value);
      }
      ghost var st1 := DebugTake(st0, raw);
      assert ParseState(Report(serverStatus', daemons', features', users'), current', inUsers') == st1;
      if line == [] || StartsWith(line, "Users of ") || StartsWith(line, "\"") {
        inUsers' := false;
        current' := false;
      }
    }
  }

  /** The debug parser's loop over the lines of the output. */
  method DebugParseLmstatOutput(output: string) returns (data: Report)
    ensures data == DebugParse(output)
  {
    var lines := Split(output, '\n');
    var serverStatus := false;
    var daemons: seq<Daemon> := [];
    var features: seq<Feature> := [];
    var users: seq<UserRecord> := [];
    var current := false;
    var inUsers := false;
    StartValid();
    for i := 0 to |lines|
      invariant ParseState(Report(serverStatus, daemons, features, users), current, inUsers) == DebugRun(Start, lines[..i])
    {
      DebugRunSnoc(lines, i);
      serverStatus, daemons, features, users, current, inUsers :=
        DebugParseLine(lines[i], serverStatus, daemons, features, users, current, inUsers);
    }
    assert lines[..|lines|] == lines;
    data := Report(serverStatus, daemons, features, users);
  }

  // ===========================================================================
  // What one line does, and how the two parsers differ
  // ===========================================================================

  /** The raw line is taken as a checkout by the debug parser: a section is
      open, the stripped line is no header, and one of the patterns matches. */
  predicate DebugTakesUser(st: ParseState, raw: string) {
    st.current && HeaderMatch(Strip(raw)).None? && DebugUserMatch(raw).Some?
  }

  /** Status and daemons: the same updates as in the exporter's parser. */
  lemma DebugStepObserves(st: ParseState, raw: string)
    requires Valid(st)
    ensures DebugStep(st, raw).report.serverStatus == StatusAfter(st.report.serverStatus, Strip(raw))
    ensures DebugStep(st, raw).report.daemons == st.report.daemons + DaemonsOfLine(Strip(raw))
  {
  }

  /** The features, users aside: a header line appends its feature, no other
      line changes them, as in the exporter's parser. */
  lemma DebugStepHeaders(st: ParseState, raw: string)
    requires Valid(st)
    ensures Bare(DebugStep(st, raw).report.features) == Bare(st.report.features) + Bare(HeadersOfLine(Strip(raw)))
  {
    var line := Strip(raw);
    var fs := st.report.features;
    match HeaderMatch(line)
    case Some(h) =>
      BareSnoc(fs, NewFeature(h));
      BareSnoc([], NewFeature(h));
    case None =>
      assert Bare(HeadersOfLine(line)) == [];
      if DebugTakesUser(st, raw) {
        var fs' := AddUser(Observe(st, line), DebugUserMatch(raw).value).report.features;
        BareUsers(fs, fs');
      }
  }

  /** The users: a record is added exactly when the debug parser takes the
      line as a checkout of the current feature. */
  lemma DebugStepUsers(st: ParseState, raw: string)
    requires Valid(st)
    ensures DebugTakesUser(st, raw) ==>
      DebugStep(st, raw).report.users == st.report.users + [UserOf(st.report.features, DebugUserMatch(raw).value)]
    ensures !DebugTakesUser(st, raw) ==> DebugStep(st, raw).report.users == st.report.users
  {
  }

  /** The section state: a header opens one; in an open section an empty
      line, a `Users of ` line or a line starting with `"` closes it, after
      its user patterns have been tried. */
  lemma DebugStepSection(st: ParseState, raw: string)
    requires Valid(st)
    ensures DebugStep(st, raw).current <==>
      HeaderMatch(Strip(raw)).Some? || (st.current && !Closes(Strip(raw)))
  {
  }

  /** A line the exporter's parser takes as a checkout, the debug parser
      takes too, with the same record. */
  lemma MainUserLineAgrees(st: ParseState, raw: string)
    requires Valid(st) && TakesUser(st, raw)
    ensures DebugTakesUser(st, raw)
    ensures DebugStep(st, raw).report.users == LineStep(st, raw).report.users
  {
    MainUserImpliesDebug(raw);
    LineStepUsers(st, raw);
    DebugStepUsers(st, raw);
  }

  /** A line of white space only closes the debug parser's section and
      changes nothing else, where the exporter's parser ignores it. */
  lemma DebugBlankLine(st: ParseState, raw: string)
    requires Valid(st) && AllOf(Space, raw)
    ensures DebugStep(st, raw) == (if st.current then CloseSection(st) else st)
    ensures LineStep(st, raw) == st
  {
    BlankLine(st, raw);
    StripBlank(raw);
    assert !Contains([], ServerUp) && !Contains([], ServerDown);
    DaemonMatchNone([]);
    HeaderMatchNone([]);
    NoParenNoUser(raw);
  }

  /** A line that carries none of the phrases the parsers look for and no
      parenthesis changes nothing in the debug parser either, unless it
      closes the section (a quoted title line does). */
  lemma DebugQuietLine(st: ParseState, raw: string)
    requires Valid(st)
    requires forall i :: 0 <= i < |raw| ==> raw[i] != '('
    requires !Reports(Strip(raw)) && !Contains(Strip(raw), ": UP v") && !Contains(Strip(raw), "Users of ")
    ensures !Closes(Strip(raw)) ==> DebugStep(st, raw) == st
    ensures Closes(Strip(raw)) ==> DebugStep(st, raw) == (if st.current then CloseSection(st) else st)
  {
    NoDaemon(Strip(raw));
    NoHeader(Strip(raw));
    NoParenNoUser(raw);
  }

  /** Once no section is open, lines without a header add no user and no
      feature, and no section opens. */
  lemma {:induction false} DebugClosedStaysClosed(st: ParseState, lines: seq<string>)
    requires Valid(st) && !st.current
    requires forall i :: 0 <= i < |lines| ==> HeaderMatch(Strip(lines[i])).None?
    ensures !DebugRun(st, lines).current
    ensures DebugRun(st, lines).report.users == st.report.users
    ensures DebugRun(st, lines).report.features == st.report.features
    decreases |lines|
  {
    if lines != [] {
      var init := lines[..|lines| - 1];
      assert forall i :: 0 <= i < |init| ==> init[i] == lines[i];
      DebugClosedStaysClosed(st, init);
      var last := lines[|lines| - 1];
      DebugStepSection(DebugRun(st, init), last);
      DebugStepUsers(DebugRun(st, init), last);
    }
  }

  /** A header followed by a blank line: the exporter's parser keeps the
      feature's section open, the debug parser closes it, so the user lines
      that follow are only counted by the exporter's parser. */
  lemma HeaderThenBlank(st: ParseState, header: string, blank: string)
    requires Valid(st) && HeaderMatch(Strip(header)).Some? && AllOf(Space, blank)
    ensures LineStep(LineStep(st, header), blank).current
    ensures !DebugStep(DebugStep(st, header), blank).current
  {
    LineStepSection(st, header);
    DebugStepSection(st, header);
    BlankLine(LineStep(st, header), blank);
    DebugBlankLine(DebugStep(st, header), blank);
  }

  // ===========================================================================
  // What the whole pass computes
  // ===========================================================================

  /** The debug parser agrees with the exporter's parser on the server
      status, the daemons and the features apart from their users. */
  lemma {:induction false} SameSummary(lines: seq<string>)
    ensures DebugRun(Start, lines).report.serverStatus == Run(Start, lines).report.serverStatus
    ensures DebugRun(Start, lines).report.daemons == DaemonsIn(lines)
    ensures Bare(DebugRun(Start, lines).report.features) == HeadersIn(lines)
    decreases |lines|
  {
    StartValid();
    RunDaemons(lines);
    RunHeaders(lines);
    if lines != [] {
      var init := lines[..|lines| - 1];
      var last := lines[|lines| - 1];
      SameSummary(init);
      RunDaemons(init);
      RunHeaders(init);
      var d := DebugRun(Start, init);
      DebugStepObserves(d, last);
      DebugStepHeaders(d, last);
      LineStepObserves(Run(Start, init), last);
      var hs := HeadersOfLine(Strip(last));
      assert Bare(hs) == hs by {
        if hs != [] {
          assert hs[..0] == [];
        }
      }
    }
  }
}
