/**
  The regular expressions of the two lmstat parsers (flexlm_exporter.py and
  debug_parser.py) as patterns of the Patterns module, and the groups each
  parser reads from a match. Each pattern is guarded, so what the matchers
  report is exactly what Python's `re` reports: the `...Complete` lemmas
  state that text of the pattern's shape is found with the same groups.
*/
module LineMatchers {
  import opened Wrappers
  import opened Text
  import opened Patterns

  /** The first three pieces of a match, written out. */
  lemma Concat3(ps: seq<string>)
    requires |ps| >= 3
    ensures Concat(ps) == ps[0] + (ps[1] + (ps[2] + Concat(ps[3..])))
  {
    ConcatCons(ps);
    ConcatCons(ps[1..]);
    ConcatCons(ps[2..]);
    assert ps[1..][1..] == ps[2..] && ps[2..][1..] == ps[3..];
  }

  // ===========================================================================
  // Daemon status: r'(\w+): UP v([0-9.]+)', searched in the stripped line
  // ===========================================================================

  const DaemonPattern: Pattern := Then(Plus(Word), Then(Lit(": UP v"), Then(Plus(Version), End)))

  datatype DaemonGroups = DaemonGroups(name: string, version: string)

  /** The daemon name and version the search reports, if any. */
  function DaemonMatch(line: string): (r: Option<DaemonGroups>)
    ensures r.Some? ==> RunOf(Word, r.value.name) && RunOf(Version, r.value.version)
    ensures r.Some? ==> Contains(line, r.value.name + (": UP v" + r.value.version))
  {
    SearchLeftmost(DaemonPattern, line, 0);
    match Search(DaemonPattern, line, 0)
    case None => None
    case Some((q, ps)) =>
      MatchAtSound(DaemonPattern, line, q);
      FitsAt(DaemonPattern, ps, 0);
      FitsAt(DaemonPattern, ps, 1);
      FitsAt(DaemonPattern, ps, 2);
      Concat3(ps);
      assert ps[3..] == [];
      assert ps[2] + [] == ps[2];
      Some(DaemonGroups(ps[0], ps[2]))
  }

  /** No daemon is reported only when the pattern matches nowhere in the line. */
  lemma DaemonMatchNone(line: string)
    ensures DaemonMatch(line).None? <==> forall q: nat :: q <= |line| ==> MatchAt(DaemonPattern, line, q).None?
  {
    SearchLeftmost(DaemonPattern, line, 0);
  }

  /** A line without `: UP v` names no daemon. */
  lemma NoDaemon(line: string)
    requires !Contains(line, ": UP v")
    ensures DaemonMatch(line).None?
  {
    forall q: nat | q <= |line| ensures MatchAt(DaemonPattern, line, q).None? {
      MatchContainsLit(DaemonPattern, line, q, ": UP v");
    }
    DaemonMatchNone(line);
  }

  /** A daemon line found at its leftmost position gives its name and
      version, the version run taken as far as it goes. */
  lemma DaemonMatchComplete(line: string, q: nat, name: string, version: string)
    requires RunOf(Word, name) && RunOf(Version, version)
    requires HasAt(line, q, name + (": UP v" + version))
    requires RunStops(Version, line, q + |name| + 6 + |version|)
    requires forall q': nat :: q' < q ==> MatchAt(DaemonPattern, line, q').None?
    ensures DaemonMatch(line) == Some(DaemonGroups(name, version))
  {
    var ps := [name, ": UP v", version];
    Concat3(ps);
    assert ps[3..] == [] && version + [] == version;
    assert Fits(DaemonPattern, ps) by {
      assert ps[1..][1..] == [version] && [version][1..] == [];
      assert Fits(Then(Plus(Version), End), [version]);
      assert Fits(DaemonPattern.rest, ps[1..]);
    }
    MatchAtComplete(DaemonPattern, line, q, ps);
    SearchComplete(DaemonPattern, line, 0, q, ps);
    SearchLeftmost(DaemonPattern, line, 0);
  }

  // ===========================================================================
  // Feature header, searched in the stripped line:
  //   r'Users of (\w+):\s+\(Total of (\d+) license[s]? issued;\s+Total of (\d+) license[s]? in use\)'
  // ===========================================================================

  /** `Users of (\w+):\s+\(Total of ` */
  const HeaderName: Pattern :=
    Then(Lit("Users of "), Then(Plus(Word), Then(Lit(":"), Then(Plus(Space), Then(Lit("(Total of "), End)))))

  /** `(\d+) license[s]?` and the text after it. */
  function CountOf(suffix: string): Pattern {
    Then(Plus(Digit), Then(Lit(" license"), Then(Opt('s'), Then(Lit(suffix), End))))
  }

  /** `\s+Total of (\d+) license[s]? in use\)` */
  const HeaderUsed: Pattern := Then(Plus(Space), Then(Lit("Total of "), CountOf(" in use)")))

  const HeaderPattern: Pattern := Cat(HeaderName, Cat(CountOf(" issued;"), HeaderUsed))

  /** The feature name and the two counts, as `int()` reads them. */
  datatype HeaderGroups = HeaderGroups(name: string, total: nat, used: nat)

  /** The pieces of `CountOf(suffix)`: the digits come first. */
  lemma CountPieces(suffix: string, c: seq<string>)
    requires Fits(CountOf(suffix), c)
    ensures |c| == 4 && RunOf(Digit, c[0])
  {
    var c1 := c[1..];
    assert Fits(Then(Lit(" license"), Then(Opt('s'), Then(Lit(suffix), End))), c1);
    var c2 := c1[1..];
    assert Fits(Then(Opt('s'), Then(Lit(suffix), End)), c2);
    var c3 := c2[1..];
    assert Fits(Then(Lit(suffix), End), c3);
    assert Fits(End, c3[1..]);
  }

  /** The pieces of `HeaderUsed`: the digits are the third. */
  lemma UsedPieces(d: seq<string>)
    requires Fits(HeaderUsed, d)
    ensures |d| == 6 && RunOf(Digit, d[2])
  {
    CountPieces(" in use)", d[2..]);
    assert d[1..][1..] == d[2..];
  }

  /** The pieces of a header match: the literal start, the name (piece 1)
      and the digits of the two counts (pieces 5 and 11). */
  lemma HeaderPieces(ps: seq<string>)
    requires Fits(HeaderPattern, ps)
    ensures |ps| == 15
    ensures ps[0] == "Users of " && RunOf(Word, ps[1]) && ps[2] == ":"
    ensures RunOf(Digit, ps[5]) && RunOf(Digit, ps[11])
  {
    FitsCat(HeaderName, Cat(CountOf(" issued;"), HeaderUsed), ps);
    var a, b := ps[..5], ps[5..];
    FitsAt(HeaderName, a, 0);
    FitsAt(HeaderName, a, 1);
    FitsAt(HeaderName, a, 2);
    FitsCat(CountOf(" issued;"), HeaderUsed, b);
    CountPieces(" issued;", b[..4]);
    UsedPieces(b[4..]);
    assert b[4..][2] == ps[11];
  }

  /** A header match at `q`: its name is a word, preceded in the line by
      `Users of ` and followed by a colon. */
  lemma HeaderFound(line: string, q: nat, ps: seq<string>)
    requires q <= |line| && MatchAt(HeaderPattern, line, q) == Some(ps)
    ensures |ps| == 15 && RunOf(Word, ps[1]) && Contains(line, "Users of " + ps[1] + ":")
    ensures RunOf(Digit, ps[5]) && RunOf(Digit, ps[11])
  {
    MatchAtSound(HeaderPattern, line, q);
    HeaderPieces(ps);
    Concat3(ps);
    HasAtConcat(line, q, ps[0] + (ps[1] + ps[2]), Concat(ps[3..]));
    assert ps[0] + (ps[1] + (ps[2] + Concat(ps[3..]))) == ps[0] + (ps[1] + ps[2]) + Concat(ps[3..]);
    assert ps[0] + (ps[1] + ps[2]) == "Users of " + ps[1] + ":";
  }

  function HeaderMatch(line: string): (r: Option<HeaderGroups>)
    ensures r.Some? ==> RunOf(Word, r.value.name) && Contains(line, "Users of " + r.value.name + ":")
  {
    SearchHit(HeaderPattern, line, 0);
    match Search(HeaderPattern, line, 0)
    case None => None
    case Some((q, ps)) =>
      HeaderFound(line, q, ps);
      Some(HeaderGroups(ps[1], ParseNat(ps[5]), ParseNat(ps[11])))
  }

  /** No header is reported only when the pattern matches nowhere in the line. */
  lemma HeaderMatchNone(line: string)
    ensures HeaderMatch(line).None? <==> forall q: nat :: q <= |line| ==> MatchAt(HeaderPattern, line, q).None?
  {
    SearchLeftmost(HeaderPattern, line, 0);
  }

  /** A line without `Users of ` is no header. */
  lemma NoHeader(line: string)
    requires !Contains(line, "Users of ")
    ensures HeaderMatch(line).None?
  {
    assert HeaderPattern.first == Lit("Users of ");
    forall q: nat | q <= |line| ensures MatchAt(HeaderPattern, line, q).None? {
      MatchContainsLit(HeaderPattern, line, q, "Users of ");
    }
    HeaderMatchNone(line);
  }

  lemma HeaderGuarded()
    ensures Guarded(HeaderPattern)
  {
    GuardedCat(CountOf(" issued;"), HeaderUsed);
    GuardedCat(HeaderName, Cat(CountOf(" issued;"), HeaderUsed));
  }

  /** A header at the start of the (stripped) line gives its name and counts. */
  lemma HeaderMatchComplete(line: string, ps: seq<string>)
    requires Fits(HeaderPattern, ps) && HasAt(line, 0, Concat(ps))
    ensures |ps| == 15 && RunOf(Digit, ps[5]) && RunOf(Digit, ps[11])
    ensures HeaderMatch(line).Some?
    ensures var h := HeaderMatch(line).value;
      h.name == ps[1] && h.total == ParseNat(ps[5]) && h.used == ParseNat(ps[11])
  {
    HeaderGuarded();
    HeaderPieces(ps);
    LastCat(CountOf(" issued;"), HeaderUsed);
    LastCat(HeaderName, Cat(CountOf(" issued;"), HeaderUsed));
    MatchAtComplete(HeaderPattern, line, 0, ps);
    SearchComplete(HeaderPattern, line, 0, 0, ps);
    SearchLeftmost(HeaderPattern, line, 0);
  }

  // ===========================================================================
  // User checkout lines, matched in the unstripped line
  //   main parser  r'^\s+(\S+)\s+(\S+)\s+(\S+)\s+\([^)]+\)\s+\([^)]+\s+\d+\)'
  //   debug #1     r'^\s*(\S+)\s+(\S+)\s+(\S+)\s+\([^)]+\)\s+\([^)]+\s+\d+\)'
  //   debug #2     r'(\S+)\s+(\S+)\s+(\S+)\s+\([^)]+\)\s+\([^)]+\s+\d+\)'
  //   debug #3     r'^\s*(\S+)\s+(\S+)\s+(\S+)\s+\(.*?\)'
  // A pattern anchored with `^` and passed to re.search can only match at
  // position 0. In #3 the lazy `.*?` before `\)` ends at the first `)` that is
  // not preceded by a line break, which is the greedy `[^)\n]*` followed by `)`.
  // ===========================================================================

  /** `(\S+)\s+(\S+)\s+(\S+)\s+` */
  const Tokens: Pattern :=
    Then(Plus(NonSpace), Then(Plus(Space), Then(Plus(NonSpace), Then(Plus(Space), Then(Plus(NonSpace), Then(Plus(Space), End))))))

  /** `\([^)]+\)\s+\([^)]+\s+\d+\)` */
  const CheckoutFields: Pattern :=
    Then(Lit("("), Then(Plus(Except(')')), Then(Lit(")"), Then(Plus(Space), Then(Lit("("), Then(Handle, Then(Lit(")"), End)))))))

  /** `\(.*?\)` */
  const ParenField: Pattern := Then(Lit("("), Then(Star(ExceptEither(')', '\n')), Then(Lit(")"), End)))

  const MainUserPattern: Pattern := Then(Plus(Space), Cat(Tokens, CheckoutFields))
  const DebugPattern1: Pattern := Then(Star(Space), Cat(Tokens, CheckoutFields))
  const DebugPattern2: Pattern := Cat(Tokens, CheckoutFields)
  const DebugPattern3: Pattern := Then(Star(Space), Cat(Tokens, ParenField))

  /** Groups 1 to 3 of a user line. */
  datatype UserGroups = UserGroups(username: string, hostname: string, display: string)

  predicate UserShape(g: UserGroups) {
    RunOf(NonSpace, g.username) && RunOf(NonSpace, g.hostname) && RunOf(NonSpace, g.display)
  }

  /** The three tokens of a match that starts with them. */
  function TokenGroups(ts: seq<string>): UserGroups
    requires |ts| >= 5
  {
    UserGroups(ts[0], ts[2], ts[4])
  }

  lemma TokensShape(fields: Pattern, ts: seq<string>)
    requires Fits(Cat(Tokens, fields), ts)
    ensures |ts| >= 6 && UserShape(TokenGroups(ts))
  {
    FitsCat(Tokens, fields, ts);
    FitsAt(Tokens, ts[..6], 0);
    FitsAt(Tokens, ts[..6], 2);
    FitsAt(Tokens, ts[..6], 4);
  }

  /** The main parser's user pattern, matched at the start of the raw line. */
  function MainUserMatch(raw: string): (r: Option<UserGroups>)
    ensures r.Some? ==> UserShape(r.value)
    ensures r.Some? ==> |raw| > 0 && In(Space, raw[0])
  {
    MatchAtSound(MainUserPattern, raw, 0);
    match MatchAt(MainUserPattern, raw, 0)
    case None => None
    case Some(ps) =>
      TokensShape(CheckoutFields, ps[1..]);
      ConcatCons(ps);
      FirstChar(raw, 0, Concat(ps));
      Some(TokenGroups(ps[1..]))
  }

  /** One of the debug parser's patterns: whether it is anchored with `^`
      (so that re.search can only match at the start), and how many pieces
      of a match come before group 1. */
  datatype UserRegex = UserRegex(pat: Pattern, anchored: bool, lead: nat)

  /** The debug parser's patterns, in the order it tries them. */
  const DebugRegexes: seq<UserRegex> :=
    [UserRegex(DebugPattern1, true, 1), UserRegex(DebugPattern2, false, 0), UserRegex(DebugPattern3, true, 1)]

  /** The pieces of the match re.search reports for the pattern, if any. */
  function SearchUser(u: UserRegex, raw: string): Option<seq<string>> {
    if u.anchored then MatchAt(u.pat, raw, 0)
    else match Search(u.pat, raw, 0) case Some((_, ps)) => Some(ps) case None => None
  }

  /** Groups 1 to 3 of the match, if the pattern matches. The length test
      always passes for the debug patterns (lemma TryUserShape). */
  function TryUser(u: UserRegex, raw: string): Option<UserGroups> {
    match SearchUser(u, raw)
    case Some(ps) => if |ps| >= u.lead + 5 then Some(TokenGroups(ps[u.lead..])) else None
    case None => None
  }

  /** The groups of the first pattern that matches. */
  function FirstUser(us: seq<UserRegex>, raw: string): Option<UserGroups>
    decreases |us|
  {
    if us == [] then None
    else match TryUser(us[0], raw) case Some(g) => Some(g) case None => FirstUser(us[1..], raw)
  }

  /** The debug parser's user matcher: its three patterns in turn. */
  function DebugUserMatch(raw: string): Option<UserGroups> {
    FirstUser(DebugRegexes, raw)
  }

  /** Each debug pattern matches exactly when it yields groups, and the
      groups are three runs of non-space characters. */
  lemma {:induction false} TryUserShape(k: nat, raw: string)
    requires k < |DebugRegexes|
    ensures TryUser(DebugRegexes[k], raw).Some? <==> SearchUser(DebugRegexes[k], raw).Some?
    ensures TryUser(DebugRegexes[k], raw).Some? ==> UserShape(TryUser(DebugRegexes[k], raw).value)
  {
    var u := DebugRegexes[k];
    match SearchUser(u, raw)
    case None =>
    case Some(ps) =>
      if k == 1 {
        SearchLeftmost(DebugPattern2, raw, 0);
        var q := Search(DebugPattern2, raw, 0).value.0;
        MatchAtFits(DebugPattern2, raw, q);
        TokensShape(CheckoutFields, ps);
        assert ps[0..] == ps;
      } else if k == 0 {
        MatchAtFits(DebugPattern1, raw, 0);
        TokensShape(CheckoutFields, ps[1..]);
      } else {
        MatchAtFits(DebugPattern3, raw, 0);
        TokensShape(ParenField, ps[1..]);
      }
  }

  /** The first pattern of the list that yields groups decides. */
  lemma DebugUserMatchCases(raw: string)
    ensures DebugUserMatch(raw) ==
      if TryUser(DebugRegexes[0], raw).Some? then TryUser(DebugRegexes[0], raw)
      else if TryUser(DebugRegexes[1], raw).Some? then TryUser(DebugRegexes[1], raw)
      else TryUser(DebugRegexes[2], raw)
  {
    var us := DebugRegexes;
    var t2 := us[1..][1..];
    assert t2[0] == us[2] && t2[1..] == [];
    assert FirstUser(t2, raw) == TryUser(us[2], raw);
    assert us[1..][0] == us[1];
    assert FirstUser(us[1..], raw) ==
      if TryUser(us[1], raw).Some? then TryUser(us[1], raw) else FirstUser(t2, raw);
    assert FirstUser(us, raw) ==
      if TryUser(us[0], raw).Some? then TryUser(us[0], raw) else FirstUser(us[1..], raw);
  }

  /** What the debug parser reports is a user in the shape of the patterns. */
  lemma DebugUserShape(raw: string)
    ensures DebugUserMatch(raw).Some? ==> UserShape(DebugUserMatch(raw).value)
  {
    DebugUserMatchCases(raw);
    TryUserShape(0, raw);
    TryUserShape(1, raw);
    TryUserShape(2, raw);
  }

  lemma UserPatternsGuarded()
    ensures Guarded(MainUserPattern) && Guarded(DebugPattern1)
    ensures Guarded(DebugPattern2) && Guarded(DebugPattern3)
  {
    GuardedCat(Tokens, CheckoutFields);
    GuardedCat(Tokens, ParenField);
  }

  /** A checkout line in the main pattern's shape gives its three tokens. */
  lemma MainUserMatchComplete(raw: string, ps: seq<string>)
    requires Fits(MainUserPattern, ps) && HasAt(raw, 0, Concat(ps))
    ensures |ps| >= 6 && MainUserMatch(raw) == Some(TokenGroups(ps[1..]))
  {
    UserPatternsGuarded();
    LastCat(Tokens, CheckoutFields);
    MatchAtComplete(MainUserPattern, raw, 0, ps);
  }

  /** Every line the main parser takes as a user line, the debug parser
      takes as one too, with the same username, hostname and display. */
  lemma MainUserImpliesDebug(raw: string)
    ensures MainUserMatch(raw).Some? ==> DebugUserMatch(raw) == MainUserMatch(raw)
  {
    if MainUserMatch(raw).Some? {
      var ps := MatchAt(MainUserPattern, raw, 0).value;
      MatchAtSound(MainUserPattern, raw, 0);
      assert Fits(DebugPattern1, ps);
      UserPatternsGuarded();
      LastCat(Tokens, CheckoutFields);
      MatchAtComplete(DebugPattern1, raw, 0, ps);
      DebugUserMatchCases(raw);
    }
  }

  /** A checkout line without leading whitespace: the main pattern misses it,
      the debug parser's first pattern finds it. */
  lemma UnindentedUserLine(raw: string, ps: seq<string>)
    requires Fits(DebugPattern2, ps) && HasAt(raw, 0, Concat(ps))
    ensures MainUserMatch(raw).None?
    ensures |ps| >= 5 && DebugUserMatch(raw) == Some(TokenGroups(ps))
  {
    TokensShape(CheckoutFields, ps);
    ConcatCons(ps);
    FirstChar(raw, 0, Concat(ps));
    var ps1 := [[]] + ps;
    assert ps1[1..] == ps;
    ConcatCons(ps1);
    assert Concat(ps1) == Concat(ps);
    assert Fits(DebugPattern1, ps1);
    UserPatternsGuarded();
    LastCat(Tokens, CheckoutFields);
    MatchAtComplete(DebugPattern1, raw, 0, ps1);
    DebugUserMatchCases(raw);
  }

  /** A line without an opening parenthesis is not a user line for either parser. */
  lemma NoParenNoUser(raw: string)
    requires forall i :: 0 <= i < |raw| ==> raw[i] != '('
    ensures MainUserMatch(raw).None? && DebugUserMatch(raw).None?
  {
    NoCharNotContains(raw, "(", 0, '(');
    HasLitCat(Tokens, CheckoutFields, "(");
    HasLitCat(Tokens, ParenField, "(");
    MatchContainsLit(MainUserPattern, raw, 0, "(");
    MatchContainsLit(DebugPattern1, raw, 0, "(");
    MatchContainsLit(DebugPattern3, raw, 0, "(");
    forall q: nat | q <= |raw| ensures MatchAt(DebugPattern2, raw, q).None? {
      MatchContainsLit(DebugPattern2, raw, q, "(");
    }
    SearchLeftmost(DebugPattern2, raw, 0);
    DebugUserMatchCases(raw);
  }
}
