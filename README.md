# FlexLM exporter core, in Dafny

A Dafny model of the core logic of a Prometheus exporter for FlexLM
license servers, with proofs. The model covers four parts:

- **The `lmstat -a` report parser** (`FlexLMExporter.parse_lmstat_output`).
  It makes one pass over the lines. On each line it looks for:
  - the server-status phrases;
  - daemon lines (`<name>: UP v<version>`);
  - feature headers (`Users of <feature>: (Total of N licenses issued; Total of M licenses in use)`);
  - indented checkout lines of the feature whose section is open.
- **The metric part of `collect_metrics`.** It goes from the return code of
  `lmstat` and the parsed report to the gauge updates, including the
  per-host count.
- **The debug variant of the parser** (`debug_parse_lmstat_output`). It has
  three fallback user patterns and a stricter rule for ending a section.
- **The `ActiveDirectoryHelper`.** This covers its TTL cache of user
  locations, `_extract_user_info`, and the search bases and filters of
  `_search_user` with their first-hit order. It also covers `clear_cache`
  and `is_enabled`.

Modules (one file each):

- `Wrappers`: `Option`.
- `Text`: ASCII character classes, `strip`, `split`, `join`, `replace`,
  `int()`, and decimal rendering.
- `Patterns`: the fragment of Python's `re` that the parsers use.
  - A greedy matcher is proved sound and complete for guarded patterns.
  - `re.search` is modelled as a leftmost scan.
- `LineMatchers`: the five regular expressions of the two parsers, and the
  groups read from them.
- `LmstatReport`: the report dictionary, the state carried from line to
  line, and the per-line updates both parsers share.
- `LmstatParser`: the exporter's parser.
  - `LineStep` and `Run` give the meaning of one line and of the whole pass.
  - `ParseLine` and `ParseLmstatOutput` are the loop, proved to compute them.
  - The remaining lemmas state what the pass produces.
- `DebugParser`: the same for the debug parser, plus where the two parsers
  agree and where they differ.
- `Exporter`: the class `FlexLMExporter`. Every gauge is a map from label
  values to an integer, and the error counter is a `nat`.
- `DirectoryHelper`: the class `ActiveDirectoryHelper`.
  - The directory is a search function from a search base and a filter to
    an outcome.
  - The clock is an integer parameter, in seconds.
  - Whether an LDAP bind succeeds is a parameter.

## Model

| member | source | states |
|---|---|---|
| Text.Strip | flexlm_exporter.py:146 | the result is a slice of the line without leading or trailing whitespace; empty only for an all-whitespace line |
| Text.StripPadded | flexlm_exporter.py:146 | stripping whitespace padding around a text that neither starts nor ends with whitespace gives the text |
| Text.StripBlank | flexlm_exporter.py:146 | an all-whitespace line strips to the empty string |
| Text.Split | flexlm_exporter.py:140 | `split('\n')` always yields at least one piece |
| Text.SplitPieces | flexlm_exporter.py:140 | no piece of a split contains the separator |
| Text.JoinSplit | flexlm_exporter.py:140 | joining the pieces of a split with the separator gives back the text |
| Text.SplitJoin | flexlm_exporter.py:140 | splitting a join of separator-free pieces gives back the pieces |
| Text.ReplaceJoin | active_directory_helper.py:242 | replacing the separator of a join by `r` is the same as joining with `r` |
| Text.ParseShowNat | flexlm_exporter.py:169-170 | `int()` of the decimal rendering of a number is the number |
| Patterns.MatchAtSound | flexlm_exporter.py:155 | a match's pieces have the shapes of the pattern's elements and lie back to back in the line at the match position |
| Patterns.MatchAtEnds | flexlm_exporter.py:155 | a match ends where its final greedy run cannot be extended |
| Patterns.MatchAtComplete | flexlm_exporter.py:155 | for a guarded pattern, any pieces of the right shapes lying back to back, with a final run that cannot be extended, are exactly the match reported (so greedy matching equals a backtracking engine) |
| Patterns.SearchLeftmost | flexlm_exporter.py:155 | `re.search` reports the leftmost position where the pattern matches, and reports nothing only when it matches nowhere |
| Patterns.SearchHit | flexlm_exporter.py:155 | where the search reports a match, the pattern matches there with the reported pieces |
| Patterns.SearchComplete | flexlm_exporter.py:155 | a match at `q` with none before it is what the search reports |
| Patterns.MatchContainsLit | flexlm_exporter.py:155 | a pattern with a literal element matches only in lines that contain the literal |
| LineMatchers.DaemonMatch | flexlm_exporter.py:155-158 | a reported daemon has a word name and a version of digits and dots, and `<name>: UP v<version>` occurs in the line |
| LineMatchers.DaemonMatchNone | flexlm_exporter.py:155-156 | no daemon is reported exactly when the pattern matches at no position |
| LineMatchers.DaemonMatchComplete | flexlm_exporter.py:155-158 | a leftmost `<name>: UP v<version>` with a maximal version gives that name and version |
| LineMatchers.NoDaemon | flexlm_exporter.py:155-156 | a line without `: UP v` reports no daemon |
| LineMatchers.HeaderFound | flexlm_exporter.py:166-170 | a header match has a word name preceded by `Users of ` and followed by `:`, and digit groups for both counts |
| LineMatchers.HeaderMatch | flexlm_exporter.py:166-170 | a reported header has a word name and `Users of <name>:` occurs in the line |
| LineMatchers.HeaderMatchNone | flexlm_exporter.py:166-167 | no header is reported exactly when the pattern matches at no position |
| LineMatchers.HeaderMatchComplete | flexlm_exporter.py:166-170 | a line that starts with text in the header's shape gives its name and `int()` of both counts |
| LineMatchers.NoHeader | flexlm_exporter.py:166-167 | a line without `Users of ` is no header |
| LineMatchers.HeaderPieces | flexlm_exporter.py:166-170 | a header match has 15 pieces: `Users of `, the name, `:`, and the two digit runs at pieces 5 and 11 |
| LineMatchers.MainUserMatch | flexlm_exporter.py:191-195 | a user line starts with whitespace, and its username, hostname and display are runs of non-space characters |
| LineMatchers.MainUserMatchComplete | flexlm_exporter.py:191-195 | a raw line in the main user pattern's shape gives its first three tokens |
| LineMatchers.TryUserShape | debug_parser.py:74-86 | each debug pattern yields groups exactly when it matches, and the groups are three non-space runs |
| LineMatchers.DebugUserMatchCases | debug_parser.py:80-99 | the first of the three patterns, in order, that matches decides the groups |
| LineMatchers.DebugUserShape | debug_parser.py:84-86 | the debug parser's user groups are three non-space runs |
| LineMatchers.MainUserImpliesDebug | debug_parser.py:75 | every line the main pattern accepts, the debug parser accepts with the same three groups |
| LineMatchers.UnindentedUserLine | debug_parser.py:75-76 | a checkout line without leading whitespace: the main pattern (which needs `^\s+`) misses it, and the debug parser takes its first three tokens (already its first pattern matches, since its `^\s*` may be empty) |
| LineMatchers.NoParenNoUser | flexlm_exporter.py:191 | a line without `(` is a user line for neither parser |
| LmstatReport.StartValid | flexlm_exporter.py:133-142 | the empty report with no current feature satisfies the parser's invariant |
| LmstatReport.ConsistentAt | flexlm_exporter.py:172-205 | in a consistent feature list every feature has `available == total - used`, and its user records name it |
| LmstatReport.StatusAfter | flexlm_exporter.py:148-152 | a line that mentions `license server UP` sets the status; else one that mentions `Cannot connect to license server` clears it; else it is kept |
| LmstatReport.DaemonOf | flexlm_exporter.py:154-163 | the record has status `UP`, a word name and a version run, and `<name>: UP v<version>` occurs in the line |
| LmstatReport.Observe | flexlm_exporter.py:148-163 | the status and daemon updates of every line: status after the line, one daemon appended when the pattern matches, nothing else changed |
| LmstatReport.NewFeature | flexlm_exporter.py:166-178 | the feature has the header's name, total and used, `available = total - used` unclamped, and no users |
| LmstatReport.OpenFeature | flexlm_exporter.py:172-180 | a header appends its feature, makes it current and opens its section, and keeps the invariant |
| LmstatReport.CloseSection | flexlm_exporter.py:184-186 | no feature is current afterwards and the report is unchanged |
| LmstatReport.UserOf | flexlm_exporter.py:193-202 | the record takes the three groups and the current feature's name |
| LmstatReport.AddUser | flexlm_exporter.py:197-205 | the record is appended to the current feature's users and to the global list, and nothing else changes |
| LmstatReport.AllUsersAdd | flexlm_exporter.py:204-205 | a record added to the last feature is added at the end of the concatenation of all user lists |
| LmstatParser.CloseOnUsersOf | flexlm_exporter.py:184-186 | the close on a `Users of ` line keeps the invariant |
| LmstatParser.TakeUser | flexlm_exporter.py:189-206 | the user step keeps the invariant |
| LmstatParser.LineStep | flexlm_exporter.py:144-206 | one line, in the parser's order, keeps the invariant: the current feature is the last, and the global users are the features' users in order |
| LmstatParser.RunSnoc | flexlm_exporter.py:144 | the state after one more line is one more step |
| LmstatParser.ParseLine | flexlm_exporter.py:145-206 | the loop body, with its in-place updates and early `continue`s, computes `LineStep` |
| LmstatParser.ParseLmstatOutput | flexlm_exporter.py:131-208 | the loop over `output.split('\n')` computes `Parse` |
| LmstatParser.DaemonsOfLine | flexlm_exporter.py:155-163 | at most one daemon per line, exactly when the daemon pattern matches |
| LmstatParser.HeadersOfLine | flexlm_exporter.py:166-179 | at most one feature per line, exactly when the header pattern matches |
| LmstatParser.LineStepObserves | flexlm_exporter.py:148-163 | every line updates the status and the daemons, whatever the section state |
| LmstatParser.LineStepHeaders | flexlm_exporter.py:166-181 | apart from user lists, the features grow only by the header's feature |
| LmstatParser.LineStepUsers | flexlm_exporter.py:184-206 | a record is added exactly when a section is open, the line is no header, does not start with `Users of `, and matches the user pattern; it names the current feature |
| LmstatParser.LineStepSection | flexlm_exporter.py:180-189 | afterwards a section is open exactly when the line is a header, or one was open and the line does not start with `Users of ` |
| LmstatParser.BlankLine | flexlm_exporter.py:144-206 | a line of whitespace changes nothing |
| LmstatParser.QuietLine | flexlm_exporter.py:144-206 | a line with no `(`, no status phrase, no `: UP v` and no `Users of ` (a quoted title line, a `floating license` line) changes nothing |
| LmstatParser.RunDaemons | flexlm_exporter.py:154-163 | the daemons are the daemon lines' records in line order, in or out of sections |
| LmstatParser.RunHeaders | flexlm_exporter.py:165-181 | apart from user lists, the features are the header lines' features in line order |
| LmstatParser.ClosedStaysClosed | flexlm_exporter.py:183-206 | once no section is open, lines up to the next header add no user or feature, and no section opens: user lines after a malformed `Users of ` line are dropped |
| LmstatParser.LastFlagWins | flexlm_exporter.py:148-152 | the set/clear fold over lines is true exactly when some line sets it and no later line sets or clears it |
| LmstatParser.StatusWins | flexlm_exporter.py:148-152 | the fold over the status phrases is true exactly when some line says the server is up and no later line mentions the status |
| LmstatParser.RunStatusFold | flexlm_exporter.py:133-152 | the parsed status is the fold of the status phrases from `false` |
| LmstatParser.RunStatus | flexlm_exporter.py:133-152 | the status is up exactly when the last line that mentions the status says it is up; with no such line it is down |
| LmstatParser.ParseConsistent | flexlm_exporter.py:172-205 | in every parsed report the global users are the features' users in order, each feature has `available == total - used`, and every record names its feature |
| DebugParser.DebugTake | debug_parser.py:81-99 | the debug user step keeps the invariant and the section |
| DebugParser.DebugStep | debug_parser.py:25-109 | one line of the debug parser keeps the invariant |
| DebugParser.DebugRunSnoc | debug_parser.py:25 | the state after one more line is one more step |
| DebugParser.DebugFindUser | debug_parser.py:80-99 | the loop over the three patterns with `break` returns the groups of the first that matches |
| DebugParser.DebugParseLine | debug_parser.py:26-109 | the loop body, with its in-place updates, computes `DebugStep` |
| DebugParser.DebugParseLmstatOutput | debug_parser.py:9-111 | the loop over the lines computes `DebugParse` |
| DebugParser.DebugStepObserves | debug_parser.py:32-51 | status and daemons are updated as in the exporter's parser |
| DebugParser.DebugStepHeaders | debug_parser.py:53-69 | apart from user lists, the features grow only by the header's feature, as in the exporter's parser |
| DebugParser.DebugStepUsers | debug_parser.py:72-99 | a record is added exactly when a section is open, the line is no header, and one of the patterns matches; never outside a section |
| DebugParser.DebugStepSection | debug_parser.py:104-109 | afterwards a section is open exactly when the line is a header, or one was open and the stripped line is not empty and starts with neither `Users of ` nor `"` |
| DebugParser.MainUserLineAgrees | debug_parser.py:72-99 | a line the exporter's parser takes as a checkout, the debug parser takes too, with the same record |
| DebugParser.DebugBlankLine | debug_parser.py:104-109 | a whitespace line closes the debug parser's section and changes nothing else, where the exporter's parser ignores it |
| DebugParser.HeaderThenBlank | debug_parser.py:104-109 | after a header and a blank line the exporter's parser still has the section open, the debug parser has closed it |
| DebugParser.DebugQuietLine | debug_parser.py:100-109 | a line with no `(` and none of the phrases changes nothing unless it closes the section, as a quoted title line does |
| DebugParser.DebugClosedStaysClosed | debug_parser.py:72 | with no section open, lines up to the next header add no user or feature |
| DebugParser.SameSummary | debug_parser.py:32-69 | over any lines the debug parser's status, daemons and features apart from users equal the exporter parser's |
| Exporter.PutSnoc | flexlm_exporter.py:235-288 | one more gauge write updates that label set |
| Exporter.PutAppend | flexlm_exporter.py:235-288 | two runs of writes in a row are their concatenation |
| Exporter.PutKeys | flexlm_exporter.py:235-288 | gauges are only set: the label sets afterwards are those before plus those written |
| Exporter.PutOther | flexlm_exporter.py:235-288 | a label set no write names keeps its value from earlier scrapes |
| Exporter.PutLast | flexlm_exporter.py:235-288 | the last write of a label set decides its value |
| Exporter.PutConstant | flexlm_exporter.py:265-288 | when every write of a label set writes the same value, that is its value |
| Exporter.ServerLabel | flexlm_exporter.py:222 | the server label begins with the server name followed by `:` |
| Exporter.ServerLabelPort | flexlm_exporter.py:222 | after the colon the label is the port in decimal: its digits parse back to the port, behind a `-` for a negative port |
| Exporter.DaemonWrites | flexlm_exporter.py:235-240 | one `daemon_up` write per daemon record |
| Exporter.DaemonWritesAre | flexlm_exporter.py:235-240 | write `j` names the server, the name and the version of daemon `j`, and sets 1 exactly when its status is `UP` (0 otherwise) |
| Exporter.DaemonsInUp | flexlm_exporter.py:159-163 | every daemon record the parser collects has status `UP` |
| Exporter.DaemonGaugeUp | flexlm_exporter.py:235-240 | when every daemon is `UP`, each daemon's `daemon_up` label set is written and holds 1 |
| Exporter.DaemonGaugeOne | flexlm_exporter.py:235-240 | after a successful scrape every daemon of the parsed report has `daemon_up` 1 |
| Exporter.FeatureWrites | flexlm_exporter.py:243-262 | one write per feature for each feature gauge |
| Exporter.UserWritesOf | flexlm_exporter.py:265-273 | one `user_licenses` write per user of the feature |
| Exporter.HostWritesOf | flexlm_exporter.py:284-288 | one `host_licenses` write per host |
| Exporter.HostsAre | flexlm_exporter.py:276-282 | the hosts are distinct and are exactly the hostnames with at least one record |
| Exporter.CountSumSnoc | flexlm_exporter.py:276-282 | one more record adds one to the sum of counts over distinct hosts exactly when its host is among them |
| Exporter.HostCountsSum | flexlm_exporter.py:276-288 | the host counts add up to the number of user records |
| Exporter.CountHosts | flexlm_exporter.py:276-282 | the `host_counts` loop: the keys in insertion order are the distinct hostnames, and each count is the number of records with that hostname |
| Exporter.FeatureGaugeLast | flexlm_exporter.py:243-262 | a feature no later feature repeats has its own total, used and available in the three gauges |
| Exporter.ScrapedAvailable | flexlm_exporter.py:243-262 | after a scrape, a feature's available gauge is its total gauge minus its used gauge |
| Exporter.UserWritesOne | flexlm_exporter.py:273 | every `user_licenses` write sets 1 |
| Exporter.UserWritten | flexlm_exporter.py:265-273 | every user record of every feature is written |
| Exporter.UserGaugeOne | flexlm_exporter.py:265-273 | each user record of the report has its user gauge at 1 |
| Exporter.HostGauge | flexlm_exporter.py:276-288 | a host gauge is written exactly for the hostnames with records, and holds their number of records |
| Exporter.WrittenHas | flexlm_exporter.py:235-288 | a label set is written only by a write that names it |
| Exporter.FlexLMExporter.constructor | flexlm_exporter.py:31-101 | the server and port are stored, all gauges start empty and the error counter at 0 |
| Exporter.FlexLMExporter.CollectMetrics | flexlm_exporter.py:221-288 | `rc != 0`: server gauge 0, one more error, other gauges untouched; otherwise the server gauge is set to 1 and then to the parsed status, and every gauge receives the report's writes in order |
| Exporter.FlexLMExporter.SetDaemons | flexlm_exporter.py:235-240 | the daemon loop writes each daemon's `daemon_up`, and no other gauge |
| Exporter.FlexLMExporter.SetFeatures | flexlm_exporter.py:243-273 | the feature loop writes the three feature gauges and the users of each feature |
| Exporter.FlexLMExporter.SetUsers | flexlm_exporter.py:265-273 | the user loop writes 1 per user of the feature |
| Exporter.FlexLMExporter.SetHosts | flexlm_exporter.py:276-288 | the host loops write each host's count in insertion order |
| DirectoryHelper.LocationParts | active_directory_helper.py:292-307 | at most three parts, none empty |
| DirectoryHelper.ExtractUserInfo | active_directory_helper.py:283-328 | the info always has a full name, a username and a location |
| DirectoryHelper.ExtractedUserInfo | active_directory_helper.py:283-328 | through the `get_user_info` defaults: office, city, country (`co`, else `c`) and department are their attributes, empty when absent; the full name is empty only when both `displayName` and `cn` are; the location is the dictionary's, never empty, and `Unknown` when no location attribute is present; apart from the two names the dictionary holds no empty value |
| DirectoryHelper.ExtractedLocation | active_directory_helper.py:319-325 | the location is office, city and state joined by ` - ` when any is present, else the country, else `Unknown`; never empty |
| DirectoryHelper.JoinStarts | active_directory_helper.py:321 | the join starts with its first part |
| DirectoryHelper.OfficeFirst | active_directory_helper.py:295-297 | an office, when present, begins the location |
| DirectoryHelper.SearchBases | active_directory_helper.py:241-245 | three bases, the last being the root search `""` |
| DirectoryHelper.SearchFilters | active_directory_helper.py:248-253 | four filters |
| DirectoryHelper.FiltersHoldUsername | active_directory_helper.py:248-253 | each filter holds the username verbatim, unescaped, right after its attribute name |
| DirectoryHelper.DomainComponents | active_directory_helper.py:242 | one `DC=` component per label |
| DirectoryHelper.JoinComponents | active_directory_helper.py:242 | `DC=` plus the labels joined by `,DC=` is the components joined by `,` |
| DirectoryHelper.DomainBaseComponents | active_directory_helper.py:242 | for a domain of dot-free labels, the first base is one `DC=` component per label, joined by `,` |
| DirectoryHelper.FirstWithBaseIs | active_directory_helper.py:258-274 | for one base, nothing is found exactly when no filter hits; otherwise the result is the first entry of a filter that hits, and no earlier filter hits |
| DirectoryHelper.FirstHitIs | active_directory_helper.py:257-277 | nothing is found exactly when no (base, filter) pair hits; otherwise the result is the first entry of a pair that hits, and no pair before it (earlier base, or same base and earlier filter) hits |
| DirectoryHelper.FindEntry | active_directory_helper.py:257-277 | the nested loops with early return compute the first hit, bases outer and filters inner, skipping pairs that raise |
| DirectoryHelper.UserInfoOf | active_directory_helper.py:386-394 | the `UserInfo` has the username and the info's location, `Unknown` when absent |
| DirectoryHelper.EntryFor | active_directory_helper.py:346-350 | the cache entry stores the location (`Unknown` when absent), the time and the full info |
| DirectoryHelper.FreshWindow | active_directory_helper.py:336-340 | a stored entry is fresh exactly for the 300 seconds after it was stored |
| DirectoryHelper.EmptyResultUnknown | active_directory_helper.py:343-350 | an empty search result is cached as `Unknown` |
| DirectoryHelper.ActiveDirectoryHelper.constructor | active_directory_helper.py:41-69 | the cache starts empty; the helper is enabled (and connected) exactly when the LDAP modules are available, the domain is neither empty nor `localhost` and the bind and test query succeed |
| DirectoryHelper.ActiveDirectoryHelper.InitializeConnection | active_directory_helper.py:165-232 | succeeds exactly when enabled, in a domain and bound; disables the helper otherwise; never enables it |
| DirectoryHelper.ActiveDirectoryHelper.SearchUser | active_directory_helper.py:234-281 | `{}` when disabled or unconnected, else the info of the first entry found, else `{}` |
| DirectoryHelper.ActiveDirectoryHelper.GetUserLocation | active_directory_helper.py:330-353 | disabled: `AD_Disabled`, cache untouched, no search; fresh entry: its location, no search; else exactly one search, its location (`Unknown` if none), and the entry overwritten with the time |
| DirectoryHelper.ActiveDirectoryHelper.GetUserInfo | active_directory_helper.py:355-394 | the same three cases: disabled gives the `AD_Disabled` record; a fresh entry gives the `UserInfo` of its cached info with the cached location; otherwise exactly one search, its `UserInfo`, and the entry overwritten |
| DirectoryHelper.ActiveDirectoryHelper.ClearCache | active_directory_helper.py:396-399 | the cache is empty and nothing else changes |
| DirectoryHelper.ActiveDirectoryHelper.IsEnabled | active_directory_helper.py:401-403 | returns `enabled` |

Notes on the model:

- **The regular expressions.** They are patterns of the `Patterns` module.
  - Anchored patterns (`^`) passed to `re.search` are matched at position 0
    only.
  - The lazy `\(.*?\)` of the third debug pattern is the greedy `[^)\n]*`
    followed by `)`, which matches the same text.
- **`current_feature`.** It is the last feature of the report, the same
  dictionary that is appended to both lists. This is modelled by the flag
  `current` together with the invariant `Valid`. The invariant also proves
  that `in_users_section` always equals "a feature is current".
- **`used` and the user records.** The parsers never compare `used` with
  the number of user records, and the model does not either.

## Left out

- Only ASCII is modelled. The classes `\s`, `\S`, `\w` and `\d` are their
  ASCII approximations, and there is no Unicode case or digit handling.
- `run_lmutil_command` is not modelled, because it is a subprocess call with
  a timeout. Its return code and standard output are the parameters of
  `CollectMetrics`.
- The following are I/O, a foreign library or logging, and are not
  modelled:
  - the HTTP server;
  - `collect`;
  - `main`;
  - the Prometheus registry.
- Gauge values are Python floats in `prometheus_client` (`Gauge.set`
  stores `float(value)`). The model keeps them as unbounded `int`, which
  is exact only for counts below 2^53.
  - Above 2^53 a count is rounded, so `Exporter.ScrapedAvailable`
    (available == total - used) need not hold of the real gauges.
    For example, take total = 2^53 + 1 and used = 1.
- `Exporter.FlexLMExporter.CollectMetrics`: the exception paths of
  `collect_metrics` are not modelled. These are the outer `except` at
  flexlm_exporter.py:292-294: it counts one scrape error, keeps the
  `server_up` 1 set at line 228, and leaves the gauges partly written.
  Two things in the parsed part can raise there:
  - `int()` of a header count longer than Python's digit limit (4300
    digits since Python 3.11);
  - `float()` overflow in a gauge write of a count with 310 or more digits.

  For `rc == 0` the contract states what happens when neither raises.
- `scrape_duration` is left out because it is a floating-point time.
- The LDAP connection, `_get_current_domain` and
  `detect_domain_environment` are not modelled, because they are network
  and OS calls.
  - AD availability is a parameter of the constructor, as is the outcome of
    the bind and test query.
  - The domain is a parameter.
  - A search is a function from base and filter to entries, or to an
    exception.
  - An entry is a map from attribute name to text. Multi-valued attributes
    are not modelled.
- `time.time()` is an integer parameter (`now`) of the two lookups.
- `DirectoryHelper.ActiveDirectoryHelper.SearchUser`: the search is taken
  to be deterministic, so one call is one function value.
- `DirectoryHelper.ActiveDirectoryHelper.SearchUser`: the outer `except` of
  `_search_user` is not modelled, because nothing outside the searches can
  raise.
- `LineMatchers.TryUser`: the length test on the match never fails for the
  three patterns (see `TryUserShape`). It stands for reading groups 1 to 3.
- The debug parser's `print` output, its `line_num` counter and
  `test_parsing` are left out, because they are output only.
- The sample report of `test_exporter.py:18-81` is not evaluated. Dafny
  cannot unfold the matchers over a literal report of that size. Instead,
  the per-line lemmas state what each kind of line does.
- The demo, diagnostic and runner scripts are not part of this model, and
  neither are the environment-dependent tests.
