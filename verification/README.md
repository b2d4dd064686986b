# pytest-pilot marker evaluator, modelled in Dafny

pytest-pilot lets a test suite declare *markers* (`EasyMarker`). Each one
pairs a pytest mark `@pytest.mark.<marker_id>(<value>)` with a command-line
option `--<marker_id>`. Two behaviour settings fix what happens to marked
tests when the option is absent (`NoFlagBehavior`) and to unmarked tests
when it is present (`NoMarkBehavior`). Before each test runs, the plugin
evaluates every active marker against it. The test is skipped as soon as
one marker rejects it.

The model has three modules:

- `Wrappers` (`wrappers.dfy`): `Option` and `Result`.
- `Marks` (`marks.dfy`): `pytest_pilot/pytest_marks.py`. It holds the
  behaviour enums, the `Marker` record and its field defaults, and the
  derived strings (`--<id>` option, option help, mark help, description).
  It also holds reading the values of an item's marks, the pure run/skip
  decision `Decide` with structured skip reasons and their messages, query
  resolution, the full `SkipIfNotCompliant`, and the creation-order registry
  (`Registry`, whose `NewMarker` appends and whose `ListAll` returns the list).
- `Plugin` (`plugin.dfy`): `pytest_pilot/plugin.py`. It holds the choice of
  active markers, the option and help-line lists, and the per-item setup
  loop. That loop is modelled as a fold, `FirstStop`, over the markers'
  outcomes. `RunSession` composes start-up and one test's setup.

`pytest.skip` becomes the result `Skip(reason)`. No skip becomes `Run`. An
exception becomes a `Failure`. The test item is modelled as its ordered
list of marks, each with a name and positional arguments. The host's
parsed command line is modelled as the set of option spellings it knows
and a map from spelling to the value given. Asking for an option it does
not know fails (`NoSuchOption`). So does reading a mark that has no
argument (`MissingValue`). `Decide` is a function, so
evaluating a marker twice on the same query and marks gives the same
decision by construction.

The four mode names used by the marker fixtures (`silos`, `extender`,
`hard_filter`, `soft_filter`) appear only as names for the four behaviour
combinations (`Marks.Mode`, `Marks.ModeOf`). The `EasyMarker` constructor
modelled here takes the two behaviours directly and parses no mode string.
The repository's tests and fixtures pass `mode`, `has_arg`,
`allowed_values` and `cmdoption_short`, and expect option-name collision
checks, but the `EasyMarker` code modelled here accepts none of these
arguments and checks no collisions. The model follows the code and leaves
them out. The code also evaluates the *active* markers
(`plugin.py:77-79`), not every registered one: the hook can narrow the set.

## Model

| member | source | states |
|---|---|---|
| `Marks.MakeMarker` | pytest_pilot/pytest_marks.py:34-51 | the marker keeps the given identifier and behaviours; its full name is the given one, or the identifier when none is given; defaults are `RunAllMarked` and `AlwaysRun` |
| `Marks.Registry.NewMarker` | pytest_pilot/pytest_marks.py:32-130 | creating a marker (lines 32-54) appends exactly that marker to the end of the registry; earlier entries stay as they were, so `ListAll`, the `list_all` of lines 128-130, returns markers in creation order |
| `Marks.CmdOptionInjective` | pytest_pilot/pytest_marks.py:71-73 | the option is `--` followed by the marker identifier; two markers share an option iff they share an identifier |
| `Marks.HelpNamesFullName` | pytest_pilot/pytest_marks.py:56-62 | the option help and the mark help both contain the full name; equal help texts mean equal full names |
| `Marks.DescribeMentions` | pytest_pilot/pytest_marks.py:64-69 | the description contains the full name, the option and the marker identifier |
| `Marks.ReadMarks` | pytest_pilot/pytest_marks.py:83-90 | one value per mark with the marker's name, in iteration order, each the mark's first positional argument |
| `Marks.ReadMarksMembers` | pytest_pilot/pytest_marks.py:83-90 | a value is read iff some mark with the marker's name carries it as its first positional argument |
| `Marks.ReadMarksAppend` | pytest_pilot/pytest_marks.py:83-90 | reading the marks of a concatenated mark list gives the two parts' values concatenated, so order is kept and marks of other names add nothing |
| `Marks.ReadMarksNonEmpty` | pytest_pilot/pytest_marks.py:104-115 | the read list is non-empty iff the item carries a mark with the marker's name |
| `Marks.Decide` | pytest_pilot/pytest_marks.py:104-126 | no query: an unmarked test runs and a marked one is skipped iff `SkipAllMarked`; a query on a marked test skips it iff the query is not among its values; a query on an unmarked test skips it iff `RunOnlyIfNoFlag`; every skip reason carries the marker identifier, the option, and the required values or query |
| `Marks.DecideIgnoresOrderAndDuplicates` | pytest_pilot/pytest_marks.py:115-121 | whether a test is skipped depends only on the set of its values: order and duplicates do not change it |
| `Marks.DefaultsSkipOnlyMismatches` | pytest_pilot/pytest_marks.py:92-126 | with the default behaviours of lines 37-38, a test is skipped iff a query is given, the test is marked, and the query is not among its values |
| `Marks.ModeOfBijective` | pytest_pilot/test_cases/basic/conftest.py:4-17 | the four mode names correspond one-to-one to the four behaviour combinations |
| `Marks.DecideFollowsModeTable` | pytest_pilot/pytest_marks.py:106-126 | the decision agrees, in every situation, with a per-mode table: flag absent skips marked tests only in silos and extender; flag given skips a marked test iff its values miss the query, and an unmarked test only in silos and hard_filter |
| `Marks.MessageMentions` | pytest_pilot/pytest_marks.py:110-126 | every skip message contains the marker identifier and the option |
| `Marks.ReadItemMarks` | pytest_pilot/pytest_marks.py:83-90 | reading fails iff some mark with the marker's name has no positional argument; otherwise it gives the values `ReadMarks` states |
| `Marks.SkipIfNotCompliant` | pytest_pilot/pytest_marks.py:92-126 | with no explicit query, a marker whose option the host does not know fails with `NoSuchOption` before any mark is read; a mark without an argument fails with `MissingValue`; otherwise the decision is stated directly on the item's marks: with no query it skips iff `SkipAllMarked` and the item is marked; with a query a marked item is skipped iff no mark of its name carries the query, and an unmarked one iff `RunOnlyIfNoFlag` |
| `Plugin.ActiveMarkers` | pytest_pilot/plugin.py:46-55 | two or more hook answers fail the plugin's assertion; no answer selects every registered marker; one answer selects that answer |
| `Plugin.AddOptions` | pytest_pilot/plugin.py:58-59 | adding succeeds iff the marker identifiers are distinct, no marker's option was added before, and every option is a valid long option (the identifier is non-empty and does not start with `-`), where "added before" means given to `parser.addoption` before the loop; then there is one option per active marker, in order, with action `store`, metavar `NAME` and the marker's option help; a failure is the host's error for the first marker in list order whose option is refused, a clash being reported before a malformed spelling |
| `Plugin.AddMarkerHelpLines` | pytest_pilot/plugin.py:62-67 | one help line per active marker, in order, of the form identifier + `(id): ` + mark help; each line starts with the identifier and contains the full name |
| `Plugin.FirstStop` | pytest_pilot/plugin.py:71-79 | outcomes taken in order let the test proceed iff every one does; otherwise the result is the first skip or error, all outcomes before it proceeding |
| `Plugin.OutcomesAppend` | pytest_pilot/plugin.py:78-79 | evaluating two marker lists is evaluating each, one after the other |
| `Plugin.FirstStopAppend` | pytest_pilot/plugin.py:78-79 | evaluating two marker lists one after the other is evaluating the first, and the second only when the first lets the test proceed |
| `Plugin.FirstStopIsOutcome` | pytest_pilot/plugin.py:78-79 | a skip or error preceded only by proceeding markers is the outcome, whatever follows it |
| `Plugin.SetupLoopExit` | pytest_pilot/plugin.py:78-79 | a scan that stops at the end of the markers, all having proceeded, or at the first that skips or raises, holds the fold's outcome |
| `Plugin.RunTestSetup` | pytest_pilot/plugin.py:71-79 | the setup loop stops at the first marker that skips or raises: the test proceeds iff all active markers let it, in which case all were evaluated; otherwise the outcome is the last evaluated marker's and no later marker was evaluated, so marks of later markers are never read |
| `Plugin.RegisteredOptionsFound` | pytest_pilot/plugin.py:58-79 | when every evaluated marker's option is known to the host, setup never fails for want of an option |
| `Plugin.LateMarkerFailsSetup` | pytest_pilot/plugin.py:53-79 | a marker appended to the list after the options were added has none, and once the earlier markers proceed, setup fails with `NoSuchOption` for its option |
| `Plugin.RunSession` | pytest_pilot/plugin.py:46-79 | start-up fails on several hook answers; otherwise, whether the hook answered once or not at all, it succeeds iff `parser.addoption` accepts the options of the active markers, given the spellings it already holds, fails with the error of the first refused one, and on success the test's outcome is the fold over the active markers against a command line that knows exactly the options added before and theirs; setup then never fails with `NoSuchOption` |

## Left out

- `pytest_pilot/pytest_compat.py` is not part of this model. Its shims
  (`pytest_param`, `apply_mark_to`, `itermarkers`) are thin wrappers over
  host objects. An item's marks are the input list of `Mark` values, already
  in the host's iteration order.
- `get_mark_decorator` and `EasyMarker.apply_mark_to` (`pytest_marks.py:75-81`)
  build `pytest.mark.<marker_id>` through a dynamic attribute lookup on the
  host. That is a foreign call.
- `pytest_addhooks` and `new_hooks.py` only declare the hook for the host.
  The hook's answers are an input to `Plugin.ActiveMarkers`.
- The host's option storage. `item.config.getoption` is a lookup in the
  set of known spellings and a map from spelling to value. `parser.addoption`
  and `config.addinivalue_line` are modelled by the lists they would
  receive. The hookwrapper ordering of `pytest_load_initial_conftests` is
  not modelled either.
- `Plugin.AddOptions` models only the refusals raised by `parser.addoption`
  itself: a spelling already in the same group of anonymous options, or
  an invalid long option. The host's own options (`--verbose`, `--help`,
  and so on) sit in other groups. A clash with one of them is reported
  only when the host builds its argument parser, after the loop of
  `plugin.py:58-59`. So when a later marker's spelling is refused, that
  error comes first. The model does not include the host's own options.
- `Plugin.RunSession` inherits that limit: its failure clause names the
  first marker that `parser.addoption` refuses. A session whose options
  are accepted there but clash with the host's own options is reported as
  a success, while the host would fail once it builds its parser.
- The host's rule for a valid long option (`--` followed by a first
  character other than `-`) is stated by `Plugin.WellFormedOption`. The
  host's parser is not part of this model, so the rule is written out
  rather than cited.
- `Marks.GetOption` looks an option up by its exact spelling. The host maps
  spellings to a destination name with `-` replaced by `_`, so `--a-b` and
  `--a_b` name the same value there. That aliasing is not modelled.
- `Plugin.ActiveMarkers` returns the registered markers as a value, while
  `list_all()` returns the live list (`pytest_marks.py:129-130`), so a marker
  created after start-up is also evaluated at setup. The model covers that
  case by evaluating the longer list: `Plugin.LateMarkerFailsSetup` shows
  that such a marker has no option and its evaluation fails.
- `Marks.Message`: Python's `%r` rendering of the value list is simplified
  to the values in single quotes, comma-separated, in brackets. This is exact
  only for values without quotes, backslashes or non-printable characters.
  The structured `SkipReason` carries the exact information.
- `Marks.ReadMarks` requires every mark of the marker's name to carry a
  positional argument. The `IndexError` the source raises otherwise is
  modelled by `Marks.ReadItemMarks`, which the setup path uses.
- `__repr__` returns `__str__` (`pytest_marks.py:68-69`). Both are `Marks.Describe`.
- The test suites and fixtures (`tests/`, `test_cases/`, `test_doc/`) run
  pytest in subprocesses. They use constructor arguments (`mode`, `has_arg`,
  `allowed_values`, `cmdoption_short`) that the modelled `EasyMarker` does not
  accept.
