/** The marker definition and its run/skip evaluator (`EasyMarker`).

    A marker pairs a pytest mark `@pytest.mark.<marker_id>(<value>)` with a
    command-line option `--<marker_id>`.  Two behaviour settings decide what
    happens to marked tests when the option is absent and to unmarked tests
    when it is present.  Once the option's value (the "query") is known and
    the values carried by the test's marks are read, the decision is a pure
    function, `Decide`. */
module Marks {
  import opened Wrappers

  /** What happens to tests *marked* with a marker when pytest is called
      *without* the marker's command-line option. */
  datatype NoFlagBehavior =
    | SkipAllMarked   // marked tests are skipped unless the option is given
    | RunAllMarked    // marked tests run even if the option is not given

  /** What happens to tests *not* marked with a marker. */
  datatype NoMarkBehavior =
    | RunOnlyIfNoFlag // unmarked tests are skipped once the option is given
    | AlwaysRun       // unmarked tests run whether or not the option is given

  /** One marker definition: its identifier, its human-readable name and
      its two behaviour settings. */
  datatype Marker = Marker(
    markerId: string,
    fullName: string,
    noflag: NoFlagBehavior,
    nomark: NoMarkBehavior)

  /** The constructor's field initialisation: the full name defaults to
      the identifier and the behaviours default to the permissive ones. */
  function MakeMarker(
    markerId: string,
    fullName: Option<string> := None,
    noflag: NoFlagBehavior := RunAllMarked,
    nomark: NoMarkBehavior := AlwaysRun): (m: Marker)
    ensures m.markerId == markerId
    ensures fullName.None? ==> m.fullName == markerId
    ensures fullName.Some? ==> m.fullName == fullName.value
    ensures m.noflag == noflag && m.nomark == nomark
  {
    Marker(markerId, fullName.GetOr(markerId), noflag, nomark)
  }

  // ---------------------------------------------------------------------
  // Derived strings

  /** The long command-line option of a marker. */
  function CmdOption(m: Marker): string {
    "--" + m.markerId
  }

  /** The help text of the marker's command-line option. */
  function CmdHelp(m: Marker): string {
    "only run tests matching the " + m.fullName + " NAME."
  }

  /** The help text of the marker's pytest mark. */
  function MarkHelp(m: Marker): string {
    "mark test to run only on " + m.fullName + " with <id>"
  }

  /** The marker's printable description (also its `repr`). */
  function Describe(m: Marker): string {
    "Pytest marker '" + m.fullName + "' with commandline option '" + CmdOption(m)
      + "' and pytest mark '@pytest.mark." + m.markerId + "(<" + m.markerId + ">)'"
  }

  /** `needle` occurs in `hay` starting at position `i`. */
  predicate OccursAt(needle: string, hay: string, i: int) {
    0 <= i && i + |needle| <= |hay| && hay[i..i + |needle|] == needle
  }

  /** `needle` occurs as a contiguous piece of `hay`. */
  predicate IsInfix(needle: string, hay: string) {
    exists i :: 0 <= i <= |hay| && OccursAt(needle, hay, i)
  }

  lemma InfixAfter(a: string, b: string)
    ensures IsInfix(b, a + b)
  {
    assert OccursAt(b, a + b, |a|);
  }

  lemma InfixExtend(x: string, y: string, a: string)
    requires IsInfix(x, y)
    ensures IsInfix(x, y + a)
  {
    var i :| 0 <= i <= |y| && OccursAt(x, y, i);
    assert (y + a)[i..i + |x|] == y[i..i + |x|];
    assert OccursAt(x, y + a, i);
  }

  /** An infix of a prefix of `z` is an infix of `z`. */
  lemma InfixWithin(x: string, y: string, z: string)
    requires IsInfix(x, y) && y <= z
    ensures IsInfix(x, z)
  {
    var i :| 0 <= i <= |y| && OccursAt(x, y, i);
    assert z[i..i + |x|] == y[i..i + |x|];
    assert OccursAt(x, z, i);
  }

  /** A prefix of a prefix of `c` is a prefix of `c`. */
  lemma PrefixTrans(a: string, b: string, c: string)
    requires a <= b && b <= c
    ensures a <= c
  {
  }

  lemma InfixExtendLeft(x: string, y: string, a: string)
    requires IsInfix(x, y)
    ensures IsInfix(x, a + y)
  {
    var i :| 0 <= i <= |y| && OccursAt(x, y, i);
    assert (a + y)[|a| + i..|a| + i + |x|] == y[i..i + |x|];
    assert OccursAt(x, a + y, |a| + i);
  }

  /** A fixed prefix and suffix around a varying middle part keep the
      middle part recoverable. */
  lemma FramedInjective(p: string, x: string, y: string, s: string)
    requires p + x + s == p + y + s
    ensures x == y
  {
    assert |x| == |y|;
    assert x == (p + x + s)[|p|..|p| + |x|];
    assert y == (p + y + s)[|p|..|p| + |y|];
  }

  /** Distinct identifiers give distinct command-line options, and the
      identifier is what follows the two leading dashes. */
  lemma CmdOptionInjective(a: Marker, b: Marker)
    ensures CmdOption(a) == CmdOption(b) <==> a.markerId == b.markerId
    ensures CmdOption(a)[..2] == "--" && CmdOption(a)[2..] == a.markerId
  {
  }

  /** Both help texts name the marker's full name, and neither loses it:
      equal help texts mean equal full names. */
  lemma HelpNamesFullName(a: Marker, b: Marker)
    ensures IsInfix(a.fullName, CmdHelp(a)) && IsInfix(a.fullName, MarkHelp(a))
    ensures CmdHelp(a) == CmdHelp(b) <==> a.fullName == b.fullName
    ensures MarkHelp(a) == MarkHelp(b) <==> a.fullName == b.fullName
  {
    InfixAfter("only run tests matching the ", a.fullName);
    InfixExtend(a.fullName, "only run tests matching the " + a.fullName, " NAME.");
    InfixAfter("mark test to run only on ", a.fullName);
    InfixExtend(a.fullName, "mark test to run only on " + a.fullName, " with <id>");
    if CmdHelp(a) == CmdHelp(b) {
      FramedInjective("only run tests matching the ", a.fullName, b.fullName, " NAME.");
    }
    if MarkHelp(a) == MarkHelp(b) {
      FramedInjective("mark test to run only on ", a.fullName, b.fullName, " with <id>");
    }
  }

  /** The description names the full name, the command-line option and
      the mark's identifier. */
  lemma DescribeMentions(m: Marker)
    ensures IsInfix(m.fullName, Describe(m))
    ensures IsInfix(CmdOption(m), Describe(m))
    ensures IsInfix(m.markerId, Describe(m))
  {
    var d := Describe(m);
    var s1 := "Pytest marker '" + m.fullName;
    var s2 := s1 + "' with commandline option '" + CmdOption(m);
    var s3 := s2 + "' and pytest mark '@pytest.mark." + m.markerId;
    PrefixTrans(s2, s3, d);
    PrefixTrans(s1, s2, d);
    InfixAfter("Pytest marker '", m.fullName);
    InfixWithin(m.fullName, s1, d);
    InfixAfter(s1 + "' with commandline option '", CmdOption(m));
    InfixWithin(CmdOption(m), s2, d);
    InfixAfter(s2 + "' and pytest mark '@pytest.mark.", m.markerId);
    InfixWithin(m.markerId, s3, d);
  }

  // ---------------------------------------------------------------------
  // Marks attached to a test item

  /** One mark attached to a test item (directly or through a
      parametrization): its name and its positional arguments. */
  datatype Mark = Mark(name: string, args: seq<string>)

  /** Every mark named `markerId` carries at least one positional
      argument; reading the marks of an item relies on it. */
  predicate CarriesValues(markerId: string, marks: seq<Mark>) {
    forall mk :: mk in marks && mk.name == markerId ==> |mk.args| > 0
  }

  /** The marks named `markerId`, in iteration order. */
  ghost function Matching(markerId: string, marks: seq<Mark>): (r: seq<Mark>)
    ensures forall i :: 0 <= i < |r| ==> r[i].name == markerId && r[i] in marks
  {
    if |marks| == 0 then []
    else (if marks[0].name == markerId then [marks[0]] else []) + Matching(markerId, marks[1..])
  }

  /** The first positional argument of every mark named `markerId`, in
      iteration order. */
  function ReadMarks(markerId: string, marks: seq<Mark>): (values: seq<string>)
    requires CarriesValues(markerId, marks)
    ensures |values| == |Matching(markerId, marks)|
    ensures forall i :: 0 <= i < |values| ==> values[i] == Matching(markerId, marks)[i].args[0]
  {
    if |marks| == 0 then []
    else
      assert CarriesValues(markerId, marks[1..]) by {
        forall mk | mk in marks[1..] ensures mk in marks { }
      }
      var rest := ReadMarks(markerId, marks[1..]);
      if marks[0].name == markerId then [marks[0].args[0]] + rest else rest
  }

  /** A value is read exactly when some mark named `markerId` carries it
      as its first argument. */
  lemma {:induction false} ReadMarksMembers(markerId: string, marks: seq<Mark>)
    requires CarriesValues(markerId, marks)
    ensures forall v :: v in ReadMarks(markerId, marks) <==>
      exists mk :: mk in marks && mk.name == markerId && mk.args[0] == v
  {
    if |marks| > 0 {
      assert forall mk :: mk in marks <==> mk == marks[0] || mk in marks[1..];
      ReadMarksMembers(markerId, marks[1..]);
    }
  }

  /** Reading distributes over concatenation: the values of a longer mark
      list are the values of its parts, in the same order. */
  lemma {:induction false} ReadMarksAppend(markerId: string, a: seq<Mark>, b: seq<Mark>)
    requires CarriesValues(markerId, a) && CarriesValues(markerId, b)
    ensures CarriesValues(markerId, a + b)
    ensures ReadMarks(markerId, a + b) == ReadMarks(markerId, a) + ReadMarks(markerId, b)
  {
    assert forall mk :: mk in a + b <==> mk in a || mk in b;
    if |a| == 0 {
      assert a + b == b;
    } else {
      assert (a + b)[1..] == a[1..] + b;
      assert CarriesValues(markerId, a[1..]);
      ReadMarksAppend(markerId, a[1..], b);
    }
  }

  /** A test is marked by `markerId` when some mark of that name is
      attached to it. */
  predicate IsMarked(markerId: string, marks: seq<Mark>) {
    exists mk :: mk in marks && mk.name == markerId
  }

  lemma ReadMarksNonEmpty(markerId: string, marks: seq<Mark>)
    requires CarriesValues(markerId, marks)
    ensures |ReadMarks(markerId, marks)| > 0 <==> IsMarked(markerId, marks)
  {
  }

  // ---------------------------------------------------------------------
  // The run/skip decision

  /** Why a test is skipped, with the information the skip message shows. */
  datatype SkipReason =
    | MarkedWithoutFlag(markerId: string, required: seq<string>, cmdoption: string)
    | QueryNotRequired(markerId: string, required: seq<string>, query: string, cmdoption: string)
    | UnmarkedWithFlag(markerId: string, query: string, cmdoption: string)

  /** The outcome of evaluating one marker against one test. */
  datatype Decision = Run | Skip(reason: SkipReason)

  /** The decision of `skip_if_not_compliant` once the query is resolved
      and the required values are read. */
  function Decide(m: Marker, query: Option<string>, required: seq<string>): (d: Decision)
    // No query: an unmarked test always runs ...
    ensures query.None? && |required| == 0 ==> d.Run?
    // ... and a marked one is skipped iff marked tests need the flag.
    ensures query.None? && |required| > 0 ==> (d.Skip? <==> m.noflag == SkipAllMarked)
    // A query on a marked test: one matching value is enough to run.
    ensures query.Some? && |required| > 0 ==> (d.Skip? <==> query.value !in required)
    // A query on an unmarked test: skipped iff unmarked tests need no flag.
    ensures query.Some? && |required| == 0 ==> (d.Skip? <==> m.nomark == RunOnlyIfNoFlag)
    // Every reason names the marker and its option, and what was asked for.
    ensures d.Skip? ==> d.reason.markerId == m.markerId && d.reason.cmdoption == CmdOption(m)
    ensures d.Skip? && query.None? ==> d.reason.MarkedWithoutFlag? && d.reason.required == required
    ensures d.Skip? && query.Some? && |required| > 0 ==>
      d.reason.QueryNotRequired? && d.reason.required == required && d.reason.query == query.value
    ensures d.Skip? && query.Some? && |required| == 0 ==>
      d.reason.UnmarkedWithFlag? && d.reason.query == query.value
  {
    match query
    case None =>
      if m.noflag == SkipAllMarked && |required| > 0 then
        Skip(MarkedWithoutFlag(m.markerId, required, CmdOption(m)))
      else
        Run
    case Some(q) =>
      if |required| > 0 then
        if q !in required then
          Skip(QueryNotRequired(m.markerId, required, q, CmdOption(m)))
        else
          Run
      else if m.nomark == RunOnlyIfNoFlag then
        Skip(UnmarkedWithFlag(m.markerId, q, CmdOption(m)))
      else
        Run
  }

  /** The decision depends on the required values only as a set: their
      order and any duplicates are irrelevant. */
  lemma DecideIgnoresOrderAndDuplicates(m: Marker, query: Option<string>, a: seq<string>, b: seq<string>)
    requires forall v :: v in a <==> v in b
    ensures Decide(m, query, a).Skip? == Decide(m, query, b).Skip?
  {
    if |a| > 0 {
      assert a[0] in b;
    }
    if |b| > 0 {
      assert b[0] in a;
    }
  }

  /** With the default behaviours a test is skipped only when a query is
      given, the test is marked, and the query is not among its values. */
  lemma DefaultsSkipOnlyMismatches(markerId: string, query: Option<string>, required: seq<string>)
    ensures Decide(MakeMarker(markerId), query, required).Skip? <==>
      query.Some? && |required| > 0 && query.value !in required
  {
  }

  // ---------------------------------------------------------------------
  // The four mode names

  /** The names the marker fixtures give to the four behaviour
      combinations. */
  datatype Mode = Silos | Extender | HardFilter | SoftFilter

  function ModeOf(noflag: NoFlagBehavior, nomark: NoMarkBehavior): Mode {
    match (noflag, nomark)
    case (SkipAllMarked, RunOnlyIfNoFlag) => Silos
    case (SkipAllMarked, AlwaysRun) => Extender
    case (RunAllMarked, RunOnlyIfNoFlag) => HardFilter
    case (RunAllMarked, AlwaysRun) => SoftFilter
  }

  /** Every mode names exactly one behaviour combination. */
  lemma ModeOfBijective(nf1: NoFlagBehavior, nm1: NoMarkBehavior, nf2: NoFlagBehavior, nm2: NoMarkBehavior, mode: Mode)
    ensures ModeOf(nf1, nm1) == ModeOf(nf2, nm2) <==> nf1 == nf2 && nm1 == nm2
    ensures exists nf, nm :: ModeOf(nf, nm) == mode
  {
    match mode
    case Silos => assert ModeOf(SkipAllMarked, RunOnlyIfNoFlag) == mode;
    case Extender => assert ModeOf(SkipAllMarked, AlwaysRun) == mode;
    case HardFilter => assert ModeOf(RunAllMarked, RunOnlyIfNoFlag) == mode;
    case SoftFilter => assert ModeOf(RunAllMarked, AlwaysRun) == mode;
  }

  /** The mode table, written per mode and per situation: whether the
      option is given, whether the test is marked, and whether the query
      is among the test's values. */
  function ModeTableSkips(mode: Mode, flagGiven: bool, marked: bool, matches: bool): bool {
    if !flagGiven then
      marked && (mode == Silos || mode == Extender)
    else if marked then
      !matches
    else
      mode == Silos || mode == HardFilter
  }

  /** `Decide` agrees with the mode table in every situation. */
  lemma DecideFollowsModeTable(m: Marker, query: Option<string>, required: seq<string>)
    ensures Decide(m, query, required).Skip? ==
      ModeTableSkips(ModeOf(m.noflag, m.nomark), query.Some?, |required| > 0,
                     query.Some? && query.value in required)
  {
  }

  // ---------------------------------------------------------------------
  // Skip messages

  /** A list of values rendered as a Python list of strings. */
  function QuotedList(values: seq<string>): string {
    "[" + JoinQuoted(values) + "]"
  }

  function JoinQuoted(values: seq<string>): string {
    if |values| == 0 then ""
    else if |values| == 1 then "'" + values[0] + "'"
    else "'" + values[0] + "', " + JoinQuoted(values[1..])
  }

  /** The text shown in the test report for a skip reason. */
  function Message(r: SkipReason): string {
    match r
    case MarkedWithoutFlag(id, required, opt) =>
      "test requires '" + id + "' in " + QuotedList(required) + ". Please use the '" + opt
        + "' command flag to activate one of these."
    case QueryNotRequired(id, required, q, opt) =>
      "This test only runs if '" + id + "' is in " + QuotedList(required) + ". Currently it is '" + q
        + "' (from '" + opt + "' command)"
    case UnmarkedWithFlag(id, q, opt) =>
      "This test does not have flag '" + id + "'. Currently it is explicitly used and set to '" + q
        + "' (from '" + opt + "' command)"
  }

  /** Every skip message names the marker and its command-line option. */
  lemma MessageMentions(r: SkipReason)
    ensures IsInfix(r.markerId, Message(r))
    ensures IsInfix(r.cmdoption, Message(r))
  {
    var msg := Message(r);
    match r
    case MarkedWithoutFlag(id, required, opt) =>
      var s1 := "test requires '" + id;
      var s2 := s1 + "' in " + QuotedList(required) + ". Please use the '" + opt;
      PrefixTrans(s1, s2, msg);
      InfixAfter("test requires '", id);
      InfixWithin(id, s1, msg);
      InfixAfter(s1 + "' in " + QuotedList(required) + ". Please use the '", opt);
      InfixWithin(opt, s2, msg);
    case QueryNotRequired(id, required, q, opt) =>
      var s1 := "This test only runs if '" + id;
      var s2 := s1 + "' is in " + QuotedList(required) + ". Currently it is '" + q + "' (from '" + opt;
      PrefixTrans(s1, s2, msg);
      InfixAfter("This test only runs if '", id);
      InfixWithin(id, s1, msg);
      InfixAfter(s1 + "' is in " + QuotedList(required) + ". Currently it is '" + q + "' (from '", opt);
      InfixWithin(opt, s2, msg);
    case UnmarkedWithFlag(id, q, opt) =>
      var s1 := "This test does not have flag '" + id;
      var s2 := s1 + "'. Currently it is explicitly used and set to '" + q + "' (from '" + opt;
      PrefixTrans(s1, s2, msg);
      InfixAfter("This test does not have flag '", id);
      InfixWithin(id, s1, msg);
      InfixAfter(s1 + "'. Currently it is explicitly used and set to '" + q + "' (from '", opt);
      InfixWithin(opt, s2, msg);
  }

  // ---------------------------------------------------------------------
  // The full evaluation of one marker against one item

  /** The parsed command line as the host reports it: the spellings of the
      options registered with the parser, and the value given to each
      option that was supplied. */
  datatype CommandLine = CommandLine(options: set<string>, values: map<string, string>)

  /** The errors evaluating a marker can raise before any decision. */
  datatype SetupError =
    | NoSuchOption(option: string)   // the host has no option of that spelling
    | MissingValue(markerId: string) // a mark of the marker's name has no argument

  /** The value of an option: `None` when it was registered but not
      supplied, an error when it was never registered. */
  function GetOption(config: CommandLine, option: string): (r: Result<Option<string>, SetupError>)
    ensures r.Failure? <==> option !in config.options
    ensures r.Failure? ==> r.error == NoSuchOption(option)
    ensures r.Success? ==> (r.value.Some? <==> option in config.values)
    ensures r.Success? && r.value.Some? ==> r.value.value == config.values[option]
  {
    if option !in config.options then Failure(NoSuchOption(option))
    else if option in config.values then Success(Some(config.values[option]))
    else Success(None)
  }

  /** An explicit query wins; otherwise the marker's option is looked up. */
  function ResolveQuery(m: Marker, query: Option<string>, config: CommandLine): (r: Result<Option<string>, SetupError>)
    ensures query.Some? ==> r == Success(query)
    ensures query.None? ==> r == GetOption(config, CmdOption(m))
  {
    if query.Some? then Success(query) else GetOption(config, CmdOption(m))
  }

  /** Reading the item's values, failing as indexing the missing first
      argument does. */
  function ReadItemMarks(markerId: string, item: seq<Mark>): (r: Result<seq<string>, SetupError>)
    ensures r.Failure? <==> !CarriesValues(markerId, item)
    ensures r.Failure? ==> r.error == MissingValue(markerId)
    ensures r.Success? ==> r.value == ReadMarks(markerId, item)
  {
    if CarriesValues(markerId, item) then Success(ReadMarks(markerId, item))
    else Failure(MissingValue(markerId))
  }

  /** `skip_if_not_compliant(item, query)`: resolve the query, read the
      item's values for this marker and decide. */
  function SkipIfNotCompliant(m: Marker, item: seq<Mark>, query: Option<string>, config: CommandLine): (r: Result<Decision, SetupError>)
    // The option lookup comes first and its failure wins ...
    ensures query.None? && CmdOption(m) !in config.options ==> r == Failure(NoSuchOption(CmdOption(m)))
    // ... then a mark without an argument fails the reading.
    ensures (query.Some? || CmdOption(m) in config.options) && !CarriesValues(m.markerId, item) ==>
      r == Failure(MissingValue(m.markerId))
    ensures r.Success? <==> (query.Some? || CmdOption(m) in config.options) && CarriesValues(m.markerId, item)
    // The decision, stated on the item's marks and the resolved query.
    ensures r.Success? && ResolveQuery(m, query, config).value.None? ==>
      (r.value.Skip? <==> m.noflag == SkipAllMarked && IsMarked(m.markerId, item))
    ensures r.Success? && ResolveQuery(m, query, config).value.Some? && IsMarked(m.markerId, item) ==>
      (r.value.Skip? <==> !exists mk :: mk in item && mk.name == m.markerId
                                        && mk.args[0] == ResolveQuery(m, query, config).value.value)
    ensures r.Success? && ResolveQuery(m, query, config).value.Some? && !IsMarked(m.markerId, item) ==>
      (r.value.Skip? <==> m.nomark == RunOnlyIfNoFlag)
  {
    match ResolveQuery(m, query, config)
    case Failure(e) => Failure(e)
    case Success(q) =>
      match ReadItemMarks(m.markerId, item)
      case Failure(e) => Failure(e)
      case Success(required) =>
        ReadMarksNonEmpty(m.markerId, item);
        ReadMarksMembers(m.markerId, item);
        Success(Decide(m, q, required))
  }

  // ---------------------------------------------------------------------
  // The process-wide registry

  /** The list every marker is appended to when it is created. */
  class Registry {
    var markers: seq<Marker>

    constructor()
      ensures markers == []
    {
      markers := [];
    }

    /** Creating a marker registers it: exactly one entry is appended and
        the earlier entries are unchanged. */
    method NewMarker(
      markerId: string,
      fullName: Option<string> := None,
      noflag: NoFlagBehavior := RunAllMarked,
      nomark: NoMarkBehavior := AlwaysRun) returns (m: Marker)
      modifies this
      ensures m == MakeMarker(markerId, fullName, noflag, nomark)
      ensures markers == old(markers) + [m]
    {
      m := MakeMarker(markerId, fullName, noflag, nomark);
      markers := markers + [m];
    }

    /** All markers created so far, in creation order. */
    function ListAll(): seq<Marker>
      reads this
    {
      markers
    }
  }
}
