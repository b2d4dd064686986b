/** The pytest plugin that wires markers into a session: it chooses the
    active markers once the conftest files are loaded, registers one
    command-line option and one help line per active marker, and before
    each test evaluates every active marker against it. */
module Plugin {
  import opened Wrappers
  import opened Marks

  /** Why starting the session fails: the plugin's own assertion that at
      most one hook implementation answers "which markers are active", or
      the host's refusal of an option spelling, either because it was
      already added or because it is no valid long option. */
  datatype PluginError =
    | SeveralHookAnswers(count: nat)
    | OptionAlreadyAdded(option: string)
    | MalformedOption(option: string)

  /** The active markers: the hook's answer if one implementation gave
      one, otherwise every marker created so far. */
  function ActiveMarkers(answers: seq<seq<Marker>>, registered: seq<Marker>): (r: Result<seq<Marker>, PluginError>)
    ensures r.Failure? <==> |answers| >= 2
    ensures r.Failure? ==> r.error == SeveralHookAnswers(|answers|)
    ensures r.Success? && |answers| == 0 ==> r.value == registered
    ensures r.Success? && |answers| == 1 ==> r.value == answers[0]
  {
    if |answers| >= 2 then Failure(SeveralHookAnswers(|answers|))
    else if |answers| == 0 then Success(registered)
    else Success(answers[0])
  }

  /** A command-line option as handed to the host's parser. */
  datatype OptionSpec = OptionSpec(name: string, action: string, metavar: string, help: string)

  /** The option the plugin adds for one marker. */
  function OptionFor(m: Marker): OptionSpec {
    OptionSpec(CmdOption(m), "store", "NAME", CmdHelp(m))
  }

  /** The options of a list of markers. */
  function OptionsFor(markers: seq<Marker>): (specs: seq<OptionSpec>)
    ensures |specs| == |markers|
    ensures forall i :: 0 <= i < |markers| ==> specs[i] == OptionFor(markers[i])
  {
    seq(|markers|, i requires 0 <= i < |markers| => OptionFor(markers[i]))
  }

  /** The spellings of a list of options. */
  function Names(specs: seq<OptionSpec>): set<string> {
    set i | 0 <= i < |specs| :: specs[i].name
  }

  predicate DistinctIds(markers: seq<Marker>) {
    forall i, j :: 0 <= i < j < |markers| ==> markers[i].markerId != markers[j].markerId
  }

  /** The host's parser takes a long option only as `--` followed by at
      least one character other than a leading `-`: a marker with an empty
      identifier (`--`) or one starting with `-` (`---x`) is refused. */
  predicate WellFormedOption(m: Marker) {
    m.markerId != "" && m.markerId[0] != '-'
  }

  /** The option of the marker at `k` was added before the plugin or by an
      earlier marker of the same identifier. */
  predicate AlreadyAdded(active: seq<Marker>, added: set<string>, k: nat)
    requires k < |active|
  {
    CmdOption(active[k]) in added || exists j :: 0 <= j < k && active[j].markerId == active[k].markerId
  }

  /** The host refuses the option of the marker at `k`. */
  predicate Refused(active: seq<Marker>, added: set<string>, k: nat)
    requires k < |active|
  {
    AlreadyAdded(active, added, k) || !WellFormedOption(active[k])
  }

  /** The marker at `k` is the first whose option the host refuses. */
  predicate FirstRefused(active: seq<Marker>, added: set<string>, k: nat) {
    k < |active| && Refused(active, added, k) && forall i :: 0 <= i < k ==> !Refused(active, added, i)
  }

  /** The error the host raises for a refused option: a clash with an
      existing spelling is reported before the spelling is parsed. */
  function Refusal(active: seq<Marker>, added: set<string>, k: nat): PluginError
    requires k < |active|
  {
    if AlreadyAdded(active, added, k) then OptionAlreadyAdded(CmdOption(active[k]))
    else MalformedOption(CmdOption(active[k]))
  }

  /** Every active marker's option is accepted by the host. */
  predicate Startable(active: seq<Marker>, added: set<string>) {
    && DistinctIds(active)
    && forall i :: 0 <= i < |active| ==> CmdOption(active[i]) !in added && WellFormedOption(active[i])
  }

  /** The host accepted the options of the first `n` markers. */
  predicate AcceptedUpTo(active: seq<Marker>, added: set<string>, n: nat)
    requires n <= |active|
  {
    && (forall i, j :: 0 <= i < j < n ==> active[i].markerId != active[j].markerId)
    && forall i :: 0 <= i < n ==> CmdOption(active[i]) !in added && WellFormedOption(active[i])
  }

  lemma AcceptedNotRefused(active: seq<Marker>, added: set<string>, n: nat)
    requires n <= |active| && AcceptedUpTo(active, added, n)
    ensures forall i :: 0 <= i < n ==> !Refused(active, added, i)
  {
  }

  /** The options already added for the first `k` markers clash with the
      next marker's option iff an earlier marker has its identifier. */
  lemma NamesOfPrefix(active: seq<Marker>, specs: seq<OptionSpec>, k: nat)
    requires k < |active| && |specs| == k
    requires forall i :: 0 <= i < k ==> specs[i] == OptionFor(active[i])
    ensures CmdOption(active[k]) in Names(specs) <==>
      exists j :: 0 <= j < k && active[j].markerId == active[k].markerId
  {
    if CmdOption(active[k]) in Names(specs) {
      var j :| 0 <= j < |specs| && specs[j].name == CmdOption(active[k]);
      CmdOptionInjective(active[j], active[k]);
    }
    forall j | 0 <= j < k && active[j].markerId == active[k].markerId
      ensures CmdOption(active[k]) in Names(specs)
    {
      assert specs[j].name in Names(specs);
    }
  }

  /** One option per active marker, in order. `added` holds the spellings
      already added with the host's `parser.addoption` before the plugin's
      loop. The host refuses a spelling already added that way, whether by
      an earlier marker or before the loop, and a spelling that is no valid
      long option; the first refused spelling aborts the start-up. */
  method AddOptions(active: seq<Marker>, added: set<string>) returns (r: Result<seq<OptionSpec>, PluginError>)
    ensures r.Success? <==> Startable(active, added)
    ensures r.Success? ==> r.value == OptionsFor(active)
    ensures r.Failure? ==> exists k :: FirstRefused(active, added, k) && r.error == Refusal(active, added, k)
  {
    var specs: seq<OptionSpec> := [];
    for k := 0 to |active|
      invariant |specs| == k
      invariant forall i :: 0 <= i < k ==> specs[i] == OptionFor(active[i])
      invariant AcceptedUpTo(active, added, k)
    {
      var name := CmdOption(active[k]);
      NamesOfPrefix(active, specs, k);
      AcceptedNotRefused(active, added, k);
      if name in added || name in Names(specs) {
        assert FirstRefused(active, added, k);
        return Failure(OptionAlreadyAdded(name));
      }
      if !WellFormedOption(active[k]) {
        assert FirstRefused(active, added, k);
        return Failure(MalformedOption(name));
      }
      specs := specs + [OptionFor(active[k])];
    }
    assert specs == OptionsFor(active);
    return Success(specs);
  }

  /** The marker help line registered for one marker. */
  function HelpLine(m: Marker): string {
    m.markerId + "(id): " + MarkHelp(m)
  }

  /** One help line per active marker, in order; each names the marker's
      identifier and its full name. */
  method AddMarkerHelpLines(active: seq<Marker>) returns (lines: seq<string>)
    ensures |lines| == |active|
    ensures forall i :: 0 <= i < |active| ==> lines[i] == HelpLine(active[i])
    ensures forall i :: 0 <= i < |active| ==>
      active[i].markerId <= lines[i] && IsInfix(active[i].fullName, lines[i])
  {
    lines := [];
    for k := 0 to |active|
      invariant |lines| == k
      invariant forall i :: 0 <= i < k ==> lines[i] == HelpLine(active[i])
      invariant forall i :: 0 <= i < k ==>
        active[i].markerId <= lines[i] && IsInfix(active[i].fullName, lines[i])
    {
      var m := active[k];
      HelpNamesFullName(m, m);
      InfixExtendLeft(m.fullName, MarkHelp(m), m.markerId + "(id): ");
      lines := lines + [HelpLine(m)];
    }
  }

  // ---------------------------------------------------------------------
  // Evaluating the active markers before a test

  /** What evaluating one marker does to the test: let it proceed
      (`Success(Run)`), skip it, or raise an error. */
  type Outcome = Result<Decision, SetupError>

  predicate Proceeds(o: Outcome) {
    o == Success(Run)
  }

  /** The outcome of every marker on the item, in marker order, each query
      read from the command line. */
  function Outcomes(markers: seq<Marker>, config: CommandLine, item: seq<Mark>): (os: seq<Outcome>)
    ensures |os| == |markers|
    ensures forall i :: 0 <= i < |markers| ==> os[i] == SkipIfNotCompliant(markers[i], item, None, config)
  {
    seq(|markers|, i requires 0 <= i < |markers| => SkipIfNotCompliant(markers[i], item, None, config))
  }

  lemma OutcomesAppend(a: seq<Marker>, b: seq<Marker>, config: CommandLine, item: seq<Mark>)
    ensures Outcomes(a + b, config, item) == Outcomes(a, config, item) + Outcomes(b, config, item)
  {
  }

  /** The outcome of a sequence of outcomes taken in order, the first skip
      or error ending the sequence: the test proceeds iff every marker lets
      it, and otherwise the first that does not decides. */
  function FirstStop(os: seq<Outcome>): (o: Outcome)
    ensures Proceeds(o) <==> forall i :: 0 <= i < |os| ==> Proceeds(os[i])
    ensures !Proceeds(o) ==>
      exists k :: 0 <= k < |os| && o == os[k] && (forall j :: 0 <= j < k ==> Proceeds(os[j]))
  {
    if |os| == 0 then Success(Run)
    else if !Proceeds(os[0]) then os[0]
    else
      var rest := FirstStop(os[1..]);
      assert forall i :: 0 <= i < |os| - 1 ==> os[1..][i] == os[i + 1];
      if !Proceeds(rest) then
        var k :| 0 <= k < |os| - 1 && rest == os[1..][k] && (forall j :: 0 <= j < k ==> Proceeds(os[1..][j]));
        assert rest == os[k + 1];
        assert forall j :: 0 <= j < k + 1 ==> Proceeds(os[j]) by {
          forall j | 0 <= j < k + 1 ensures Proceeds(os[j]) {
            if j > 0 { assert os[j] == os[1..][j - 1]; }
          }
        }
        rest
      else
        rest
  }

  /** Folding `a + b` is folding `a`, and only if all of `a` let the test
      proceed, folding `b`. */
  lemma {:induction false} FirstStopAppend(a: seq<Outcome>, b: seq<Outcome>)
    ensures FirstStop(a + b) == if Proceeds(FirstStop(a)) then FirstStop(b) else FirstStop(a)
  {
    if |a| == 0 {
      assert a + b == b;
    } else {
      assert (a + b)[1..] == a[1..] + b;
      assert (a + b)[0] == a[0];
      FirstStopAppend(a[1..], b);
    }
  }

  /** When the outcomes before `k` proceed and the one at `k` does not,
      that one is the test's outcome. */
  lemma FirstStopIsOutcome(os: seq<Outcome>, k: nat)
    requires k < |os| && !Proceeds(os[k])
    requires forall j :: 0 <= j < k ==> Proceeds(os[j])
    ensures FirstStop(os) == os[k]
  {
  }

  /** The first `n` outcomes let the test proceed. */
  predicate AllProceed(os: seq<Outcome>, n: nat)
    requires n <= |os|
  {
    forall j :: 0 <= j < n ==> Proceeds(os[j])
  }

  /** When a scan of `os` stops, having found every outcome so far
      proceeding, at its end or at the first outcome that does not, the
      outcome it holds is the fold's. */
  lemma SetupLoopExit(os: seq<Outcome>, o: Outcome, n: nat)
    requires n <= |os| && (n == |os| || !Proceeds(o))
    requires Proceeds(o) ==> AllProceed(os, n)
    requires !Proceeds(o) ==> 0 < n && o == os[n - 1] && AllProceed(os, n - 1)
    ensures o == FirstStop(os)
  {
  }

  /** The per-item setup loop: markers are evaluated in order and the first
      skip or error ends it, so exactly `evaluated` markers were looked at. */
  method RunTestSetup(active: seq<Marker>, config: CommandLine, item: seq<Mark>) returns (o: Outcome, evaluated: nat)
    ensures o == FirstStop(Outcomes(active, config, item))
    ensures evaluated <= |active|
    ensures Proceeds(o) ==> evaluated == |active|
    ensures !Proceeds(o) ==>
      && 0 < evaluated
      && o == Outcomes(active, config, item)[evaluated - 1]
      && forall j :: 0 <= j < evaluated - 1 ==> Proceeds(Outcomes(active, config, item)[j])
  {
    ghost var os := Outcomes(active, config, item);
    evaluated := 0;
    o := Success(Run);
    while evaluated < |active| && Proceeds(o)
      invariant evaluated <= |active|
      invariant Proceeds(o) ==> AllProceed(os, evaluated)
      invariant !Proceeds(o) ==> 0 < evaluated && o == os[evaluated - 1] && AllProceed(os, evaluated - 1)
    {
      o := SkipIfNotCompliant(active[evaluated], item, None, config);
      assert o == os[evaluated];
      evaluated := evaluated + 1;
    }
    SetupLoopExit(os, o, evaluated);
  }

  /** When every evaluated marker's option is registered, no test errors
      for want of an option: the only error left is a mark without an
      argument. */
  lemma RegisteredOptionsFound(active: seq<Marker>, config: CommandLine, item: seq<Mark>)
    requires forall i :: 0 <= i < |active| ==> CmdOption(active[i]) in config.options
    ensures FirstStop(Outcomes(active, config, item)).Failure? ==>
      FirstStop(Outcomes(active, config, item)).error.MissingValue?
  {
  }

  /** A marker created after the options were added has none: once the
      markers before it let the test proceed, evaluating it fails the
      test's setup. */
  lemma LateMarkerFailsSetup(active: seq<Marker>, late: Marker, config: CommandLine, item: seq<Mark>)
    requires CmdOption(late) !in config.options
    requires Proceeds(FirstStop(Outcomes(active, config, item)))
    ensures FirstStop(Outcomes(active + [late], config, item)) == Failure(NoSuchOption(CmdOption(late)))
  {
    OutcomesAppend(active, [late], config, item);
    FirstStopAppend(Outcomes(active, config, item), Outcomes([late], config, item));
    assert Outcomes([late], config, item)[0] == Failure(NoSuchOption(CmdOption(late)));
  }

  /** The session from start-up to one test's setup: choose the active
      markers, add their options (the host's parser then knows those and
      the options `added` with `parser.addoption` before), register their help lines, and evaluate
      the active markers against the test with the supplied `values`. */
  method RunSession(answers: seq<seq<Marker>>, registered: seq<Marker>, added: set<string>,
                    values: map<string, string>, item: seq<Mark>)
    returns (r: Result<Outcome, PluginError>)
    ensures |answers| >= 2 ==> r == Failure(SeveralHookAnswers(|answers|))
    ensures |answers| < 2 ==> (r.Success? <==> Startable(ActiveMarkers(answers, registered).value, added))
    ensures |answers| < 2 && r.Failure? ==>
      exists k :: FirstRefused(ActiveMarkers(answers, registered).value, added, k)
        && r.error == Refusal(ActiveMarkers(answers, registered).value, added, k)
    ensures |answers| < 2 && r.Success? ==>
      r.value == FirstStop(Outcomes(ActiveMarkers(answers, registered).value,
                                    CommandLine(added + Names(OptionsFor(ActiveMarkers(answers, registered).value)), values),
                                    item))
    ensures r.Success? && r.value.Failure? ==> r.value.error.MissingValue?
  {
    var active := ActiveMarkers(answers, registered);
    if active.Failure? {
      return Failure(active.error);
    }
    var specs := AddOptions(active.value, added);
    if specs.Failure? {
      return Failure(specs.error);
    }
    var lines := AddMarkerHelpLines(active.value);
    var config := CommandLine(added + Names(specs.value), values);
    forall i | 0 <= i < |active.value| ensures CmdOption(active.value[i]) in config.options {
      assert specs.value[i].name in Names(specs.value);
    }
    RegisteredOptionsFound(active.value, config, item);
    var o, _ := RunTestSetup(active.value, config, item);
    return Success(o);
  }
}
