/** The scenario runner: recorded state, selection, the run loop, and sequences of runs. */
module Runner {
  import opened Common
  import opened ScenarioOrder

  datatype Status = Pass | Fail | Na

  datatype RunnerState = RunnerState(fingerprint: string, scenarios: map<string, Status>)

  /** The state file: absent, not parseable or of another shape, or saved with a format version. */
  datatype StateFile = Missing | Unreadable | Saved(version: int, state: RunnerState)

  function EmptyState(fingerprint: string): RunnerState { RunnerState(fingerprint, map[]) }

  function LoadState(file: StateFile, fingerprint: string): RunnerState {
    if !file.Saved? || file.version != 1 || file.state.fingerprint != fingerprint then EmptyState(fingerprint)
    else RunnerState(fingerprint, file.state.scenarios)
  }

  predicate ShouldSkip(id: string, state: RunnerState, force: bool) {
    !force && id in state.scenarios && state.scenarios[id] == Pass
  }

  function Record(state: RunnerState, id: string, status: Status): RunnerState {
    state.(scenarios := state.scenarios[id := status])
  }

  function FailedIds(state: RunnerState): set<string> {
    set id | id in state.scenarios && state.scenarios[id] == Fail
  }

  // ----- Selection -----

  datatype Mode = List | One(id: string) | Tag(tag: string) | All | FailedOnly

  predicate IsDestructive(s: Scenario) { s.destructive || "destructive" in s.tags }

  predicate Wanted(s: Scenario, mode: Mode, state: RunnerState) {
    match mode
    case List => false
    case One(id) => s.id == id
    case Tag(tag) => tag in s.tags || (tag == "destructive" && IsDestructive(s))
    case All => !IsDestructive(s)
    case FailedOnly => s.id in FailedIds(state)
  }

  function Filtered(all: seq<Scenario>, mode: Mode, state: RunnerState): seq<Scenario> {
    if all == [] then []
    else
      var n := |all| - 1;
      var before := Filtered(all[..n], mode, state);
      if Wanted(all[n], mode, state) then before + [all[n]] else before
  }

  function Find(all: seq<Scenario>, id: string): Option<Scenario> {
    if all == [] then None else if all[0].id == id then Some(all[0]) else Find(all[1..], id)
  }

  function SelectScenarios(all: seq<Scenario>, mode: Mode, state: RunnerState): Result<seq<Scenario>, string> {
    match mode
    case List => Ok([])
    case One(id) =>
      (match Find(all, id)
       case None => Err("Unknown scenario id: " + id)
       case Some(found) => Ok(Order([found])))
    case _ => Ok(Order(Filtered(all, mode, state)))
  }

  lemma {:induction false} FilteredKeeps(all: seq<Scenario>, mode: Mode, state: RunnerState)
    ensures forall s :: s in Filtered(all, mode, state) <==> s in all && Wanted(s, mode, state)
    ensures DistinctIds(all) ==> DistinctIds(Filtered(all, mode, state))
  {
    if all == [] {
    } else {
      var n := |all| - 1;
      FilteredKeeps(all[..n], mode, state);
      assert all == all[..n] + [all[n]];
      var before := Filtered(all[..n], mode, state);
      if DistinctIds(all) {
        forall i | 0 <= i < |before| ensures before[i].id != all[n].id {
          assert before[i] in all[..n];
        }
      }
    }
  }

  lemma {:induction false} FindFinds(all: seq<Scenario>, id: string)
    ensures Find(all, id).None? <==> forall s <- all :: s.id != id
    ensures Find(all, id).Some? ==> Find(all, id).value in all && Find(all, id).value.id == id
  {
    if all != [] {
      FindFinds(all[1..], id);
      assert all == [all[0]] + all[1..];
    }
  }

  /**
   * Of a catalogue with distinct ids every mode selects exactly the wanted scenarios, each once, in an order
   * that respects their dependencies; the only error is an unknown id.
   */
  lemma SelectionIsExact(all: seq<Scenario>, mode: Mode, state: RunnerState)
    requires DistinctIds(all)
    ensures var r := SelectScenarios(all, mode, state);
      && (r.Err? <==> mode.One? && forall s <- all :: s.id != mode.id)
      && (r.Ok? ==> DistinctIds(r.value) && forall s :: s in r.value <==> s in all && Wanted(s, mode, state))
      && (r.Ok? ==> DependenciesFirst(r.value))
  {
    FilteredKeeps(all, mode, state);
    match mode
    case List =>
    case One(id) =>
      FindFinds(all, id);
      if Find(all, id).Some? {
        var found := Find(all, id).value;
        OrderKeeps([found]);
        forall s | s in all && s.id == id ensures s == found { OneScenarioPerId(all, s, found); }
      }
    case _ => OrderKeeps(Filtered(all, mode, state));
  }

  /** A selected dependency that does not lead back to its dependant stands before it. */
  ghost predicate DependenciesFirst(selected: seq<Scenario>) {
    var byId := ById(selected);
    forall i, d ::
      0 <= i < |selected| && d in selected[i].dependsOn && d in byId && !Reaches(byId, d, selected[i].id) ==>
      StandsBefore(selected, d, i)
  }

  lemma OrderKeeps(scenarios: seq<Scenario>)
    requires DistinctIds(scenarios)
    ensures DistinctIds(Order(scenarios)) && DependenciesFirst(Order(scenarios))
    ensures forall s :: s in Order(scenarios) <==> s in scenarios
  {
    OrderIsComplete(scenarios);
    OrderIsPermutation(scenarios);
    OrderKeepsTable(scenarios);
    OrderRespectsDependencies(scenarios);
    forall s ensures s in Order(scenarios) <==> s in scenarios {
      assert s in multiset(Order(scenarios)) <==> s in multiset(scenarios);
    }
  }

  /** The run takes scenario `s`. */
  ghost predicate Takes(all: seq<Scenario>, mode: Mode, state: RunnerState, s: Scenario) {
    var r := SelectScenarios(all, mode, state);
    r.Ok? && s in r.value
  }

  /** A run of everything takes exactly the discovered scenarios that are neither marked nor tagged destructive. */
  lemma AllIsNeverDestructive(all: seq<Scenario>, state: RunnerState, s: Scenario)
    requires DistinctIds(all)
    ensures SelectScenarios(all, All, state).Ok?
    ensures Takes(all, All, state, s) <==> s in all && !s.destructive && "destructive" !in s.tags
  {
    SelectionIsExact(all, All, state);
  }

  /** The tag "destructive" takes exactly the ones a run of everything leaves out; any other tag takes its bearers. */
  lemma TagTakesItsBearers(all: seq<Scenario>, tag: string, state: RunnerState, s: Scenario)
    requires DistinctIds(all) && s in all
    ensures Takes(all, Tag("destructive"), state, s) <==> !Takes(all, All, state, s)
    ensures tag != "destructive" ==> (Takes(all, Tag(tag), state, s) <==> tag in s.tags)
  {
    SelectionIsExact(all, Tag("destructive"), state);
    SelectionIsExact(all, Tag(tag), state);
    AllIsNeverDestructive(all, state, s);
  }

  /** A listing takes nothing, and one id takes the scenario of that id, destructive or not. */
  lemma OneTakesItsScenario(all: seq<Scenario>, id: string, state: RunnerState, s: Scenario)
    requires DistinctIds(all) && s in all
    ensures !Takes(all, List, state, s)
    ensures Takes(all, One(id), state, s) <==> s.id == id
  {
    SelectionIsExact(all, List, state);
    SelectionIsExact(all, One(id), state);
  }

  /** The failed-only selection is exactly the recorded failures that are still discovered. */
  lemma FailedOnlyIsTheFailures(all: seq<Scenario>, state: RunnerState, s: Scenario)
    requires DistinctIds(all)
    ensures SelectScenarios(all, FailedOnly, state).Ok?
    ensures Ids(SelectScenarios(all, FailedOnly, state).value) == FailedIds(state) * Ids(all)
    ensures Takes(all, FailedOnly, state, s)
      <==> s in all && s.id in state.scenarios && state.scenarios[s.id] == Fail
  {
    SelectionIsExact(all, FailedOnly, state);
    var selected := SelectScenarios(all, FailedOnly, state).value;
    forall id ensures id in Ids(selected) <==> id in FailedIds(state) * Ids(all) {
      if id in FailedIds(state) * Ids(all) {
        var t :| t in all && t.id == id;
        assert t in selected;
      }
    }
  }

  /** Records are taken over from a file saved in format 1 under the same fingerprint, and from nothing else. */
  lemma LoadedIff(file: StateFile, fingerprint: string, id: string, status: Status)
    ensures LoadState(file, fingerprint).fingerprint == fingerprint
    ensures id in LoadState(file, fingerprint).scenarios && LoadState(file, fingerprint).scenarios[id] == status <==>
      && file.Saved? && file.version == 1 && file.state.fingerprint == fingerprint
      && id in file.state.scenarios && file.state.scenarios[id] == status
  {
  }

  // ----- One scenario -----

  /** What a scenario meets when it is not skipped. */
  datatype Outcome =
    | PreflightUninit
    | PreflightError
    | NotApplicable
    | Checks(ok: bool)
    | SoftNa
    | Throws

  datatype Reported = RanPass | RanFail | Skipped | ReportedNa

  datatype RunResult = RunResult(id: string, status: Reported)

  function RunOne(id: string, outcome: Outcome, state: RunnerState, force: bool): (RunResult, RunnerState) {
    if ShouldSkip(id, state, force) then (RunResult(id, Skipped), state)
    else match outcome
      case PreflightUninit => (RunResult(id, ReportedNa), state)
      case PreflightError => (RunResult(id, RanFail), Record(state, id, Fail))
      case NotApplicable => (RunResult(id, ReportedNa), state)
      case Checks(ok) => (RunResult(id, if ok then RanPass else RanFail), Record(state, id, if ok then Pass else Fail))
      case SoftNa => (RunResult(id, ReportedNa), Record(state, id, Na))
      case Throws => (RunResult(id, RanFail), Record(state, id, Fail))
  }

  // ----- The run loop -----

  type Outcomes = map<string, Outcome>

  function OutcomeOf(outcomes: Outcomes, id: string): Outcome { if id in outcomes then outcomes[id] else Throws }

  function RunAll(selected: seq<Scenario>, outcomes: Outcomes, state: RunnerState, force: bool)
    : (seq<RunResult>, RunnerState)
  {
    if selected == [] then ([], state)
    else
      var n := |selected| - 1;
      var (results, before) := RunAll(selected[..n], outcomes, state, force);
      var (result, after) := RunOne(selected[n].id, OutcomeOf(outcomes, selected[n].id), before, force);
      (results + [result], after)
  }

  datatype Launch = Launch(mode: Mode, force: bool, fingerprint: string, outcomes: Outcomes)

  /** One run: load, select, run each selected scenario in turn, save. A refused selection saves nothing. */
  method ExecuteRun(all: seq<Scenario>, launch: Launch, file: StateFile)
    returns (r: Result<seq<RunResult>, string>, saved: StateFile)
    ensures var state := LoadState(file, launch.fingerprint);
      var selected := SelectScenarios(all, launch.mode, state);
      match selected
      case Err(e) => r == Err(e) && saved == file
      case Ok(scenarios) =>
        if launch.mode.List? then r == Ok([]) && saved == file
        else
          var (results, next) := RunAll(scenarios, launch.outcomes, state, launch.force);
          r == Ok(results) && saved == Saved(1, next)
  {
    if launch.mode.List? { return Ok([]), file; }
    var state := LoadState(file, launch.fingerprint);
    ghost var loaded := state;
    var selected := SelectScenarios(all, launch.mode, state);
    if selected.Err? { return Err(selected.error), file; }
    var results := [];
    for i := 0 to |selected.value|
      invariant (results, state) == RunAll(selected.value[..i], launch.outcomes, loaded, launch.force)
    {
      var id := selected.value[i].id;
      assert selected.value[..i + 1][..i] == selected.value[..i];
      var (result, next) := RunOne(id, OutcomeOf(launch.outcomes, id), state, launch.force);
      state := next;
      results := results + [result];
    }
    assert selected.value[..|selected.value|] == selected.value;
    return Ok(results), Saved(1, state);
  }

  lemma IdsOfSplit(selected: seq<Scenario>)
    requires DistinctIds(selected) && selected != []
    ensures var n := |selected| - 1;
      Ids(selected) == Ids(selected[..n]) + {selected[n].id} && selected[n].id !in Ids(selected[..n])
        && DistinctIds(selected[..n])
  {
    assert selected == selected[..|selected| - 1] + [selected[|selected| - 1]];
  }

  /** One scenario reads and writes only its own record. */
  lemma RunOneIsLocal(id: string, outcome: Outcome, a: RunnerState, b: RunnerState, force: bool)
    requires RecordOf(a, id) == RecordOf(b, id)
    ensures var (ra, na) := RunOne(id, outcome, a, force);
      var (rb, nb) := RunOne(id, outcome, b, force);
      && ra == rb && RecordOf(na, id) == RecordOf(nb, id) && na.fingerprint == a.fingerprint
      && forall other :: other != id ==> RecordOf(na, other) == RecordOf(a, other)
  {
  }

  /**
   * One result per selected scenario, in the order of selection, each decided by the state the run started
   * from; only attempted scenarios change their record, the rest of the state and the fingerprint stay.
   */
  lemma {:induction false} RunAllIsPointwise(selected: seq<Scenario>, outcomes: Outcomes, state: RunnerState,
                                             force: bool)
    requires DistinctIds(selected)
    ensures var (results, next) := RunAll(selected, outcomes, state, force);
      && |results| == |selected|
      && (forall i :: 0 <= i < |selected| ==>
            results[i] == RunOne(selected[i].id, OutcomeOf(outcomes, selected[i].id), state, force).0)
      && next.fingerprint == state.fingerprint
      && (forall id :: RecordOf(next, id) ==
            if id in Ids(selected) then RecordOf(RunOne(id, OutcomeOf(outcomes, id), state, force).1, id)
            else RecordOf(state, id))
  {
    if selected == [] {
    } else {
      var n := |selected| - 1;
      RunAllIsPointwise(selected[..n], outcomes, state, force);
      var last := selected[n].id;
      IdsOfSplit(selected);
      var before := RunAll(selected[..n], outcomes, state, force).1;
      RunOneIsLocal(last, OutcomeOf(outcomes, last), before, state, force);
    }
  }

  /** What a run reports of each selected scenario: skipped on a recorded pass, and otherwise what it met. */
  lemma ReportsTellOutcomes(selected: seq<Scenario>, outcomes: Outcomes, state: RunnerState, force: bool, i: nat)
    requires DistinctIds(selected) && i < |selected|
    ensures var results, id := RunAll(selected, outcomes, state, force).0, selected[i].id;
      && |results| == |selected| && results[i].id == id
      && results[i].status ==
           if !force && RecordOf(state, id) == Some(Pass) then Skipped
           else match OutcomeOf(outcomes, id)
             case PreflightUninit => ReportedNa
             case NotApplicable => ReportedNa
             case SoftNa => ReportedNa
             case Checks(true) => RanPass
             case _ => RanFail
  {
    RunAllIsPointwise(selected, outcomes, state, force);
  }

  function RecordOf(state: RunnerState, id: string): Option<Status> {
    if id in state.scenarios then Some(state.scenarios[id]) else None
  }

  // ----- Sequences of runs -----

  /**
   * A launch that is saved; one killed at any time before it saves, which leaves the file as it was; or one killed
   * in the middle of writing the file, which cannot be parsed afterwards.
   */
  datatype Event = Completed(launch: Launch) | Killed(launch: Launch) | Torn(launch: Launch)

  /** The launch gets as far as saving. */
  predicate ReachesSave(all: seq<Scenario>, launch: Launch, file: StateFile) {
    !launch.mode.List? && SelectScenarios(all, launch.mode, LoadState(file, launch.fingerprint)).Ok?
  }

  function After(all: seq<Scenario>, e: Event, file: StateFile): StateFile {
    if e.Killed? || !ReachesSave(all, e.launch, file) then file
    else if e.Torn? then Unreadable
    else
      var state := LoadState(file, e.launch.fingerprint);
      Saved(1, RunAll(SelectScenarios(all, e.launch.mode, state).value, e.launch.outcomes, state, e.launch.force).1)
  }

  function History(all: seq<Scenario>, events: seq<Event>, file: StateFile): StateFile {
    if events == [] then file else After(all, events[|events| - 1], History(all, events[..|events| - 1], file))
  }

  ghost predicate RecordedAs(file: StateFile, fingerprint: string, id: string, status: Status) {
    RecordOf(LoadState(file, fingerprint), id) == Some(status)
  }

  /** `id` is selected by this launch and not skipped: it is preflighted, and run unless it is not applicable. */
  ghost predicate Attempts(all: seq<Scenario>, launch: Launch, file: StateFile, id: string) {
    var state := LoadState(file, launch.fingerprint);
    var selected := SelectScenarios(all, launch.mode, state);
    selected.Ok? && id in Ids(selected.value) && !ShouldSkip(id, state, launch.force)
  }

  /** What one completed launch does to one record of its own fingerprint. */
  lemma CompletedRecords(all: seq<Scenario>, launch: Launch, file: StateFile, id: string)
    requires DistinctIds(all)
    ensures var was := RecordOf(LoadState(file, launch.fingerprint), id);
      RecordOf(LoadState(After(all, Completed(launch), file), launch.fingerprint), id) ==
      if launch.mode.List? || !Attempts(all, launch, file, id) then was
      else match OutcomeOf(launch.outcomes, id)
        case PreflightUninit => was
        case NotApplicable => was
        case Checks(ok) => Some(if ok then Pass else Fail)
        case SoftNa => Some(Na)
        case _ => Some(Fail)
  {
    var state := LoadState(file, launch.fingerprint);
    SelectionIsExact(all, launch.mode, state);
    var selected := SelectScenarios(all, launch.mode, state);
    if selected.Ok? && !launch.mode.List? {
      RunAllIsPointwise(selected.value, launch.outcomes, state, launch.force);
    }
  }

  ghost predicate UnforcedUnder(events: seq<Event>, fingerprint: string) {
    forall e <- events :: !e.launch.force && e.launch.fingerprint == fingerprint
  }

  /** The event dies inside its save. */
  ghost predicate Tears(all: seq<Scenario>, e: Event, file: StateFile) {
    e.Torn? && ReachesSave(all, e.launch, file)
  }

  /** The event attempts the scenario, sees it pass, and saves that. */
  ghost predicate RecordsPass(all: seq<Scenario>, e: Event, file: StateFile, id: string) {
    e.Completed? && !e.launch.mode.List? && Attempts(all, e.launch, file, id)
      && OutcomeOf(e.launch.outcomes, id) == Checks(true)
  }

  /** Looking back from the end, a run that records the pass comes before any run that died inside its save. */
  ghost predicate PassedSinceLastTear(all: seq<Scenario>, events: seq<Event>, file: StateFile, id: string) {
    events == [] ||
    var n := |events| - 1;
    var e, before := events[n], History(all, events[..n], file);
    !Tears(all, e, before) && (RecordsPass(all, e, before, id) || PassedSinceLastTear(all, events[..n], file, id))
  }

  /**
   * Under one fingerprint and without force a recorded pass is still recorded after a sequence of completed, killed
   * and torn runs exactly when no run of it died inside its save, or the scenario passed again in a saved run since.
   */
  lemma {:induction false} PassSurvivesIff(all: seq<Scenario>, events: seq<Event>, file: StateFile,
                                           fingerprint: string, id: string)
    requires DistinctIds(all) && UnforcedUnder(events, fingerprint)
    requires RecordedAs(file, fingerprint, id, Pass)
    ensures RecordedAs(History(all, events, file), fingerprint, id, Pass)
      <==> PassedSinceLastTear(all, events, file, id)
    decreases |events|
  {
    if events == [] {
    } else {
      var n := |events| - 1;
      var e, before := events[n], History(all, events[..n], file);
      assert e in events;
      PassSurvivesIff(all, events[..n], file, fingerprint, id);
      CompletedRecords(all, e.launch, before, id);
    }
  }

  ghost predicate NeverTears(all: seq<Scenario>, events: seq<Event>, file: StateFile) {
    events == [] ||
    var n := |events| - 1;
    NeverTears(all, events[..n], file) && !Tears(all, events[n], History(all, events[..n], file))
  }

  lemma {:induction false} NeverTornIsPassed(all: seq<Scenario>, events: seq<Event>, file: StateFile, id: string)
    requires NeverTears(all, events, file)
    ensures PassedSinceLastTear(all, events, file, id)
    decreases |events|
  {
    if events != [] { NeverTornIsPassed(all, events[..|events| - 1], file, id); }
  }

  /**
   * So, while no run dies inside its save, a recorded pass stays a pass through completed and killed runs, and no
   * later unforced run attempts that scenario again.
   */
  lemma PassIsNeverRunAgain(all: seq<Scenario>, events: seq<Event>, file: StateFile, fingerprint: string, id: string,
                            next: Launch)
    requires DistinctIds(all) && UnforcedUnder(events, fingerprint) && NeverTears(all, events, file)
    requires RecordedAs(file, fingerprint, id, Pass)
    requires !next.force && next.fingerprint == fingerprint
    ensures RecordedAs(History(all, events, file), fingerprint, id, Pass)
    ensures !Attempts(all, next, History(all, events, file), id)
  {
    NeverTornIsPassed(all, events, file, id);
    PassSurvivesIff(all, events, file, fingerprint, id);
  }

  /** A run that dies inside its save forgets everything: what the next run wants it attempts, passed before or not. */
  lemma TornSaveForgets(all: seq<Scenario>, torn: Launch, file: StateFile, next: Launch, s: Scenario)
    requires DistinctIds(all) && s in all && ReachesSave(all, torn, file)
    ensures LoadState(After(all, Torn(torn), file), next.fingerprint) == EmptyState(next.fingerprint)
    ensures Attempts(all, next, After(all, Torn(torn), file), s.id)
      <==> Wanted(s, next.mode, EmptyState(next.fingerprint))
  {
    SelectedIsAttemptedIff(all, next, After(all, Torn(torn), file), s);
  }

  /** Whatever is selected is attempted, unless it is recorded as passed and the run is not forced. */
  lemma SelectedIsAttemptedIff(all: seq<Scenario>, launch: Launch, file: StateFile, s: Scenario)
    requires DistinctIds(all) && s in all
    ensures Attempts(all, launch, file, s.id) <==>
      Wanted(s, launch.mode, LoadState(file, launch.fingerprint))
      && (launch.force || !RecordedAs(file, launch.fingerprint, s.id, Pass))
  {
    var state := LoadState(file, launch.fingerprint);
    SelectionIsExact(all, launch.mode, state);
    var selected := SelectScenarios(all, launch.mode, state);
    if selected.Ok? && s.id in Ids(selected.value) {
      var t :| t in selected.value && t.id == s.id;
      OneScenarioPerId(all, s, t);
    }
  }

  /** A recorded failure is attempted by every launch that selects it, and a failed-only launch always does. */
  lemma FailureIsAlwaysRetried(all: seq<Scenario>, launch: Launch, file: StateFile, s: Scenario)
    requires DistinctIds(all) && s in all && RecordedAs(file, launch.fingerprint, s.id, Fail)
    requires Wanted(s, launch.mode, LoadState(file, launch.fingerprint)) || launch.mode.FailedOnly?
    ensures Attempts(all, launch, file, s.id)
  {
    SelectedIsAttemptedIff(all, launch, file, s);
  }

  /**
   * After a completed failed-only run a failure is listed again exactly when it was and neither passed nor ended in a
   * soft N/A.
   */
  lemma FailureIsListedAgainIff(all: seq<Scenario>, launch: Launch, file: StateFile, s: Scenario)
    requires DistinctIds(all) && s in all && launch.mode.FailedOnly?
    ensures RecordedAs(After(all, Completed(launch), file), launch.fingerprint, s.id, Fail) <==>
      RecordedAs(file, launch.fingerprint, s.id, Fail) && OutcomeOf(launch.outcomes, s.id) !in {Checks(true), SoftNa}
  {
    SelectedIsAttemptedIff(all, launch, file, s);
    CompletedRecords(all, launch, file, s.id);
  }

  /** A run under another fingerprint starts from nothing, and once it has saved, the old records are gone for good. */
  lemma OtherFingerprintForgets(all: seq<Scenario>, launch: Launch, file: StateFile, previous: string)
    requires DistinctIds(all) && file.Saved? && file.state.fingerprint == previous && previous != launch.fingerprint
    ensures LoadState(file, launch.fingerprint).scenarios == map[]
    ensures After(all, Completed(launch), file) == file
      || LoadState(After(all, Completed(launch), file), previous).scenarios == map[]
    ensures !launch.mode.List? && !launch.mode.One? ==> After(all, Completed(launch), file) != file
  {
    var state := LoadState(file, launch.fingerprint);
    SelectionIsExact(all, launch.mode, state);
    var selected := SelectScenarios(all, launch.mode, state);
    if selected.Ok? { RunAllIsPointwise(selected.value, launch.outcomes, state, launch.force); }
  }
}
