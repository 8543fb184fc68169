/** The browser-side journey runner: a run resumed from session storage on every page load. */
module JourneyRunner {
  import opened Common
  import opened Strings

  // ----- steps and pages -----

  /** `known`: there is a handler for the step's type.  An empty section is an absent one. */
  datatype Step = Step(slug: string, section: string, prefixMode: bool, known: bool)

  /** What a page load shows the runner.  `handlerFails`: the step's handler throws on this page. */
  datatype Page = Page(path: string, hasErrors: bool, handlerFails: bool)

  function NonEmpty(parts: seq<string>): seq<string> {
    if parts == [] then [] else (if parts[0] != "" then [parts[0]] else []) + NonEmpty(parts[1..])
  }

  /** The path without its leading form slug. */
  function PagePath(path: string): string {
    var segments := NonEmpty(Split(path, '/'));
    "/" + Join(if segments == [] then [] else segments[1..], '/')
  }

  predicate IsUuidChar(c: char) {
    '0' <= c <= '9' || 'a' <= c <= 'f' || 'A' <= c <= 'F' || c == '-'
  }

  predicate IsUuid(s: string) {
    |s| == 36 && forall c :: c in s ==> IsUuidChar(c)
  }

  predicate Matches(step: Step, path: string) {
    var page := PagePath(path);
    if step.prefixMode then
      var prefix := "/" + step.slug + "/";
      prefix <= page && IsUuid(page[|prefix|..])
    else page == "/" + step.slug
  }

  // ----- finding steps -----

  predicate InSection(step: Step, section: string) {
    section == "" || step.section == section
  }

  function FirstMatch(steps: seq<Step>, from: nat, section: string, path: string): (i: int)
    ensures i == -1 || from <= i < |steps|
    decreases |steps| - from
  {
    if from >= |steps| then -1
    else if InSection(steps[from], section) && Matches(steps[from], path) then from
    else FirstMatch(steps, from + 1, section, path)
  }

  /** The first step after the last completed one that belongs to the section and matches the page. */
  lemma {:induction false} FirstMatchIsFirst(steps: seq<Step>, from: nat, section: string, path: string)
    ensures var i := FirstMatch(steps, from, section, path);
            && (i != -1 ==> InSection(steps[i], section) && Matches(steps[i], path))
            && (forall j :: from <= j < |steps| && (i == -1 || j < i) ==>
                  !(InSection(steps[j], section) && Matches(steps[j], path)))
    decreases |steps| - from
  {
    hide Matches;
    if from < |steps| && !(InSection(steps[from], section) && Matches(steps[from], path)) {
      FirstMatchIsFirst(steps, from + 1, section, path);
    }
  }

  function StuckStep(steps: seq<Step>, upTo: int, section: string, path: string): (i: int)
    ensures i == -1 || (i == upTo && 0 <= i < |steps|)
  {
    if upTo < 0 || upTo >= |steps| || !InSection(steps[upTo], section) then -1
    else if Matches(steps[upTo], path) then upTo else -1
  }

  // ----- the run -----

  /** What session storage holds while a run is active. */
  datatype JourneyState = JourneyState(stopAt: int, section: string, lastCompleted: Option<nat>, parcel: Option<string>)

  datatype Message =
    | NoSuchSection
    | Started
    | Stopped
    | Stuck(step: nat)
    | NothingRan
    | JourneyComplete
    | SectionComplete
    | Arrived(step: nat)
    | PageErrors
    | UnknownType
    | StepFailed(step: nat)

  /** A console line and the page it was written on. */
  datatype Report = Report(message: Message, path: string)

  datatype Execution = Execution(step: nat, parcel: Option<string>)

  /** `started` is the state the latest run began with and `executed` the steps it has run: bookkeeping. */
  datatype Runner = Runner(
    storage: Option<JourneyState>, runParcel: Option<string>,
    started: JourneyState, executed: seq<Execution>, reports: seq<Report>)

  function Last(state: JourneyState): int {
    if state.lastCompleted.Some? then state.lastCompleted.value else -1
  }

  function NoMatchMessage(steps: seq<Step>, state: JourneyState, path: string): Message {
    var stuck := StuckStep(steps, Last(state), state.section, path);
    if stuck != -1 then Stuck(stuck)
    else if state.section != "" && Last(state) < 0 then NothingRan
    else JourneyComplete
  }

  function StopReason(state: JourneyState, step: Step, index: nat, page: Page): Option<Message> {
    if state.section != "" && step.section != state.section then Some(SectionComplete)
    else if index + 1 >= state.stopAt then Some(Arrived(index))
    else if page.hasErrors then Some(PageErrors)
    else if !step.known then Some(UnknownType)
    else None
  }

  function Say(r: Runner, message: Message, path: string): Runner {
    r.(reports := r.reports + [Report(message, path)])
  }

  function EndRun(r: Runner, message: Message, path: string): Runner {
    Say(r.(storage := None), message, path)
  }

  function Process(steps: seq<Step>, r: Runner, page: Page): Runner {
    if r.storage.None? then r
    else
      var state := r.storage.value;
      var r1 := r.(runParcel := state.parcel);
      var i := FirstMatch(steps, Last(state) + 1, state.section, page.path);
      if i == -1 then EndRun(r1, NoMatchMessage(steps, state, page.path), page.path)
      else
        var stop := StopReason(state, steps[i], i, page);
        if stop.Some? then EndRun(r1, stop.value, page.path)
        else
          var r2 := r1.(storage := Some(state.(lastCompleted := Some(i))),
                        executed := r.executed + [Execution(i, r1.runParcel)]);
          if page.handlerFails then EndRun(r2, StepFailed(i), page.path) else r2
  }

  /** The argument of runJourney: a section, or a step number where 0 stands for none. */
  datatype Argument = Section(name: string) | StopAt(number: int)

  function InitialState(steps: seq<Step>, argument: Argument, parcel: Option<string>): JourneyState {
    match argument
    case Section(name) => JourneyState(|steps| + 1, name, None, parcel)
    case StopAt(number) => JourneyState(if number == 0 then |steps| + 1 else number, "", None, parcel)
  }

  /** Some step carries this section; an untagged step carries none, not even the empty one. */
  predicate HasSection(steps: seq<Step>, name: string) {
    name != "" && exists i :: 0 <= i < |steps| && steps[i].section == name
  }

  function Start(steps: seq<Step>, r: Runner, argument: Argument, parcel: Option<string>, page: Page): Runner {
    if argument.Section? && !HasSection(steps, argument.name)
    then Say(r, NoSuchSection, page.path)
    else
      var state := InitialState(steps, argument, parcel);
      Process(steps, Say(r.(storage := Some(state), started := state, executed := []), Started, page.path), page)
  }

  /** The page script over its session storage. */
  class JourneyPage {
    const steps: seq<Step>
    var storage: Option<JourneyState>
    var runParcel: Option<string>
    ghost var started: JourneyState
    ghost var executed: seq<Execution>
    var reports: seq<Report>

    ghost function Now(): Runner
      reads this
    {
      Runner(storage, runParcel, started, executed, reports)
    }

    constructor (steps: seq<Step>)
      ensures this.steps == steps && storage == None && reports == [] && executed == []
    {
      this.steps := steps;
      storage, runParcel, executed, reports := None, None, [], [];
      started := JourneyState(0, "", None, None);
    }

    method FindCurrentStep(afterIndex: int, section: string, path: string) returns (index: int)
      requires -1 <= afterIndex
      ensures index == FirstMatch(steps, afterIndex + 1, section, path)
    {
      hide Matches;
      var i := afterIndex + 1;
      while i < |steps|
        invariant afterIndex < i
        invariant FirstMatch(steps, afterIndex + 1, section, path) == FirstMatch(steps, i, section, path)
        decreases |steps| - i
      {
        if section != "" && steps[i].section != section {
          i := i + 1;
          continue;
        }
        if Matches(steps[i], path) {
          return i;
        }
        i := i + 1;
      }
      index := -1;
    }

    method Log(message: Message, path: string)
      modifies this`reports
      ensures reports == old(reports) + [Report(message, path)]
    {
      reports := reports + [Report(message, path)];
    }

    method ReportNoMatchingStep(state: JourneyState, path: string)
      modifies this`storage, this`reports
      ensures Now() == EndRun(old(Now()), NoMatchMessage(steps, state, path), path)
    {
      storage := None;
      var stuck := StuckStep(steps, Last(state), state.section, path);
      if stuck != -1 {
        Log(Stuck(stuck), path);
        return;
      }
      if state.section != "" && Last(state) < 0 {
        Log(NothingRan, path);
        return;
      }
      Log(JourneyComplete, path);
    }

    method ProcessCurrentPage(page: Page)
      modifies this
      ensures Now() == Process(steps, old(Now()), page)
    {
      hide FirstMatch, StuckStep;
      if storage.None? {
        return;
      }
      var state := storage.value;
      runParcel := state.parcel;
      var idx := FindCurrentStep(Last(state), state.section, page.path);
      if idx == -1 {
        ReportNoMatchingStep(state, page.path);
        return;
      }
      var step := steps[idx];
      var stop := StopReason(state, step, idx, page);
      if stop.Some? {
        storage := None;
        Log(stop.value, page.path);
        return;
      }
      storage := Some(state.(lastCompleted := Some(idx)));
      executed := executed + [Execution(idx, runParcel)];
      if page.handlerFails {
        FailStep(idx, page.path);
      }
    }

    method FailStep(step: nat, path: string)
      modifies this`storage, this`reports
      ensures Now() == EndRun(old(Now()), StepFailed(step), path)
    {
      storage := None;
      Log(StepFailed(step), path);
    }

    method RunJourney(argument: Argument, parcel: Option<string>, page: Page)
      modifies this
      ensures Now() == Start(steps, old(Now()), argument, parcel, page)
    {
      hide Process;
      if argument.Section? {
        if !HasSection(steps, argument.name) {
          Log(NoSuchSection, page.path);
          return;
        }
      }
      var state := InitialState(steps, argument, parcel);
      Log(Started, page.path);
      storage := Some(state);
      started, executed := state, [];
      ProcessCurrentPage(page);
    }

    method StopJourney(path: string)
      modifies this
      ensures Now() == EndRun(old(Now()), Stopped, path)
    {
      storage := None;
      Log(Stopped, path);
    }
  }

  // ----- runs -----

  /** Page loads in any order, new runs, cancellation, and the late failure of an asynchronous handler. */
  datatype Event =
    | Loaded(page: Page)
    | Ran(argument: Argument, parcel: Option<string>, page: Page)
    | Cancelled(path: string)
    | HandlerRejected(step: nat, path: string)

  function Next(steps: seq<Step>, r: Runner, e: Event): Runner {
    match e
    case Loaded(page) => Process(steps, r, page)
    case Ran(argument, parcel, page) => Start(steps, r, argument, parcel, page)
    case Cancelled(path) => EndRun(r, Stopped, path)
    case HandlerRejected(step, path) => EndRun(r, StepFailed(step), path)
  }

  ghost predicate IsRun(steps: seq<Step>, trace: seq<Runner>, events: seq<Event>) {
    && |trace| == |events| + 1
    && trace[0].storage == None && trace[0].executed == [] && trace[0].reports == []
    && forall k :: 0 <= k < |events| ==> trace[k + 1] == Next(steps, trace[k], events[k])
  }

  ghost predicate Increasing(executed: seq<Execution>) {
    forall i, j :: 0 <= i < j < |executed| ==> executed[i].step < executed[j].step
  }

  /** An executed step lies below the stop number, in the requested section, has a handler, and saw the run's parcel. */
  ghost predicate Allowed(steps: seq<Step>, started: JourneyState, x: Execution) {
    && x.step < |steps| && x.step + 1 < started.stopAt && InSection(steps[x.step], started.section)
    && steps[x.step].known && x.parcel == started.parcel
  }

  function LastExecuted(executed: seq<Execution>): Option<nat> {
    if executed == [] then None else Some(executed[|executed| - 1].step)
  }

  ghost predicate Inv(steps: seq<Step>, r: Runner) {
    && Increasing(r.executed)
    && (forall i :: 0 <= i < |r.executed| ==> Allowed(steps, r.started, r.executed[i]))
    && (r.storage.Some? ==> r.storage.value == r.started.(lastCompleted := LastExecuted(r.executed)))
  }

  lemma ProcessKeepsInv(steps: seq<Step>, r: Runner, page: Page)
    requires Inv(steps, r)
    ensures Inv(steps, Process(steps, r, page))
  {
    hide Matches, FirstMatch;
    if r.storage.Some? {
      FirstMatchIsFirst(steps, Last(r.storage.value) + 1, r.storage.value.section, page.path);
    }
  }

  lemma NextKeepsInv(steps: seq<Step>, r: Runner, e: Event)
    requires Inv(steps, r)
    ensures Inv(steps, Next(steps, r, e))
  {
    hide Process;
    match e
    case Loaded(page) => ProcessKeepsInv(steps, r, page);
    case Ran(argument, parcel, page) =>
      var state := InitialState(steps, argument, parcel);
      ProcessKeepsInv(
        steps, Say(r.(storage := Some(state), started := state, executed := []), Started, page.path), page);
    case Cancelled(_) =>
    case HandlerRejected(_, _) =>
  }

  lemma {:induction false} RunKeepsInv(steps: seq<Step>, trace: seq<Runner>, events: seq<Event>, k: nat)
    requires IsRun(steps, trace, events) && k < |trace|
    ensures Inv(steps, trace[k])
  {
    if k > 0 {
      RunKeepsInv(steps, trace, events, k - 1);
      NextKeepsInv(steps, trace[k - 1], events[k - 1]);
    }
  }

  lemma {:induction false} IncreasingIsShort(executed: seq<Execution>, bound: nat)
    requires Increasing(executed) && forall i :: 0 <= i < |executed| ==> executed[i].step < bound
    ensures |executed| <= bound
  {
    if executed != [] {
      IncreasingIsShort(executed[..|executed| - 1], executed[|executed| - 1].step);
    }
  }

  /** Under any sequence of pages, one run executes its steps in strictly increasing order, none twice and at most one
      each; every executed step is below the stop number, in the requested section, and sees the run's parcel. */
  lemma RunsTerminate(steps: seq<Step>, trace: seq<Runner>, events: seq<Event>, k: nat)
    requires IsRun(steps, trace, events) && k < |trace|
    ensures Increasing(trace[k].executed) && |trace[k].executed| <= |steps|
    ensures forall i :: 0 <= i < |trace[k].executed| ==> Allowed(steps, trace[k].started, trace[k].executed[i])
  {
    RunKeepsInv(steps, trace, events, k);
    IncreasingIsShort(trace[k].executed, |steps|);
  }

  /** A page load either executes one further step of the run or ends it, or nothing is active. */
  lemma EachLoadProgresses(steps: seq<Step>, trace: seq<Runner>, events: seq<Event>, k: nat)
    requires IsRun(steps, trace, events) && k < |events| && events[k].Loaded?
    ensures var before, after := trace[k], trace[k + 1];
            if before.storage.None? then after == before
            else after.storage.None? || |after.executed| == |before.executed| + 1
  {
    hide Matches, FirstMatch;
    RunKeepsInv(steps, trace, events, k);
  }

  /** Where a search for the next step starts: after the last executed step. */
  function LastIndex(executed: seq<Execution>): int {
    if executed == [] then -1 else executed[|executed| - 1].step
  }

  /** What a completed run looks like on the page where it ended. */
  ghost predicate Earned(steps: seq<Step>, r: Runner, path: string) {
    && r.storage.None?
    && (r.started.section != "" ==> r.executed != [])
    && (r.executed != [] ==> LastIndex(r.executed) < |steps| && !Matches(steps[LastIndex(r.executed)], path))
    && forall j :: LastIndex(r.executed) < j < |steps| ==>
         !(InSection(steps[j], r.started.section) && Matches(steps[j], path))
  }

  lemma ProcessEarnsCompletion(steps: seq<Step>, r: Runner, page: Page)
    requires Inv(steps, r)
    ensures var after := Process(steps, r, page);
            |after.reports| > |r.reports| && after.reports[|after.reports| - 1].message == JourneyComplete ==>
              after.reports[|after.reports| - 1].path == page.path && Earned(steps, after, page.path)
    ensures |Process(steps, r, page).reports| == |r.reports| ==> Process(steps, r, page).reports == r.reports
  {
    hide Matches, FirstMatch;
    if r.storage.Some? {
      FirstMatchIsFirst(steps, Last(r.storage.value) + 1, r.storage.value.section, page.path);
    }
  }

  /** Whenever completion is reported, by a page load or by starting a run, no later step of the run matches the
      page, it is not still the page of the last step that ran, and a section run has run at least one step. */
  lemma CompletionIsEarned(steps: seq<Step>, trace: seq<Runner>, events: seq<Event>, k: nat)
    requires IsRun(steps, trace, events) && k < |events| && |trace[k + 1].reports| > |trace[k].reports|
    requires trace[k + 1].reports[|trace[k + 1].reports| - 1].message == JourneyComplete
    ensures Earned(steps, trace[k + 1], trace[k + 1].reports[|trace[k + 1].reports| - 1].path)
  {
    hide Process, Earned;
    RunKeepsInv(steps, trace, events, k);
    match events[k]
    case Loaded(page) => ProcessEarnsCompletion(steps, trace[k], page);
    case Ran(argument, parcel, page) =>
      var state := InitialState(steps, argument, parcel);
      ProcessEarnsCompletion(
        steps, Say(trace[k].(storage := Some(state), started := state, executed := []), Started, page.path), page);
    case Cancelled(_) =>
    case HandlerRejected(_, _) =>
  }

  /** The "section complete" message is never written: the step search already stays inside the section. */
  lemma {:induction false} SectionCompleteIsNeverReported(
    steps: seq<Step>, trace: seq<Runner>, events: seq<Event>, k: nat)
    requires IsRun(steps, trace, events) && k < |trace|
    ensures forall report :: report in trace[k].reports ==> report.message != SectionComplete
  {
    if k > 0 {
      SectionCompleteIsNeverReported(steps, trace, events, k - 1);
      NextNeverSaysSectionComplete(steps, trace[k - 1], events[k - 1]);
    }
  }

  lemma ProcessNeverSaysSectionComplete(steps: seq<Step>, r: Runner, page: Page)
    requires forall report :: report in r.reports ==> report.message != SectionComplete
    ensures forall report :: report in Process(steps, r, page).reports ==> report.message != SectionComplete
  {
    hide Matches, FirstMatch;
    if r.storage.Some? {
      FirstMatchIsFirst(steps, Last(r.storage.value) + 1, r.storage.value.section, page.path);
    }
  }

  lemma NextNeverSaysSectionComplete(steps: seq<Step>, r: Runner, e: Event)
    requires forall report :: report in r.reports ==> report.message != SectionComplete
    ensures forall report :: report in Next(steps, r, e).reports ==> report.message != SectionComplete
  {
    hide Process;
    match e
    case Loaded(page) => ProcessNeverSaysSectionComplete(steps, r, page);
    case Ran(argument, parcel, page) =>
      var state := InitialState(steps, argument, parcel);
      ProcessNeverSaysSectionComplete(
        steps, Say(r.(storage := Some(state), started := state, executed := []), Started, page.path), page);
    case Cancelled(_) =>
    case HandlerRejected(_, _) =>
  }
}
