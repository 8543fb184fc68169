/** What the journey runner does on the pages it was written for: matching of page addresses, and complete runs. */
module JourneyWalk {
  import opened Common
  import opened Strings
  import opened JourneyRunner

  // ----- page addresses -----

  /** One segment of an address. */
  predicate Segment(s: string) {
    s != "" && '/' !in s
  }

  lemma TwoSegments(form: string, page: string)
    requires Segment(form) && Segment(page)
    ensures PagePath("/" + form + "/" + page) == "/" + page
  {
    hide Split, SplitAll;
    var fields := ["", form, page];
    SplitOfJoin(fields, '/');
    SplitAllWithout(fields, '/');
    JoinOfTwo(form, page, '/');
    assert fields[1..] == [form, page];
    assert Join(fields, '/') == "/" + form + "/" + page;
    NonEmptyTail(form, [page]);
    NonEmptyTail(page, []);
    assert NonEmpty(fields) == NonEmpty([form, page]);
    assert [form, page][1..] == [page];
  }

  lemma NonEmptyTail(s: string, rest: seq<string>)
    requires s != ""
    ensures NonEmpty([s] + rest) == [s] + NonEmpty(rest)
  {
    assert ([s] + rest)[1..] == rest;
  }

  lemma ThreeSegments(form: string, slug: string, item: string)
    requires Segment(form) && Segment(slug) && Segment(item)
    ensures PagePath("/" + form + "/" + slug + "/" + item) == "/" + slug + "/" + item
  {
    hide Split, SplitAll;
    var fields := ["", form, slug, item];
    SplitOfJoin(fields, '/');
    SplitAllWithout(fields, '/');
    JoinOfTwo(slug, item, '/');
    assert fields[1..] == [form, slug, item] && [form, slug, item][1..] == [slug, item];
    assert Join(fields[1..], '/') == form + "/" + (slug + "/" + item);
    assert Join(fields, '/') == "/" + form + "/" + slug + "/" + item;
    NonEmptyTail(form, [slug, item]);
    NonEmptyTail(slug, [item]);
    NonEmptyTail(item, []);
    assert [slug] + [item] == [slug, item] && [form] + [slug, item] == [form, slug, item];
    assert NonEmpty(fields) == [form, slug, item];
  }

  /** An ordinary step matches its own page under any form, and no other page of that depth. */
  lemma StepMatchesItsPage(step: Step, form: string, page: string)
    requires !step.prefixMode && Segment(form) && Segment(page)
    ensures Matches(step, "/" + form + "/" + page) <==> page == step.slug
  {
    TwoSegments(form, page);
    assert ("/" + page)[1..] == page && ("/" + step.slug)[1..] == step.slug;
  }

  /** A repeated step matches its item pages, those named by 36 hexadecimal digits and hyphens, and not the summary page
      beside them. */
  lemma StepMatchesItsItems(step: Step, form: string, item: string)
    requires step.prefixMode && Segment(form) && Segment(step.slug) && Segment(item)
    ensures Matches(step, "/" + form + "/" + step.slug + "/" + item) <==>
            && |item| == 36
            && forall c :: c in item ==> '0' <= c <= '9' || 'a' <= c <= 'f' || 'A' <= c <= 'F' || c == '-'
    ensures !Matches(step, "/" + form + "/" + step.slug + "/summary")
  {
    ThreeSegments(form, step.slug, item);
    ThreeSegments(form, step.slug, "summary");
    var prefix := "/" + step.slug + "/";
    assert "/" + form + "/" + step.slug + "/summary" == "/" + form + "/" + step.slug + "/" + "summary";
    assert "/" + step.slug + "/" + item == prefix + item && (prefix + item)[|prefix|..] == item;
    assert "/" + step.slug + "/summary" == prefix + "summary" && (prefix + "summary")[|prefix|..] == "summary";
  }

  // ----- one page load -----

  /** The step a page load would run: the first later step of the section that matches the page. */
  ghost predicate IsNextStep(steps: seq<Step>, state: JourneyState, page: Page, i: nat) {
    && Last(state) < i < |steps| && InSection(steps[i], state.section) && Matches(steps[i], page.path)
    && forall j :: Last(state) < j < i ==> !(InSection(steps[j], state.section) && Matches(steps[j], page.path))
  }

  lemma NextStepIsFound(steps: seq<Step>, state: JourneyState, page: Page, i: nat)
    requires IsNextStep(steps, state, page, i)
    ensures FirstMatch(steps, Last(state) + 1, state.section, page.path) == i
  {
    hide Matches;
    FirstMatchIsFirst(steps, Last(state) + 1, state.section, page.path);
  }

  /** A page load runs step `i` exactly when it is the next step, lies below the stop number, has a handler, and the
      page shows no errors; the run then goes on unless the handler fails. */
  lemma LoadRunsStep(steps: seq<Step>, r: Runner, page: Page, i: nat)
    requires r.storage.Some?
    ensures var state, after := r.storage.value, Process(steps, r, page);
            && (after.executed == r.executed + [Execution(i, state.parcel)]
                <==> RunsStep(steps, state, page, i))
            && (RunsStep(steps, state, page, i) ==>
                  after.storage == if page.handlerFails then None else Some(state.(lastCompleted := Some(i))))
  {
    hide Matches, FirstMatch;
    var state, after := r.storage.value, Process(steps, r, page);
    FirstMatchIsFirst(steps, Last(state) + 1, state.section, page.path);
    assert (r.executed + [Execution(i, state.parcel)])[|r.executed|] == Execution(i, state.parcel);
  }

  ghost predicate RunsStep(steps: seq<Step>, state: JourneyState, page: Page, i: nat) {
    IsNextStep(steps, state, page, i) && i + 1 < state.stopAt && steps[i].known && !page.hasErrors
  }

  // ----- refused runs -----

  function RunAll(steps: seq<Step>, r: Runner, events: seq<Event>): Runner {
    if events == [] then r else Next(steps, RunAll(steps, r, events[..|events| - 1]), events[|events| - 1])
  }

  /** What `r` has reported beyond the first `n` lines. */
  function Since(r: Runner, n: nat): seq<Report>
    requires n <= |r.reports|
  {
    r.reports[n..]
  }

  /** `after`, reached from `r`, is what `after'` is when the earlier lines are `earlier` instead. */
  predicate SameUpToReports(r: Runner, earlier: seq<Report>, after: Runner, after': Runner) {
    r.reports <= after.reports && after' == after.(reports := earlier + Since(after, |r.reports|))
  }

  lemma ProcessIgnoresReports(steps: seq<Step>, r: Runner, earlier: seq<Report>, page: Page)
    ensures SameUpToReports(r, earlier, Process(steps, r, page), Process(steps, r.(reports := earlier), page))
  {
    hide FirstMatch, NoMatchMessage, StopReason;
  }

  lemma NextIgnoresReports(steps: seq<Step>, r: Runner, earlier: seq<Report>, e: Event)
    ensures SameUpToReports(r, earlier, Next(steps, r, e), Next(steps, r.(reports := earlier), e))
  {
    hide Process, HasSection;
    match e
    case Loaded(page) => ProcessIgnoresReports(steps, r, earlier, page);
    case Ran(argument, parcel, page) =>
      var state := InitialState(steps, argument, parcel);
      var ready := r.(storage := Some(state), started := state, executed := []);
      var line := [Report(Started, page.path)];
      ProcessIgnoresReports(steps, ready.(reports := r.reports + line), earlier + line, page);
    case Cancelled(_) =>
    case HandlerRejected(_, _) =>
  }

  lemma {:induction false} RunIgnoresReports(steps: seq<Step>, r: Runner, earlier: seq<Report>, events: seq<Event>)
    ensures SameUpToReports(r, earlier, RunAll(steps, r, events), RunAll(steps, r.(reports := earlier), events))
  {
    hide Next;
    if events != [] {
      var init, last := events[..|events| - 1], events[|events| - 1];
      RunIgnoresReports(steps, r, earlier, init);
      var before := RunAll(steps, r, init);
      NextIgnoresReports(steps, before, earlier + Since(before, |r.reports|), last);
      assert Since(RunAll(steps, r, events), |r.reports|)
          == Since(before, |r.reports|) + Since(Next(steps, before, last), |before.reports|);
    }
  }

  /** Asking for a section that no step has leaves one line and no other trace: whatever happens afterwards, the runner
      goes on exactly as if the request had not been made, an active run included. */
  lemma UnknownSectionIsForgotten(
    steps: seq<Step>, r: Runner, name: string, parcel: Option<string>, page: Page, events: seq<Event>)
    requires name == "" || forall i :: 0 <= i < |steps| ==> steps[i].section != name
    ensures var asked := RunAll(steps, Next(steps, r, Ran(Section(name), parcel, page)), events);
            var unasked := RunAll(steps, r, events);
            && r.reports <= unasked.reports
            && asked == unasked.(reports :=
                 r.reports + [Report(NoSuchSection, page.path)] + Since(unasked, |r.reports|))
  {
    RunIgnoresReports(steps, r, r.reports + [Report(NoSuchSection, page.path)], events);
  }

  // ----- whole runs -----

  function LoadAll(steps: seq<Step>, r: Runner, pages: seq<Page>): Runner
    decreases |pages|
  {
    if pages == [] then r else LoadAll(steps, Process(steps, r, pages[0]), pages[1..])
  }

  /** The position of the first step of the section from `from` on. */
  function NextIn(steps: seq<Step>, from: nat, section: string): (i: nat)
    requires from <= |steps|
    ensures from <= i <= |steps| && (i < |steps| ==> InSection(steps[i], section))
    ensures forall j :: from <= j < i ==> !InSection(steps[j], section)
    decreases |steps| - from
  {
    if from == |steps| || InSection(steps[from], section) then from else NextIn(steps, from + 1, section)
  }

  /** All steps of the section from `from` on. */
  function StepsOf(steps: seq<Step>, from: nat, section: string): seq<nat>
    requires from <= |steps|
    decreases |steps| - from
  {
    var i := NextIn(steps, from, section);
    if i == |steps| then [] else [i] + StepsOf(steps, i + 1, section)
  }

  /** A faultless visit of the page of a step. */
  predicate Serves(step: Step, page: Page) {
    Matches(step, page.path) && step.known && !page.hasErrors && !page.handlerFails
  }

  /** The pages are those of the given steps, in order. */
  ghost predicate ServesAll(steps: seq<Step>, path: seq<nat>, pages: seq<Page>) {
    |pages| == |path| && forall k :: 0 <= k < |path| ==> path[k] < |steps| && Serves(steps[path[k]], pages[k])
  }

  function Executions(path: seq<nat>, parcel: Option<string>): seq<Execution> {
    if path == [] then [] else [Execution(path[0], parcel)] + Executions(path[1..], parcel)
  }

  lemma NextInIsNext(steps: seq<Step>, state: JourneyState, page: Page)
    requires -1 <= Last(state) < |steps|
    requires NextIn(steps, Last(state) + 1, state.section) < |steps|
    requires Matches(steps[NextIn(steps, Last(state) + 1, state.section)], page.path)
    ensures IsNextStep(steps, state, page, NextIn(steps, Last(state) + 1, state.section))
  {
    hide Matches, NextIn, InSection;
  }

  lemma NextPageRuns(steps: seq<Step>, r: Runner, page: Page)
    requires r.storage.Some? && Last(r.storage.value) < |steps| < r.storage.value.stopAt
    requires var i := NextIn(steps, Last(r.storage.value) + 1, r.storage.value.section);
             i < |steps| && Serves(steps[i], page)
    ensures var state := r.storage.value;
            var i := NextIn(steps, Last(state) + 1, state.section);
            Process(steps, r, page)
            == r.(runParcel := state.parcel, storage := Some(state.(lastCompleted := Some(i))),
                  executed := r.executed + [Execution(i, state.parcel)])
  {
    hide Matches, FirstMatch, NextIn, IsNextStep, NoMatchMessage, StepsOf;
    var state := r.storage.value;
    NextInIsNext(steps, state, page);
    NextStepIsFound(steps, state, page, NextIn(steps, Last(state) + 1, state.section));
  }

  lemma ServesTail(steps: seq<Step>, path: seq<nat>, pages: seq<Page>)
    requires ServesAll(steps, path, pages) && path != []
    ensures path[0] < |steps| && Serves(steps[path[0]], pages[0]) && ServesAll(steps, path[1..], pages[1..])
  {
    hide Serves;
  }

  lemma StepsOfTail(steps: seq<Step>, from: nat, section: string)
    requires from <= |steps|
    ensures var path, i := StepsOf(steps, from, section), NextIn(steps, from, section);
            if i == |steps| then path == []
            else path != [] && path[0] == i && path[1..] == StepsOf(steps, i + 1, section)
                 && (path[1..] != [] ==> path[1..][|path| - 2] == path[|path| - 1])
  {
  }

  lemma ExecutionsTail(before: seq<Execution>, path: seq<nat>, parcel: Option<string>)
    requires path != []
    ensures before + Executions(path, parcel) == before + [Execution(path[0], parcel)] + Executions(path[1..], parcel)
  {
  }

  /** From a state of the run, the pages of all remaining steps of the section execute exactly these steps. */
  lemma {:induction false} RemainingStepsRun(steps: seq<Step>, r: Runner, pages: seq<Page>)
    requires r.storage.Some? && Last(r.storage.value) < |steps| < r.storage.value.stopAt
    requires ServesAll(steps, StepsOf(steps, Last(r.storage.value) + 1, r.storage.value.section), pages)
    ensures var state, after := r.storage.value, LoadAll(steps, r, pages);
            var path := StepsOf(steps, Last(state) + 1, state.section);
            && after.executed == r.executed + Executions(path, state.parcel) && after.reports == r.reports
            && after.storage == Some(if path == [] then state else state.(lastCompleted := Some(path[|path| - 1])))
    decreases |pages|
  {
    hide Process, StepsOf, NextIn, Serves;
    var state := r.storage.value;
    var path := StepsOf(steps, Last(state) + 1, state.section);
    StepsOfTail(steps, Last(state) + 1, state.section);
    if path != [] {
      ServesTail(steps, path, pages);
      NextPageRuns(steps, r, pages[0]);
      RemainingStepsRun(steps, Process(steps, r, pages[0]), pages[1..]);
      ExecutionsTail(r.executed, path, state.parcel);
    }
  }

  /** A run of a section, or of everything, over the pages of its steps in order executes exactly its steps, each
      with the run's parcel, and the page after them, unless it is still the last step's, completes the journey. */
  lemma WholeRunCompletes(
    steps: seq<Step>, r: Runner, argument: Argument, parcel: Option<string>, pages: seq<Page>, end: Page)
    requires argument == StopAt(0) || (argument.Section? && argument.name != "")
    requires var path := StepsOf(steps, 0, if argument.Section? then argument.name else "");
             path != [] && ServesAll(steps, path, pages) && !Matches(steps[path[|path| - 1]], end.path)
    ensures var path := StepsOf(steps, 0, if argument.Section? then argument.name else "");
            var started := Start(steps, r, argument, parcel, pages[0]);
            var after := LoadAll(steps, started, pages[1..]);
            && after.executed == Executions(path, parcel) && after.storage.Some?
            && var ended := Process(steps, after, end);
               ended.storage.None? && ended.executed == after.executed
               && ended.reports == after.reports + [Report(JourneyComplete, end.path)]
  {
    hide Matches, FirstMatch, Process;
    var section := if argument.Section? then argument.name else "";
    var path := StepsOf(steps, 0, section);
    var state := InitialState(steps, argument, parcel);
    var ready := Say(r.(storage := Some(state), started := state, executed := []), Started, pages[0].path);
    assert steps[path[0]].section == section || section == "";
    assert Start(steps, r, argument, parcel, pages[0]) == Process(steps, ready, pages[0]);
    RemainingStepsRun(steps, ready, pages);
    StepsOfAreOrdered(steps, 0, section);
    CompletesAfter(steps, LoadAll(steps, ready, pages), end);
  }

  lemma {:induction false} StepsOfAreOrdered(steps: seq<Step>, from: nat, section: string)
    requires from <= |steps|
    ensures forall k :: 0 <= k < |StepsOf(steps, from, section)| ==>
              from <= StepsOf(steps, from, section)[k] < |steps|
              && InSection(steps[StepsOf(steps, from, section)[k]], section)
    ensures var path := StepsOf(steps, from, section);
            path != [] ==> forall j :: path[|path| - 1] < j < |steps| ==> !InSection(steps[j], section)
    decreases |steps| - from
  {
    var i := NextIn(steps, from, section);
    if i < |steps| {
      StepsOfAreOrdered(steps, i + 1, section);
    }
  }

  lemma CompletesAfter(steps: seq<Step>, r: Runner, end: Page)
    requires r.storage.Some? && r.storage.value.lastCompleted.Some?
    requires var last := r.storage.value.lastCompleted.value;
             && last < |steps| && !Matches(steps[last], end.path)
             && forall j :: last < j < |steps| ==> !InSection(steps[j], r.storage.value.section)
    ensures var ended := Process(steps, r, end);
            ended.storage.None? && ended.executed == r.executed
            && ended.reports == r.reports + [Report(JourneyComplete, end.path)]
  {
    hide Matches, FirstMatch;
    FirstMatchIsFirst(steps, Last(r.storage.value) + 1, r.storage.value.section, end.path);
  }

  // ----- runs as they were asked for -----

  /** The event starts a run. */
  predicate Accepts(steps: seq<Step>, e: Event) {
    e.Ran? && (e.argument.StopAt? || HasSection(steps, e.argument.name))
  }

  /** Before event `k` the latest run is the one started by event `j`. */
  ghost predicate RunOf(steps: seq<Step>, events: seq<Event>, j: nat, k: nat) {
    && j < k <= |events| && Accepts(steps, events[j])
    && forall n :: j < n < k ==> !Accepts(steps, events[n])
  }

  lemma OnlyAcceptedRunsStart(steps: seq<Step>, r: Runner, e: Event)
    ensures !Accepts(steps, e) ==> Next(steps, r, e).started == r.started
    ensures Accepts(steps, e) ==> Next(steps, r, e).started == InitialState(steps, e.argument, e.parcel)
  {
    hide FirstMatch, NoMatchMessage, StopReason, InitialState, HasSection;
  }

  lemma {:induction false} StartedAsAsked(
    steps: seq<Step>, trace: seq<Runner>, events: seq<Event>, j: nat, k: nat)
    requires IsRun(steps, trace, events) && RunOf(steps, events, j, k)
    ensures k < |trace| && trace[k].started == InitialState(steps, events[j].argument, events[j].parcel)
    decreases k
  {
    hide Next, Accepts, InitialState;
    OnlyAcceptedRunsStart(steps, trace[k - 1], events[k - 1]);
    assert trace[k] == Next(steps, trace[k - 1], events[k - 1]);
    if k > j + 1 {
      StartedAsAsked(steps, trace, events, j, k - 1);
    }
  }

  /** In every run, whatever pages come: each executed step lies below the stop number asked for, carries the
      section asked for, and saw the parcel asked for. */
  lemma ExecutedAsAsked(steps: seq<Step>, trace: seq<Runner>, events: seq<Event>, j: nat, k: nat, x: Execution)
    requires IsRun(steps, trace, events) && RunOf(steps, events, j, k) && k < |trace| && x in trace[k].executed
    ensures x.step < |steps| && x.parcel == events[j].parcel
    ensures match events[j].argument
            case StopAt(number) => number == 0 || x.step + 1 < number
            case Section(name) => steps[x.step].section == name
  {
    StartedAsAsked(steps, trace, events, j, k);
    RunKeepsInv(steps, trace, events, k);
    var i :| 0 <= i < |trace[k].executed| && trace[k].executed[i] == x;
    assert Allowed(steps, trace[k].started, trace[k].executed[i]);
  }

  /** Step `i` is the next one on this page: the first after the last executed one, in the section asked for, that
      matches it. */
  ghost predicate IsNextOn(steps: seq<Step>, argument: Argument, executed: seq<Execution>, path: string, i: nat) {
    && LastIndex(executed) < i < |steps| && Concerns(steps[i], argument) && Matches(steps[i], path)
    && forall j :: LastIndex(executed) < j < i ==> !(Concerns(steps[j], argument) && Matches(steps[j], path))
  }

  predicate Concerns(step: Step, argument: Argument) {
    argument.StopAt? || step.section == argument.name
  }

  predicate StopsBefore(argument: Argument, i: nat) {
    argument.StopAt? && argument.number != 0 && i + 1 >= argument.number
  }

  /** The run ends on this page with this message. */
  predicate EndsWith(before: Runner, message: Message, path: string, after: Runner) {
    after.storage.None? && after.reports == before.reports + [Report(message, path)]
  }

  predicate EndsUnrun(before: Runner, message: Message, path: string, after: Runner) {
    EndsWith(before, message, path, after) && after.executed == before.executed
  }

  /** What a page does to the run asked for. With a next step: arrive if it is not below the stop number, refuse a
      page with errors or a step without handler, or else execute it, ending only if it fails. Without one: stuck if
      the page is still that of the last executed step, nothing ran if a section run has executed nothing, complete
      otherwise. */
  ghost predicate Explained(
    steps: seq<Step>, argument: Argument, parcel: Option<string>, before: Runner, page: Page, after: Runner) {
    && (forall i: nat :: IsNextOn(steps, argument, before.executed, page.path, i) ==>
          if StopsBefore(argument, i) then EndsUnrun(before, Arrived(i), page.path, after)
          else if page.hasErrors then EndsUnrun(before, PageErrors, page.path, after)
          else if !steps[i].known then EndsUnrun(before, UnknownType, page.path, after)
          else
            && after.executed == before.executed + [Execution(i, parcel)]
            && if page.handlerFails then EndsWith(before, StepFailed(i), page.path, after)
               else after.storage.Some? && after.reports == before.reports)
    && ((forall i: nat :: !IsNextOn(steps, argument, before.executed, page.path, i)) ==>
          var last := LastIndex(before.executed);
          if 0 <= last < |steps| && Matches(steps[last], page.path)
          then EndsUnrun(before, Stuck(last), page.path, after)
          else if argument.Section? && before.executed == [] then EndsUnrun(before, NothingRan, page.path, after)
          else EndsUnrun(before, JourneyComplete, page.path, after))
  }

  lemma ProcessIsExplained(
    steps: seq<Step>, argument: Argument, parcel: Option<string>, r: Runner, page: Page)
    requires argument.StopAt? || HasSection(steps, argument.name)
    requires Inv(steps, r) && r.started == InitialState(steps, argument, parcel) && r.storage.Some?
    ensures Explained(steps, argument, parcel, r, page, Process(steps, r, page))
  {
    hide Matches, FirstMatch;
    var state := r.storage.value;
    assert Last(state) == LastIndex(r.executed);
    FirstMatchIsFirst(steps, Last(state) + 1, state.section, page.path);
    var found := FirstMatch(steps, Last(state) + 1, state.section, page.path);
    if found != -1 {
      assert IsNextOn(steps, argument, r.executed, page.path, found);
      forall i: nat | IsNextOn(steps, argument, r.executed, page.path, i) ensures i == found {
      }
    }
    if r.executed != [] {
      assert Allowed(steps, r.started, r.executed[|r.executed| - 1]);
    }
  }

  /** Every load of a page during a run is explained by what was asked for and what has been executed. */
  lemma LoadIsExplained(steps: seq<Step>, trace: seq<Runner>, events: seq<Event>, j: nat, k: nat)
    requires IsRun(steps, trace, events) && RunOf(steps, events, j, k) && k < |events|
    requires events[k].Loaded? && trace[k].storage.Some?
    ensures Explained(steps, events[j].argument, events[j].parcel, trace[k], events[k].page, trace[k + 1])
  {
    hide Process, Explained, Inv, InitialState;
    StartedAsAsked(steps, trace, events, j, k);
    RunKeepsInv(steps, trace, events, k);
    ProcessIsExplained(steps, events[j].argument, events[j].parcel, trace[k], events[k].page);
  }

  /** So is the page on which a run is started, after the line that says so. */
  lemma StartIsExplained(steps: seq<Step>, trace: seq<Runner>, events: seq<Event>, k: nat)
    requires IsRun(steps, trace, events) && k < |events| && Accepts(steps, events[k])
    ensures var e := events[k];
            var before := trace[k].(executed := [], reports := trace[k].reports + [Report(Started, e.page.path)]);
            Explained(steps, e.argument, e.parcel, before, e.page, trace[k + 1])
  {
    hide Process, Explained, HasSection;
    var e := events[k];
    var state := InitialState(steps, e.argument, e.parcel);
    var ready := Say(trace[k].(storage := Some(state), started := state, executed := []), Started, e.page.path);
    assert trace[k + 1] == Next(steps, trace[k], e) == Process(steps, ready, e.page);
    ProcessIsExplained(steps, e.argument, e.parcel, ready, e.page);
    ExplainedBySameLines(steps, e.argument, e.parcel, ready,
                         trace[k].(executed := [], reports := trace[k].reports + [Report(Started, e.page.path)]),
                         e.page, trace[k + 1]);
  }

  lemma ExplainedBySameLines(
    steps: seq<Step>, argument: Argument, parcel: Option<string>, r: Runner, r': Runner, page: Page, after: Runner)
    requires Explained(steps, argument, parcel, r, page, after) && r'.executed == r.executed && r'.reports == r.reports
    ensures Explained(steps, argument, parcel, r', page, after)
  {
    hide Matches, IsNextOn;
  }
}
