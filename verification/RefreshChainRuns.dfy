/**
 * Growth chains inside the runs of a page: from a rendered form with units, readable areas and no redisplayed errors,
 * every chain a user opens over-claims nothing, and where it settles the server agrees with the page.
 */
module RefreshChainRuns {
  import opened Common
  import opened RefreshModel
  import opened RefreshRuns
  import opened RefreshProtocol
  import opened RefreshChain
  import opened RefreshServer

  // ----- a sound form stays sound -----

  lemma ReportKeepsSound(b: Box, report: Report, sent: Option<real>, allowGrowth: bool)
    requires SoundBox(b) && SoundReport(report)
    ensures SoundBox(ApplyReport(b, report, sent, allowGrowth))
  {
    hide ValidTyped, MarkUnavailable, ClearUnavailable;
    MarksKeepSound();
  }

  lemma MarksKeepSound()
    ensures forall b :: SoundBox(MarkUnavailable(b)) == SoundBox(b)
    ensures forall b :: SoundBox(ClearUnavailable(b)) == SoundBox(b)
  {
  }

  lemma LoopsKeepSound(b: Box, isTrigger: bool)
    requires SoundBox(b)
    ensures SoundBox(Seed(b)) && SoundBox(Confirm(b)) && SoundBox(RecoverBox(b))
    ensures SoundBox(DisableIfOther(b, isTrigger)) && SoundBox(ToggleBox(b))
  {
  }

  lemma OpeningKeepsSoundForm(form: seq<Box>, trigger: Option<nat>, followUpsLeft: nat)
    requires SoundForm(form)
    ensures SoundForm(OpeningForm(form, trigger, followUpsLeft))
  {
    hide SoundBox, Confirm, DisableIfOther;
    forall i | 0 <= i < |form| ensures SoundBox(OpeningForm(form, trigger, followUpsLeft)[i]) {
      LoopsKeepSound(form[i], false);
      LoopsKeepSound(Confirm(form[i]), trigger == Some(i));
    }
  }

  lemma SettlingKeepsSound(form: seq<Box>, actions: seq<Report>, plan: seq<Planned>)
    requires SoundForm(form) && SoundResponse(actions)
    ensures SoundForm(ApplyResponse(form, actions, plan))
  {
    hide SoundBox, ApplyReport, SentQuantity, OfferedBefore;
    forall i | 0 <= i < |form| ensures SoundBox(ApplyResponse(form, actions, plan)[i]) {
      var report := FindReport(actions, form[i].code);
      FoundReportIsListed(actions, form[i].code);
      if report.Some? {
        ReportKeepsSound(form[i], report.value, SentQuantity(plan, form[i].code), !OfferedBefore(form, actions, i));
      }
    }
  }

  lemma RespondKeepsSound(w: World, id: nat, response: Option<seq<Report>>)
    requires Awaiting(w, id) && SoundForm(w.form)
    requires id == w.requestId && response.Some? ==> SoundResponse(response.value)
    ensures SoundForm(Respond(w, id, response).form)
  {
    hide SoundBox, OpeningForm, ApplyResponse, Grew, Plan, RecoverBox, DisableIfOther, SoundResponse;
    if id == w.requestId {
      var request := w.sent[id - 1];
      if response.None? {
        forall i | 0 <= i < |w.form| ensures SoundBox(Recover(w.form)[i]) {
          LoopsKeepSound(w.form[i], false);
        }
      } else {
        var settled := SettledForm(w, request, response.value);
        SettlingKeepsSound(w.form, response.value, request.plan);
        if request.trigger.Some? {
          forall i | 0 <= i < |settled| ensures SoundBox(DisableOthers(settled, request.trigger.value)[i]) {
            LoopsKeepSound(settled[i], i == request.trigger.value);
          }
        }
        if request.followUpsLeft > 0 {
          OpeningKeepsSoundForm(FollowUpForm(w, request, response.value), request.trigger, request.followUpsLeft - 1);
        }
      }
    }
  }

  /** An answer to the newest request is sound. */
  ghost predicate SoundEvent(w: World, e: Event) {
    e.Responded? && e.id == w.requestId && e.response.Some? ==> SoundResponse(e.response.value)
  }

  lemma StepKeepsSound(w: World, e: Event)
    requires Inv(w) && Enabled(w, e) && SoundForm(w.form) && SoundEvent(w, e)
    ensures SoundForm(Step(w, e).form)
  {
    hide OpeningForm, Plan, Respond, Inv, ToggleBox, SoundBox, ValidTyped;
    match e
    case Toggled(i) =>
      LoopsKeepSound(w.form[i], false);
      OpeningKeepsSoundForm(w.form[i := ToggleBox(w.form[i])], Some(i), MAX_GROWTH_FOLLOW_UPS);
    case Edited(i, text, changed) =>
      EditKeepsSound(w.form[i], text, changed);
    case TimerFired =>
      OpeningKeepsSoundForm(w.form, w.pending, MAX_GROWTH_FOLLOW_UPS);
    case Blurred =>
      OpeningKeepsSoundForm(w.form, w.pending, MAX_GROWTH_FOLLOW_UPS);
    case Responded(id, response) =>
      RespondKeepsSound(w, id, response);
  }

  lemma EditKeepsSound(b: Box, text: Text, changed: bool)
    requires SoundBox(b)
    ensures SoundBox(b.(typed := text, errorOnLoad := b.errorOnLoad && !changed))
  {
  }

  lemma InitKeepsSound(rendered: seq<Box>)
    requires SoundForm(rendered)
    ensures SoundForm(SeedAll(rendered)) && SoundForm(InitPage(rendered).form)
  {
    hide SoundBox, Seed, Plan, OpeningForm;
    forall i | 0 <= i < |rendered| ensures SoundBox(SeedAll(rendered)[i]) {
      LoopsKeepSound(rendered[i], false);
    }
    OpeningKeepsSoundForm(SeedAll(rendered), None, MAX_GROWTH_FOLLOW_UPS);
  }

  /** A run from a sound rendered form whose effective answers are sound. */
  ghost predicate SoundRun(rendered: seq<Box>, trace: seq<World>, events: seq<Event>) {
    && PageRun(rendered, trace, events) && SoundForm(rendered)
    && forall k {:trigger events[k]} :: 0 <= k < |events| ==> SoundEvent(trace[k], events[k])
  }

  /** In every state of such a run the form is sound. */
  lemma {:induction false} RunKeepsSound(rendered: seq<Box>, trace: seq<World>, events: seq<Event>, k: nat)
    requires SoundRun(rendered, trace, events) && k < |trace|
    ensures SoundForm(trace[k].form)
  {
    hide PageRun, InitPage, Step, Enabled, Inv, SoundForm, SoundEvent, Rendered, UniqueCodes;
    RunBegins(rendered, trace, events);
    if k == 0 {
      InitKeepsSound(rendered);
    } else {
      RunKeepsSound(rendered, trace, events, k - 1);
      RunKeepsInv(rendered, trace, events, k - 1);
      RunStep(rendered, trace, events, k - 1);
      assert SoundEvent(trace[k - 1], events[k - 1]);
      StepKeepsSound(trace[k - 1], events[k - 1]);
    }
  }

  // ----- chains of a run -----

  /** State `j` is the one right after a chain was opened, by the page itself or by its user. */
  ghost predicate ChainOpensAt(trace: seq<World>, events: seq<Event>, j: nat) {
    && j < |trace| == |events| + 1
    && if j == 0 then trace[0].sent != [] else !events[j - 1].Responded? && trace[j].sent != trace[j - 1].sent
  }

  lemma OpeningStep(w: World, e: Event)
    requires Inv(w) && Enabled(w, e) && SoundForm(w.form) && !e.Responded? && Step(w, e).sent != w.sent
    ensures ChainReady(Step(w, e))
  {
    hide StartRefresh, RequestInv, UniqueCodes, ChainReady, SoundBox, ToggleBox, ValidTyped, BoxInv, SameAction;
    match e
    case Toggled(i) =>
      var b := ToggleBox(w.form[i]);
      ToggledBoxIsFine(w.form[i]);
      UpdateBoxKeepsForm(w.form, i, b);
      ReplaceForm(w, w.form[i := b]);
      TriggerOpensReadyChain(w.(form := w.form[i := b]), Some(i));
    case TimerFired => TriggerOpensReadyChain(w.(pending := None), w.pending);
    case Blurred => TriggerOpensReadyChain(w.(pending := None), w.pending);
  }

  lemma ToggledBoxIsFine(b: Box)
    requires BoxInv(b) && SoundBox(b) && !b.disabled
    ensures BoxInv(ToggleBox(b)) && SoundBox(ToggleBox(b)) && SameAction(b, ToggleBox(b))
  {
  }

  lemma OpeningPage(rendered: seq<Box>)
    requires UniqueCodes(rendered) && SoundForm(rendered) && InitPage(rendered).sent != []
    requires forall i :: 0 <= i < |rendered| ==> Rendered(rendered[i])
    ensures ChainReady(InitPage(rendered))
  {
    hide StartRefresh, ChainReady, SoundBox, Seed, BoxInv, Rendered, Plan, SameAction;
    var seeded := SeedAll(rendered);
    InitKeepsSound(rendered);
    forall i | 0 <= i < |seeded| ensures BoxInv(seeded[i]) && seeded[i].code == rendered[i].code {
      SeedKeepsBox(rendered[i]);
      SeedKeepsCode(rendered[i]);
    }
    TriggerOpensReadyChain(World(seeded, 0, [], {}, None), None);
  }

  lemma SeedKeepsCode(b: Box)
    ensures Seed(b).code == b.code
  {
  }

  /** Every opened chain of a sound run meets the assumptions of a growth chain. */
  lemma OpenedChainIsReady(rendered: seq<Box>, trace: seq<World>, events: seq<Event>, j: nat)
    requires SoundRun(rendered, trace, events) && ChainOpensAt(trace, events, j)
    ensures ChainReady(trace[j])
  {
    hide PageRun, InitPage, Step, Enabled, Inv, SoundForm, SoundEvent, Rendered, UniqueCodes, ChainReady;
    RunBegins(rendered, trace, events);
    if j == 0 {
      OpeningPage(rendered);
    } else {
      RunKeepsSound(rendered, trace, events, j - 1);
      RunKeepsInv(rendered, trace, events, j - 1);
      RunStep(rendered, trace, events, j - 1);
      OpeningStep(trace[j - 1], events[j - 1]);
    }
  }

  /** From `j` to `k` nothing happens but responses, and answers to a newest request are honest. */
  ghost predicate HonestSegment(
    feasible: map<string, real> -> bool, trace: seq<World>, events: seq<Event>, j: nat, k: nat) {
    && j <= k <= |events| < |trace|
    && forall n :: j <= n < k ==>
         events[n].Responded?
         && (events[n].id == trace[n].requestId && events[n].response.Some? ==>
               Honest(feasible, trace[n].form, events[n].response.value))
  }

  lemma SegmentIsChainRun(
    feasible: map<string, real> -> bool, rendered: seq<Box>, trace: seq<World>, events: seq<Event>, j: nat, k: nat)
    requires SoundRun(rendered, trace, events) && ChainOpensAt(trace, events, j)
    requires HonestSegment(feasible, trace, events, j, k)
    ensures j <= k <= |events| && |trace| == |events| + 1 && ChainRun(feasible, trace[j..k + 1], events[j..k])
  {
    hide PageRun, InitPage, Step, Enabled, Inv, SoundForm, SoundResponse, Honest, Rendered, UniqueCodes, ChainReady;
    OpenedChainIsReady(rendered, trace, events, j);
    RunBegins(rendered, trace, events);
    var worlds, happened := trace[j..k + 1], events[j..k];
    forall n | 0 <= n < |happened|
      ensures Enabled(worlds[n], happened[n]) && worlds[n + 1] == Step(worlds[n], happened[n])
      ensures SoundEvent(worlds[n], happened[n])
    {
      RunStep(rendered, trace, events, j + n);
      assert SoundEvent(trace[j + n], events[j + n]);
    }
    assert IsRun(worlds, happened);
  }

  /** No over-claim in any run: once a chain is opened with a feasible plan, every plan it sends and everything the form
      claims meanwhile is feasible until the user acts again. */
  lemma RunNeverOverClaims(
    feasible: map<string, real> -> bool, rendered: seq<Box>, trace: seq<World>, events: seq<Event>, j: nat, k: nat)
    requires SoundRun(rendered, trace, events) && ChainOpensAt(trace, events, j)
    requires HonestSegment(feasible, trace, events, j, k)
    requires feasible(Claims(Plan(trace[j].form)))
    ensures trace[j].sent != [] && k < |trace| && feasible(Claims(Plan(trace[k].form)))
    ensures forall n :: |trace[j].sent| - 1 <= n < |trace[k].sent| ==> feasible(Claims(trace[k].sent[n].plan))
  {
    hide SoundRun, ChainOpensAt, HonestSegment, ChainReady, ChainRun, Plan, Claims, Inv, Live;
    SegmentIsChainRun(feasible, rendered, trace, events, j, k);
    OpenedChainIsReady(rendered, trace, events, j);
    ReadyPlanIsSent(trace[j]);
    var worlds := trace[j..k + 1];
    assert worlds[0] == trace[j] && worlds[k - j] == trace[k];
    ChainNeverOverClaims(feasible, worlds, events[j..k], k - j);
  }

  lemma ReadyPlanIsSent(w: World)
    requires ChainReady(w)
    ensures |w.sent| == w.requestId > 0 && w.sent[w.requestId - 1].plan == Plan(w.form)
  {
    hide Inv, SoundForm, Live;
  }

  // ----- agreement with the server in a run -----

  ghost predicate OnlyResponses(events: seq<Event>, j: nat, k: nat) {
    j <= k <= |events| && forall n :: j <= n < k ==> events[n].Responded?
  }

  lemma OpeningFits(trace: seq<World>, events: seq<Event>, j: nat)
    requires ChainOpensAt(trace, events, j)
    ensures j < |trace| == |events| + 1
  {
  }

  lemma ResponsesAreHonest(
    anything: map<string, real> -> bool, trace: seq<World>, events: seq<Event>, j: nat, k: nat)
    requires (forall claims :: anything(claims)) && OnlyResponses(events, j, k) && |events| < |trace|
    ensures HonestSegment(anything, trace, events, j, k)
  {
  }

  lemma LiveChainIsReady(rendered: seq<Box>, trace: seq<World>, events: seq<Event>, j: nat, k: nat)
    requires SoundRun(rendered, trace, events) && ChainOpensAt(trace, events, j) && OnlyResponses(events, j, k)
    ensures k < |trace| && (Live(trace[k]) ==> ChainReady(trace[k]))
  {
    hide SoundRun, ChainOpensAt, HonestSegment, ChainReady, ChainRun, OnlyResponses, Plan, Claims, Inv, Live;
    var anything := (claims: map<string, real>) => true;
    OpeningFits(trace, events, j);
    ResponsesAreHonest(anything, trace, events, j, k);
    SegmentIsChainRun(anything, rendered, trace, events, j, k);
    var worlds := trace[j..k + 1];
    assert worlds[k - j] == trace[k];
    ChainNeverOverClaims(anything, worlds, events[j..k], k - j);
  }

  lemma {:induction false} QuietAfterSettling(
    rendered: seq<Box>, trace: seq<World>, events: seq<Event>, k: nat, l: nat)
    requires PageRun(rendered, trace, events) && k <= l < |trace| && OnlyResponses(events, k, l) && !Live(trace[k])
    ensures trace[l].form == trace[k].form && !Live(trace[l])
    decreases l - k
  {
    hide PageRun, StartRefresh, Recover, Continues, SettledForm;
    if k < l {
      QuietAfterSettling(rendered, trace, events, k, l - 1);
      RunStep(rendered, trace, events, l - 1);
      assert events[l - 1].Responded?;
      StaleResponseIsInert(trace[l - 1], events[l - 1].id, events[l - 1].response);
    }
  }

  /** Client and server agree in every run: if the newest request of an opened chain gets a covering response and
      the chain settles, then whenever the form is posted before the user acts again, the plan the server rebuilds
      claims the same codes and quantities as the page's own. */
  lemma RunAgreesWithServer(
    rendered: seq<Box>, trace: seq<World>, events: seq<Event>, actions: seq<ServerAction>, j: nat, k: nat, l: nat)
    requires SoundRun(rendered, trace, events) && ChainOpensAt(trace, events, j)
    requires j <= k < l <= |events| && OnlyResponses(events, j, l)
    requires events[k].id == trace[k].requestId && events[k].response.Some? && !Live(trace[k + 1])
    requires forall i :: 0 <= i < |trace[k].form| ==> Covers(trace[k].form[i], events[k].response.value)
    requires Renders(actions, rendered)
    ensures Claims(PlanFromFields(Post(trace[l].form), actions)) == Claims(Plan(trace[l].form))
  {
    hide Plan, Claims, PlanFromFields, Post, Respond, PageRun, Renders, Inv, SoundResponse, SameActions, Covers;
    LiveChainIsReady(rendered, trace, events, j, k);
    RunStep(rendered, trace, events, k);
    assert SoundEvent(trace[k], events[k]);
    RunKeepsInv(rendered, trace, events, k + 1);
    RenderedForAll(actions, rendered, trace[k + 1].form);
    SettledChainAgrees(trace[k], events[k].response.value, actions);
    QuietAfterSettling(rendered, trace, events, k + 1, l);
  }

  lemma RenderedForAll(actions: seq<ServerAction>, rendered: seq<Box>, form: seq<Box>)
    requires Renders(actions, rendered) && SameActions(rendered, form)
    ensures Renders(actions, form)
  {
    assert forall i :: 0 <= i < |form| ==> SameAction(rendered[i], form[i]);
  }
}
