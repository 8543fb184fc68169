/** What every run of the refresher keeps, and what it cannot do. */
module RefreshRuns {
  import opened Common
  import opened RefreshModel

  // ----- the invariant -----

  ghost predicate BoxInv(b: Box) {
    && (b.message ==> !b.checked && b.disabled && b.typed == Blank && ChosenArea(b).None?)
    && (b.errorOnLoad ==> b.checked && !b.disabled)
    && b.inputDisabled == (b.isQuantity && b.disabled)
    && (b.isQuantity && b.chosen.Some? ==> b.checked && ValidQuantity(b.total, b.chosen.value))
    && (!b.isQuantity ==> b.typed == Blank)
    && (!b.isQuantity && !b.checked ==> ChosenArea(b).None?)
  }

  /** The server renders every control enabled and without client data, and no chosen area for an unchecked action. */
  ghost predicate Rendered(b: Box) {
    && !b.disabled && !b.inputDisabled && !b.message && b.chosen.None? && b.live.None?
    && (b.errorOnLoad ==> b.checked)
    && (!b.isQuantity ==> b.typed == Blank)
    && (!b.isQuantity && !b.checked ==> ChosenArea(b).None?)
  }

  ghost predicate UniqueCodes(form: seq<Box>) {
    forall i, j :: 0 <= i < j < |form| ==> form[i].code != form[j].code
  }

  predicate SameAction(a: Box, b: Box) {
    a.code == b.code && a.isQuantity == b.isQuantity && a.total == b.total
  }

  ghost predicate SameActions(f: seq<Box>, g: seq<Box>) {
    |f| == |g| && forall i :: 0 <= i < |f| ==> SameAction(f[i], g[i])
  }

  ghost predicate FormInv(form: seq<Box>) {
    UniqueCodes(form) && forall i :: 0 <= i < |form| ==> BoxInv(form[i])
  }

  /** Every quantity a plan claims for a quantity action is one that action allows. */
  ghost predicate ValidPlan(form: seq<Box>, plan: seq<Planned>) {
    forall i :: 0 <= i < |form| && form[i].isQuantity && SentQuantity(plan, form[i].code).Some? ==>
      ValidQuantity(form[i].total, SentQuantity(plan, form[i].code).value)
  }

  /** A chain is the run of consecutive requests that starts at its root. */
  ghost predicate RequestInv(form: seq<Box>, r: Request, id: nat) {
    && r.id == id
    && 0 < r.root <= id
    && r.followUpsLeft <= MAX_GROWTH_FOLLOW_UPS
    && id == r.root + MAX_GROWTH_FOLLOW_UPS - r.followUpsLeft
    && (r.trigger.Some? ==> r.trigger.value < |form|)
    && ValidPlan(form, r.plan)
  }

  ghost predicate Inv(w: World) {
    && FormInv(w.form)
    && |w.sent| == w.requestId
    && (forall k :: 0 <= k < |w.sent| ==> RequestInv(w.form, w.sent[k], k + 1))
    && (forall j, k :: 0 <= j <= k < |w.sent| ==> w.sent[j].root <= w.sent[k].root)
    && (forall id :: id in w.answered ==> 0 < id <= w.requestId)
    && (w.pending.Some? ==> w.pending.value < |w.form|)
  }

  // ----- plans -----

  lemma {:induction false} UnplannedCode(form: seq<Box>, code: string)
    requires forall i :: 0 <= i < |form| ==> form[i].code != code
    ensures SentQuantity(Plan(form), code).None?
  {
    if form != [] {
      var init, last := form[..|form| - 1], form[|form| - 1];
      UnplannedCode(init, code);
      if Entry(last).Some? {
        assert Plan(form)[..|Plan(form)| - 1] == Plan(init);
      } else {
        assert Plan(form) == Plan(init);
      }
    }
  }

  /** A plan claims for each action what its checkbox claims, and nothing for an action without a claim. */
  lemma {:induction false} PlanSendsClaims(form: seq<Box>, i: nat)
    requires UniqueCodes(form) && i < |form|
    ensures SentQuantity(Plan(form), form[i].code) == (if Entry(form[i]).Some? then Claim(form[i]) else None)
  {
    var init, last := form[..|form| - 1], form[|form| - 1];
    if Entry(last).Some? {
      assert Plan(form)[..|Plan(form)| - 1] == Plan(init);
    } else {
      assert Plan(form) == Plan(init);
    }
    if i < |form| - 1 {
      PlanSendsClaims(init, i);
    } else {
      UnplannedCode(init, last.code);
    }
  }

  /** A plan lists exactly the checked actions with a claim and a unit, each with that claim and unit. */
  lemma {:induction false} PlanEntries(form: seq<Box>, p: Planned)
    ensures p in Plan(form) <==>
            exists i :: 0 <= i < |form| && form[i].checked && form[i].unit != "" && p.code == form[i].code
                        && Claim(form[i]) == Some(p.quantity) && p.unit == form[i].unit
  {
    hide Claim;
    if form != [] {
      var init := form[..|form| - 1];
      PlanEntries(init, p);
      assert forall i :: 0 <= i < |init| ==> init[i] == form[i];
    }
  }

  lemma PlansAreValid(form: seq<Box>)
    requires FormInv(form)
    ensures ValidPlan(form, Plan(form))
  {
    forall i | 0 <= i < |form| && form[i].isQuantity && SentQuantity(Plan(form), form[i].code).Some?
      ensures ValidQuantity(form[i].total, SentQuantity(Plan(form), form[i].code).value)
    {
      PlanSendsClaims(form, i);
    }
  }

  // ----- one checkbox -----

  lemma ReportKeepsBox(b: Box, report: Report, sent: Option<real>, allowGrowth: bool)
    requires BoxInv(b)
    requires b.isQuantity && sent.Some? ==> ValidQuantity(b.total, sent.value)
    ensures BoxInv(ApplyReport(b, report, sent, allowGrowth))
    ensures SameAction(b, ApplyReport(b, report, sent, allowGrowth))
  {
  }

  lemma LoopsKeepBox(b: Box, isTrigger: bool)
    requires BoxInv(b)
    ensures BoxInv(Confirm(b)) && SameAction(b, Confirm(b))
    ensures BoxInv(DisableIfOther(b, isTrigger)) && SameAction(b, DisableIfOther(b, isTrigger))
    ensures BoxInv(RecoverBox(b)) && SameAction(b, RecoverBox(b))
  {
  }

  // ----- whole forms -----

  lemma ResponseKeepsForm(form: seq<Box>, actions: seq<Report>, plan: seq<Planned>)
    requires FormInv(form) && ValidPlan(form, plan)
    ensures FormInv(ApplyResponse(form, actions, plan)) && SameActions(form, ApplyResponse(form, actions, plan))
  {
    var settled := ApplyResponse(form, actions, plan);
    forall i | 0 <= i < |form|
      ensures BoxInv(settled[i]) && SameAction(form[i], settled[i])
    {
      var report := FindReport(actions, form[i].code);
      if report.Some? {
        ReportKeepsBox(form[i], report.value, SentQuantity(plan, form[i].code), !OfferedBefore(form, actions, i));
      }
    }
  }

  lemma DisableKeepsForm(form: seq<Box>, trigger: nat)
    requires FormInv(form)
    ensures FormInv(DisableOthers(form, trigger)) && SameActions(form, DisableOthers(form, trigger))
  {
    forall i | 0 <= i < |form|
      ensures BoxInv(DisableOthers(form, trigger)[i]) && SameAction(form[i], DisableOthers(form, trigger)[i])
    {
      LoopsKeepBox(form[i], i == trigger);
    }
  }

  lemma ConfirmKeepsForm(form: seq<Box>)
    requires FormInv(form)
    ensures FormInv(ConfirmAll(form)) && SameActions(form, ConfirmAll(form))
  {
    forall i | 0 <= i < |form|
      ensures BoxInv(ConfirmAll(form)[i]) && SameAction(form[i], ConfirmAll(form)[i])
    {
      LoopsKeepBox(form[i], false);
    }
  }

  lemma RecoverKeepsForm(form: seq<Box>)
    requires FormInv(form)
    ensures FormInv(Recover(form)) && SameActions(form, Recover(form))
  {
    forall i | 0 <= i < |form|
      ensures BoxInv(Recover(form)[i]) && SameAction(form[i], Recover(form)[i])
    {
      LoopsKeepBox(form[i], false);
    }
  }

  lemma OpeningKeepsForm(form: seq<Box>, trigger: Option<nat>, followUpsLeft: nat)
    requires FormInv(form)
    ensures FormInv(OpeningForm(form, trigger, followUpsLeft))
    ensures SameActions(form, OpeningForm(form, trigger, followUpsLeft))
  {
    ConfirmKeepsForm(form);
    if trigger.Some? {
      DisableKeepsForm(ConfirmAll(form), trigger.value);
    }
  }

  // ----- steps -----

  /** Replacing the form by another state of the same actions keeps what is known about the requests. */
  lemma ReplaceForm(w: World, form: seq<Box>)
    requires Inv(w) && FormInv(form) && SameActions(w.form, form)
    ensures Inv(w.(form := form))
  {
    forall k | 0 <= k < |w.sent|
      ensures RequestInv(form, w.sent[k], k + 1)
    {
      assert RequestInv(w.form, w.sent[k], k + 1);
    }
  }

  lemma RefreshKeepsInv(w: World, trigger: Option<nat>, followUpsLeft: nat, root: nat)
    requires Inv(w) && (trigger.Some? ==> trigger.value < |w.form|)
    requires followUpsLeft <= MAX_GROWTH_FOLLOW_UPS
    requires 0 < root && w.requestId + 1 == root + MAX_GROWTH_FOLLOW_UPS - followUpsLeft
    requires forall k :: 0 <= k < |w.sent| ==> w.sent[k].root <= root
    ensures Inv(StartRefresh(w, trigger, followUpsLeft, root))
    ensures SameActions(w.form, StartRefresh(w, trigger, followUpsLeft, root).form)
  {
    var form := OpeningForm(w.form, trigger, followUpsLeft);
    OpeningKeepsForm(w.form, trigger, followUpsLeft);
    ReplaceForm(w, form);
    PlansAreValid(form);
    var w' := StartRefresh(w, trigger, followUpsLeft, root);
    assert RequestInv(form, w'.sent[w.requestId], w.requestId + 1);
    assert forall k :: 0 <= k < w.requestId ==> w'.sent[k] == w.sent[k];
  }

  lemma OpenChainKeepsInv(w: World, trigger: Option<nat>)
    requires Inv(w) && (trigger.Some? ==> trigger.value < |w.form|)
    ensures Inv(OpenChain(w, trigger)) && SameActions(w.form, OpenChain(w, trigger).form)
  {
    forall k | 0 <= k < |w.sent|
      ensures w.sent[k].root <= w.requestId + 1
    {
      assert RequestInv(w.form, w.sent[k], k + 1);
    }
    RefreshKeepsInv(w, trigger, MAX_GROWTH_FOLLOW_UPS, w.requestId + 1);
  }

  lemma UpdateBoxKeepsForm(form: seq<Box>, i: nat, b: Box)
    requires FormInv(form) && i < |form| && BoxInv(b) && SameAction(form[i], b)
    ensures FormInv(form[i := b]) && SameActions(form, form[i := b])
  {
  }

  lemma ResponseFormsKeepInv(w: World, id: nat, actions: seq<Report>)
    requires Inv(w) && Awaiting(w, id)
    ensures FormInv(SettledForm(w, w.sent[id - 1], actions))
    ensures SameActions(w.form, SettledForm(w, w.sent[id - 1], actions))
    ensures FormInv(FollowUpForm(w, w.sent[id - 1], actions))
    ensures SameActions(w.form, FollowUpForm(w, w.sent[id - 1], actions))
  {
    var request := w.sent[id - 1];
    assert RequestInv(w.form, request, id);
    ResponseKeepsForm(w.form, actions, request.plan);
    if request.trigger.Some? {
      DisableKeepsForm(SettledForm(w, request, actions), request.trigger.value);
    }
  }

  lemma RespondKeepsInv(w: World, id: nat, response: Option<seq<Report>>)
    requires Inv(w) && Awaiting(w, id)
    ensures Inv(Respond(w, id, response)) && SameActions(w.form, Respond(w, id, response).form)
  {
    hide StartRefresh, ApplyResponse, Recover, Grew, FormInv, SettledForm;
    var request := w.sent[id - 1];
    var w1 := w.(answered := w.answered + {id});
    assert RequestInv(w.form, request, id);
    assert Inv(w1);
    if id == w.requestId {
      if response.None? {
        RecoverKeepsForm(w.form);
        ReplaceForm(w1, Recover(w.form));
      } else {
        ResponseFormsKeepInv(w, id, response.value);
        ReplaceForm(w1, SettledForm(w, request, response.value));
        if Continues(w, request, response.value) {
          var form := FollowUpForm(w, request, response.value);
          ReplaceForm(w1, form);
          RefreshKeepsInv(w1.(form := form), request.trigger, request.followUpsLeft - 1, request.root);
        }
      }
    }
  }

  lemma StepKeepsInv(w: World, e: Event)
    requires Inv(w) && Enabled(w, e)
    ensures Inv(Step(w, e)) && SameActions(w.form, Step(w, e).form)
  {
    hide StartRefresh, RequestInv, UniqueCodes, Respond;
    match e
    case Toggled(i) =>
      var b := ToggleBox(w.form[i]);
      UpdateBoxKeepsForm(w.form, i, b);
      ReplaceForm(w, w.form[i := b]);
      OpenChainKeepsInv(w.(form := w.form[i := b]), Some(i));
    case Edited(i, text, changed) =>
      UpdateBoxKeepsForm(w.form, i, Edit(w, i, text, changed).form[i]);
      ReplaceForm(w, Edit(w, i, text, changed).form);
    case TimerFired =>
      FlushKeepsInv(w);
    case Blurred =>
      FlushKeepsInv(w);
    case Responded(id, response) =>
      RespondKeepsInv(w, id, response);
  }

  lemma FlushKeepsInv(w: World)
    requires Inv(w)
    ensures Inv(Flush(w)) && SameActions(w.form, Flush(w).form)
  {
    if w.pending.Some? {
      OpenChainKeepsInv(w.(pending := None), w.pending);
    }
  }

  lemma SeedKeepsBox(b: Box)
    requires Rendered(b)
    ensures BoxInv(Seed(b)) && SameAction(b, Seed(b))
  {
  }

  lemma InitKeepsInv(rendered: seq<Box>)
    requires UniqueCodes(rendered) && forall i :: 0 <= i < |rendered| ==> Rendered(rendered[i])
    ensures Inv(InitPage(rendered)) && SameActions(rendered, InitPage(rendered).form)
  {
    hide StartRefresh, RequestInv, Seed, BoxInv, Rendered, Plan;
    var seeded := SeedAll(rendered);
    forall i | 0 <= i < |seeded| ensures BoxInv(seeded[i]) && SameAction(rendered[i], seeded[i]) {
      SeedKeepsBox(rendered[i]);
    }
    OpenChainKeepsInv(World(seeded, 0, [], {}, None), None);
  }

  // ----- runs -----

  /** A run of the page from a server-rendered form. */
  ghost predicate PageRun(rendered: seq<Box>, trace: seq<World>, events: seq<Event>) {
    && UniqueCodes(rendered) && (forall i :: 0 <= i < |rendered| ==> Rendered(rendered[i]))
    && IsRun(trace, events) && trace[0] == InitPage(rendered)
  }

  lemma RunBegins(rendered: seq<Box>, trace: seq<World>, events: seq<Event>)
    requires PageRun(rendered, trace, events)
    ensures |trace| == |events| + 1 && trace[0] == InitPage(rendered)
    ensures UniqueCodes(rendered) && forall i :: 0 <= i < |rendered| ==> Rendered(rendered[i])
  {
    hide Step, InitPage, UniqueCodes, Rendered;
  }

  lemma RunStep(rendered: seq<Box>, trace: seq<World>, events: seq<Event>, k: nat)
    requires PageRun(rendered, trace, events) && k + 1 < |trace|
    ensures |trace| == |events| + 1 && Enabled(trace[k], events[k]) && trace[k + 1] == Step(trace[k], events[k])
  {
    hide Step, InitPage;
  }

  lemma SameActionsAreTransitive(f: seq<Box>, g: seq<Box>, h: seq<Box>)
    requires SameActions(f, g) && SameActions(g, h)
    ensures SameActions(f, h)
  {
    assert forall i :: 0 <= i < |f| ==> SameAction(f[i], g[i]) && SameAction(g[i], h[i]);
  }

  lemma {:induction false} RunKeepsInv(rendered: seq<Box>, trace: seq<World>, events: seq<Event>, k: nat)
    requires PageRun(rendered, trace, events) && k < |trace|
    ensures Inv(trace[k]) && SameActions(rendered, trace[k].form)
  {
    hide PageRun, InitPage, Step, Enabled, Inv, SameActions, UniqueCodes, Rendered;
    RunBegins(rendered, trace, events);
    if k == 0 {
      InitKeepsInv(rendered);
    } else {
      RunStep(rendered, trace, events, k - 1);
      RunKeepsInv(rendered, trace, events, k - 1);
      StepKeepsInv(trace[k - 1], events[k - 1]);
      SameActionsAreTransitive(rendered, trace[k - 1].form, trace[k].form);
    }
  }
}
