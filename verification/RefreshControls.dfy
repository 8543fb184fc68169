/** What a user's tick, edit or blur sends, and what an abandoned edit falls back to. */
module RefreshControls {
  import opened Common
  import opened RefreshModel
  import opened RefreshRuns
  import opened RefreshProtocol

  /** The text is a number in (0, total]. */
  predicate TextInRange(total: Option<real>, text: Text) {
    text.Amount? && 0.0 < text.value && (total.Some? ==> text.value <= total.value)
  }

  lemma RangeIsValidity(b: Box)
    ensures ValidTyped(b) == if b.isQuantity && TextInRange(b.total, b.typed) then Some(b.typed.value) else None
  {
  }

  /** The same checkbox, but for what is disabled. */
  predicate HoldsAs(a: Box, b: Box) {
    b == a.(disabled := b.disabled, inputDisabled := b.inputDisabled)
  }

  /** The plan of a request sent from `w`, at the start of a chain or as a follow-up, claims for action `i` what the
      confirmed checkbox claims. */
  lemma RefreshedPlan(w: World, trigger: Option<nat>, followUpsLeft: nat, root: nat, i: nat)
    requires FormInv(w.form) && i < |w.form|
    ensures var w', b := StartRefresh(w, trigger, followUpsLeft, root), Confirm(w.form[i]);
            && |w'.sent| == |w.sent| + 1 && w'.sent[|w.sent|].trigger == trigger && w'.pending == w.pending
            && |w'.form| == |w.form| && HoldsAs(b, w'.form[i])
            && (trigger.None? || trigger == Some(i) ==> w'.form[i] == b)
            && SentQuantity(w'.sent[|w.sent|].plan, w.form[i].code) == (if Entry(b).Some? then Claim(b) else None)
  {
    hide Plan, SentQuantity, UniqueCodes, BoxInv, SameAction, HoldsAs;
    var form := OpeningForm(w.form, trigger, followUpsLeft);
    OpeningKeepsForm(w.form, trigger, followUpsLeft);
    PlanSendsClaims(form, i);
    HoldsAsItself(Confirm(w.form[i]));
    DisablingKeepsFields(Confirm(w.form[i]), trigger == Some(i));
    ConfirmingKeepsCode(w.form[i]);
  }

  lemma DisablingKeepsFields(b: Box, isTrigger: bool)
    ensures var b' := DisableIfOther(b, isTrigger);
            Entry(b') == Entry(b) && Claim(b') == Claim(b) && b'.code == b.code && HoldsAs(b, b')
  {
  }

  lemma HoldsAsItself(b: Box)
    ensures HoldsAs(b, b)
  {
  }

  lemma ConfirmingKeepsCode(b: Box)
    ensures Confirm(b).code == b.code
  {
  }

  lemma EditedForm(w: World, i: nat, text: Text, changed: bool)
    requires Inv(w) && Enabled(w, Edited(i, text, changed))
    ensures FormInv(Edit(w, i, text, changed).form)
  {
    var b := Edit(w, i, text, changed).form[i];
    assert BoxInv(w.form[i]) && BoxInv(b) && SameAction(w.form[i], b);
    hide BoxInv, SameAction;
    UpdateBoxKeepsForm(w.form, i, b);
  }

  // ----- edits -----

  /** An edit sends nothing by itself. When its debounce is consumed at once a request goes out exactly if the text is
      in range; it then claims what was typed, and the earlier pending edit is forgotten. */
  lemma PromptEditIsSentExactlyInRange(w: World, i: nat, text: Text, changed: bool)
    requires Inv(w) && Enabled(w, Edited(i, text, changed))
    ensures var w1 := Edit(w, i, text, changed);
            var w2, b := Flush(w1), w.form[i];
            && w1.sent == w.sent && w2.pending.None?
            && (!TextInRange(b.total, text) ==> w2 == w1.(pending := None))
            && (TextInRange(b.total, text) ==>
                  && |w2.sent| == |w.sent| + 1 && w2.sent[|w.sent|].trigger == Some(i)
                  && (b.checked && b.unit != "" ==> SentQuantity(w2.sent[|w.sent|].plan, b.code) == Some(text.value)))
  {
    hide StartRefresh, SentQuantity, FormInv, Inv;
    var w1 := Edit(w, i, text, changed);
    EditedForm(w, i, text, changed);
    RangeIsValidity(w1.form[i]);
    RefreshedPlan(w1.(pending := None), Some(i), MAX_GROWTH_FOLLOW_UPS, w.requestId + 1, i);
  }

  /** The event ends the protection of action `i`: its checkbox is flipped, or its text is changed. */
  predicate EndsProtection(e: Event, i: nat) {
    (e.Toggled? && e.box == i) || (e.Edited? && e.box == i && e.changed)
  }

  /** Neither protection nor the reported area and unit have changed. */
  predicate SameMarks(a: Box, b: Box) {
    b.errorOnLoad == a.errorOnLoad && b.live == a.live && b.unit == a.unit && b.code == a.code
  }

  lemma ReportMarks(b: Box, report: Report, sent: Option<real>, allowGrowth: bool)
    ensures SameMarks(RecordArea(b, report.area), ApplyReport(b, report, sent, allowGrowth))
  {
    hide ValidTyped, MarkUnavailable, ClearUnavailable;
    LabelsKeepMarks();
  }

  lemma LabelsKeepMarks()
    ensures forall b :: SameMarks(b, MarkUnavailable(b))
    ensures forall b :: SameMarks(b, ClearUnavailable(b))
  {
  }

  lemma LoopsKeepMarks(b: Box, isTrigger: bool)
    ensures SameMarks(b, Confirm(b)) && SameMarks(b, RecoverBox(b))
    ensures SameMarks(b, DisableIfOther(b, isTrigger)) && SameMarks(b, Seed(b))
  {
  }

  ghost predicate SameMarksAll(f: seq<Box>, g: seq<Box>) {
    |f| == |g| && forall i :: 0 <= i < |f| ==> SameMarks(f[i], g[i])
  }

  lemma OpeningKeepsMarks(form: seq<Box>, trigger: Option<nat>, followUpsLeft: nat)
    ensures SameMarksAll(form, OpeningForm(form, trigger, followUpsLeft))
  {
    hide Confirm, DisableIfOther;
    forall i | 0 <= i < |form| ensures SameMarks(form[i], OpeningForm(form, trigger, followUpsLeft)[i]) {
      LoopsKeepMarks(form[i], false);
      LoopsKeepMarks(Confirm(form[i]), trigger == Some(i));
    }
  }

  /** The area an event reports for an action: that of an answer to the newest request. */
  ghost function EffectiveArea(w: World, e: Event, code: string): Option<Area> {
    if e.Responded? && e.id == w.requestId && e.response.Some? then ReportedArea(e.response.value, code) else None
  }

  lemma SettledMarks(w: World, request: Request, actions: seq<Report>, i: nat)
    requires i < |w.form|
    ensures SameMarks(RecordArea(w.form[i], ReportedArea(actions, w.form[i].code)), SettledForm(w, request, actions)[i])
  {
    hide ApplyReport, SentQuantity, OfferedBefore;
    var report := FindReport(actions, w.form[i].code);
    if report.Some? {
      ReportMarks(w.form[i], report.value, SentQuantity(request.plan, w.form[i].code),
                  !OfferedBefore(w.form, actions, i));
    }
  }

  lemma FollowUpMarks(w: World, request: Request, actions: seq<Report>, i: nat)
    requires i < |w.form|
    ensures SameMarks(SettledForm(w, request, actions)[i], FollowUpForm(w, request, actions)[i])
  {
    hide ApplyOne, DisableIfOther;
    LoopsKeepMarks(SettledForm(w, request, actions)[i], request.trigger == Some(i));
  }

  lemma RespondMarks(w: World, id: nat, response: Option<seq<Report>>, i: nat)
    requires Awaiting(w, id) && i < |w.form|
    ensures i < |Respond(w, id, response).form|
    ensures SameMarks(RecordArea(w.form[i], EffectiveArea(w, Responded(id, response), w.form[i].code)),
                      Respond(w, id, response).form[i])
  {
    hide ApplyOne, Grew, Plan, OpeningForm, RecoverBox, FollowUpForm, ReportedArea;
    var request := w.sent[id - 1];
    LoopsKeepMarks(w.form[i], false);
    if response.Some? {
      SettledMarks(w, request, response.value, i);
      FollowUpMarks(w, request, response.value, i);
      FollowUpIsAsLong(w, request, response.value);
      if request.followUpsLeft > 0 {
        OpeningKeepsMarks(FollowUpForm(w, request, response.value), request.trigger, request.followUpsLeft - 1);
      }
    }
  }

  lemma FollowUpIsAsLong(w: World, request: Request, actions: seq<Report>)
    ensures |FollowUpForm(w, request, actions)| == |w.form|
  {
    hide ApplyOne, DisableIfOther;
  }

  /** What an event makes of the marks of an action: a reported area is recorded, and protection may end. */
  ghost predicate Marked(b: Box, area: Option<Area>, ended: bool, b': Box) {
    && b'.code == b.code && b'.errorOnLoad == (b.errorOnLoad && !ended)
    && b'.live == (if area.Some? then Some(area.value.value) else b.live)
    && b'.unit == (if area.Some? then area.value.unit else b.unit)
  }

  lemma MarkedByArea(b: Box, area: Option<Area>, b': Box)
    requires SameMarks(RecordArea(b, area), b')
    ensures Marked(b, area, false, b')
  {
  }

  lemma ToggledMarks(b: Box, b': Box)
    requires SameMarks(ToggleBox(b), b')
    ensures Marked(b, None, true, b')
  {
    hide ValidTyped;
  }

  lemma ToggleMarks(w: World, n: nat, i: nat)
    requires n < |w.form| && i < |w.form|
    ensures i < |Toggle(w, n).form| && Marked(w.form[i], None, n == i, Toggle(w, n).form[i])
  {
    hide OpeningForm, Plan, ToggleBox, ValidTyped, SameMarks, Marked;
    var form := w.form[n := ToggleBox(w.form[n])];
    OpeningKeepsMarks(form, Some(n), MAX_GROWTH_FOLLOW_UPS);
    MarksOfItself(form[i]);
    if n == i {
      ToggledMarks(w.form[i], Toggle(w, n).form[i]);
    } else {
      MarkedByArea(w.form[i], None, Toggle(w, n).form[i]);
    }
  }

  lemma MarksOfItself(b: Box)
    ensures SameMarks(b, b)
  {
  }

  lemma FlushMarks(w: World, i: nat)
    requires i < |w.form|
    ensures i < |Flush(w).form| && Marked(w.form[i], None, false, Flush(w).form[i])
  {
    hide OpeningForm, Plan, ValidTyped, SameMarks, Marked;
    OpeningKeepsMarks(w.form, w.pending, MAX_GROWTH_FOLLOW_UPS);
    MarksOfItself(w.form[i]);
    MarkedByArea(w.form[i], None, Flush(w).form[i]);
  }

  lemma StepMarks(w: World, e: Event, i: nat)
    requires Inv(w) && Enabled(w, e) && i < |w.form|
    ensures i < |Step(w, e).form|
    ensures Marked(w.form[i], EffectiveArea(w, e, w.form[i].code), EndsProtection(e, i), Step(w, e).form[i])
  {
    hide Toggle, Flush, Respond, Inv, ReportedArea;
    match e
    case Toggled(n) => ToggleMarks(w, n, i);
    case Edited(_, _, _) =>
    case TimerFired => FlushMarks(w, i);
    case Blurred => FlushMarks(w, i);
    case Responded(id, response) =>
      RespondMarks(w, id, response, i);
      MarkedByArea(w.form[i], EffectiveArea(w, e, w.form[i].code), Step(w, e).form[i]);
  }

  lemma InitKeepsMarks(rendered: seq<Box>)
    ensures SameMarksAll(rendered, InitPage(rendered).form)
  {
    hide Plan, OpeningForm, Seed;
    forall i | 0 <= i < |rendered| ensures SameMarks(rendered[i], SeedAll(rendered)[i]) {
      LoopsKeepMarks(rendered[i], false);
    }
    OpeningKeepsMarks(SeedAll(rendered), None, MAX_GROWTH_FOLLOW_UPS);
  }

  lemma {:induction false} ErrorFlagExactlyUntilTouched(
    rendered: seq<Box>, trace: seq<World>, events: seq<Event>, k: nat, i: nat)
    requires PageRun(rendered, trace, events) && k < |trace| && i < |rendered|
    ensures i < |trace[k].form|
    ensures trace[k].form[i].errorOnLoad
            <==> rendered[i].errorOnLoad && forall n :: 0 <= n < k ==> !EndsProtection(events[n], i)
  {
    hide PageRun, InitPage, Step, Enabled, Inv, Rendered, EndsProtection;
    RunBegins(rendered, trace, events);
    if k == 0 {
      InitKeepsMarks(rendered);
    } else {
      ErrorFlagExactlyUntilTouched(rendered, trace, events, k - 1, i);
      RunKeepsInv(rendered, trace, events, k - 1);
      RunStep(rendered, trace, events, k - 1);
      StepMarks(trace[k - 1], events[k - 1], i);
    }
  }

  /** In every run an action is protected exactly if it was rendered checked with an error and the user has neither
      flipped it nor changed its text; nothing else ends protection and nothing brings it back. */
  lemma ProtectedExactlyUntilTouched(
    rendered: seq<Box>, trace: seq<World>, events: seq<Event>, k: nat, i: nat)
    requires PageRun(rendered, trace, events) && k < |trace| && i < |rendered|
    ensures i < |trace[k].form|
    ensures Protected(trace[k].form[i])
            <==> Protected(rendered[i]) && forall n :: 0 <= n < k ==> !EndsProtection(events[n], i)
  {
    hide PageRun, InitPage, EndsProtection;
    RunBegins(rendered, trace, events);
    RunKeepsInv(rendered, trace, events, k);
    ErrorFlagExactlyUntilTouched(rendered, trace, events, k, i);
    FormOfInv(trace[k], i);
    assert Rendered(rendered[i]);
  }

  /** A request from a form in which a checked quantity action has no valid text, at the start of a chain or as a
      follow-up, puts back and claims the confirmed quantity; without one it unchecks and empties the action and claims
      nothing for it. */
  lemma InvalidTextFallsBack(w: World, trigger: Option<nat>, followUpsLeft: nat, root: nat, i: nat)
    requires FormInv(w.form) && i < |w.form| && w.form[i].checked && w.form[i].isQuantity && !w.form[i].errorOnLoad
    requires !TextInRange(w.form[i].total, w.form[i].typed)
    ensures var w' := StartRefresh(w, trigger, followUpsLeft, root);
            var b, after := w.form[i], w'.form[i];
            var sent := SentQuantity(w'.sent[|w.sent|].plan, b.code);
            if b.chosen.Some?
            then after.checked && after.typed == Amount(b.chosen.value) && (b.unit != "" ==> sent == b.chosen)
            else !after.checked && after.typed == Blank && sent.None?
  {
    hide StartRefresh, SentQuantity, UniqueCodes;
    RangeIsValidity(w.form[i]);
    RefreshedPlan(w, trigger, followUpsLeft, root, i);
  }

  lemma FormOfInv(w: World, i: nat)
    requires Inv(w) && i < |w.form|
    ensures BoxInv(w.form[i])
  {
  }

  // ----- what is confirmed -----

  /** A response confirms for a checked quantity action it covers exactly the quantity the request claimed. */
  lemma ResponseConfirmsSent(w: World, actions: seq<Report>, i: nat)
    requires Inv(w) && Live(w) && i < |w.form| && Covers(w.form[i], actions)
    requires w.form[i].checked && w.form[i].isQuantity && !w.form[i].errorOnLoad
    ensures var request := w.sent[w.requestId - 1];
            var sent := SentQuantity(request.plan, w.form[i].code);
            SettledForm(w, request, actions)[i].chosen == if sent.Some? then sent else w.form[i].chosen
  {
  }

  /** On a rendered page exactly the checked quantities in range start out confirmed. */
  lemma RenderedQuantityIsConfirmed(rendered: seq<Box>, i: nat)
    requires i < |rendered| && Rendered(rendered[i]) && rendered[i].isQuantity
    ensures i < |InitPage(rendered).form|
    ensures var b := rendered[i];
            InitPage(rendered).form[i].chosen
            == if b.checked && TextInRange(b.total, b.typed) then Some(b.typed.value) else None
  {
  }

  /** A rendered action claims land: it is checked, has a unit, and its quantity is in range or its area is known. */
  predicate RenderedClaim(b: Box) {
    && b.checked && b.unit != ""
    && (if b.isQuantity then TextInRange(b.total, b.typed) else ChosenArea(b).Some? || b.total.Some?)
  }

  lemma {:induction false} PlanIsEmpty(form: seq<Box>)
    ensures Plan(form) == [] <==> forall i :: 0 <= i < |form| ==> Entry(form[i]).None?
  {
    if form != [] {
      var init := form[..|form| - 1];
      PlanIsEmpty(init);
      assert forall i :: 0 <= i < |init| ==> init[i] == form[i];
    }
  }

  lemma SeededClaim(b: Box)
    requires Rendered(b)
    ensures Entry(Seed(b)).Some? <==> RenderedClaim(b)
  {
  }

  /** A rendered page asks at once exactly if some action claims land, once and without a triggering action. */
  lemma RenderedPageAsks(rendered: seq<Box>)
    requires forall i :: 0 <= i < |rendered| ==> Rendered(rendered[i])
    ensures InitPage(rendered).sent != [] <==> exists i :: 0 <= i < |rendered| && RenderedClaim(rendered[i])
    ensures |InitPage(rendered).sent| <= 1 && forall r :: r in InitPage(rendered).sent ==> r.trigger.None?
  {
    hide Plan, Entry, Rendered, RenderedClaim;
    PlanIsEmpty(SeedAll(rendered));
    forall i | 0 <= i < |rendered|
      ensures Entry(SeedAll(rendered)[i]).Some? <==> RenderedClaim(rendered[i])
    {
      SeededClaim(rendered[i]);
    }
  }

  /** In every reachable state an unchecked action holds nothing. */
  lemma UncheckedHoldsNothing(rendered: seq<Box>, trace: seq<World>, events: seq<Event>, k: nat, i: nat)
    requires PageRun(rendered, trace, events) && k < |trace| && i < |trace[k].form| && !trace[k].form[i].checked
    ensures ChosenArea(trace[k].form[i]).None?
  {
    hide PageRun;
    RunKeepsInv(rendered, trace, events, k);
    FormOfInv(trace[k], i);
  }

  // ----- ticks -----

  /** Ticking sends a request unless it ticks a quantity action whose text is not in range; the request then claims the
      typed quantity, or the non-quantity action's held or live area. */
  lemma TickAsksExactlyInRange(w: World, i: nat)
    requires Inv(w) && Enabled(w, Toggled(i)) && !w.form[i].checked
    ensures var w', b := Toggle(w, i), w.form[i];
            && i < |w'.form| && w'.form[i].checked && w'.form[i].typed == b.typed
            && (b.isQuantity && !TextInRange(b.total, b.typed) ==> w'.sent == w.sent)
            && (!b.isQuantity || TextInRange(b.total, b.typed) ==>
                  && |w'.sent| == |w.sent| + 1 && w'.sent[|w.sent|].trigger == Some(i)
                  && (b.unit != "" ==>
                        SentQuantity(w'.sent[|w.sent|].plan, b.code)
                        == if b.isQuantity then Some(b.typed.value) else ChosenArea(b).Or(LiveArea(b))))
  {
    hide StartRefresh, SentQuantity, FormInv, Inv;
    var b := ToggleBox(w.form[i]);
    FormOfInv(w, i);
    TickedForm(w, i);
    RangeIsValidity(b);
    RefreshedPlan(w.(form := w.form[i := b]), Some(i), MAX_GROWTH_FOLLOW_UPS, w.requestId + 1, i);
  }

  lemma TickedForm(w: World, i: nat)
    requires Inv(w) && Enabled(w, Toggled(i))
    ensures FormInv(w.form[i := ToggleBox(w.form[i])])
  {
    var b := ToggleBox(w.form[i]);
    assert BoxInv(w.form[i]) && BoxInv(b) && SameAction(w.form[i], b);
    hide BoxInv, SameAction;
    UpdateBoxKeepsForm(w.form, i, b);
  }

  /** The area last reported for a code by answers to newest requests. */
  ghost function LastReported(trace: seq<World>, events: seq<Event>, k: nat, code: string): Option<Area>
    requires k <= |events| < |trace|
  {
    if k == 0 then None
    else EffectiveArea(trace[k - 1], events[k - 1], code).Or(LastReported(trace, events, k - 1, code))
  }

  /** In every run an action's live area and unit are those last reported for it, and before any report the rendered
      ones. */
  lemma {:induction false} LiveAreaIsLastReported(
    rendered: seq<Box>, trace: seq<World>, events: seq<Event>, k: nat, i: nat)
    requires PageRun(rendered, trace, events) && k <= |events| < |trace| && i < |rendered|
    ensures i < |trace[k].form| && trace[k].form[i].code == rendered[i].code
    ensures var area, b := LastReported(trace, events, k, rendered[i].code), trace[k].form[i];
            if area.Some? then b.live == Some(area.value.value) && b.unit == area.value.unit
            else b.live == rendered[i].live && b.unit == rendered[i].unit
  {
    hide PageRun, InitPage, Step, Enabled, Inv, Rendered, EffectiveArea, EndsProtection;
    RunBegins(rendered, trace, events);
    if k == 0 {
      InitKeepsMarks(rendered);
    } else {
      LiveAreaIsLastReported(rendered, trace, events, k - 1, i);
      RunKeepsInv(rendered, trace, events, k - 1);
      RunStep(rendered, trace, events, k - 1);
      StepMarks(trace[k - 1], events[k - 1], i);
    }
  }

  /** In every run ticking a non-quantity action claims for it the area last reported, in the unit last reported, and
      before any report its rendered total. */
  lemma TickClaimsLastReported(rendered: seq<Box>, trace: seq<World>, events: seq<Event>, k: nat, i: nat)
    requires PageRun(rendered, trace, events) && k < |events| < |trace| && events[k] == Toggled(i) && i < |rendered|
    requires i < |trace[k].form| && !trace[k].form[i].checked && !rendered[i].isQuantity
    ensures var reported, b := LastReported(trace, events, k, rendered[i].code), trace[k].form[i];
            && |trace[k + 1].sent| == |trace[k].sent| + 1 && trace[k + 1].sent[|trace[k].sent|].trigger == Some(i)
            && b.unit == (if reported.Some? then reported.value.unit else rendered[i].unit)
            && (b.unit != "" ==>
                  SentQuantity(trace[k + 1].sent[|trace[k].sent|].plan, rendered[i].code)
                  == if reported.Some? then Some(reported.value.value) else rendered[i].total)
  {
    hide PageRun, Inv, Toggle, LastReported, SentQuantity, ChosenArea;
    RunBegins(rendered, trace, events);
    RunStep(rendered, trace, events, k);
    RunKeepsInv(rendered, trace, events, k);
    assert SameAction(rendered[i], trace[k].form[i]) && Rendered(rendered[i]);
    UncheckedHoldsNothing(rendered, trace, events, k, i);
    LiveAreaIsLastReported(rendered, trace, events, k, i);
    TickAsksExactlyInRange(trace[k], i);
  }
}
