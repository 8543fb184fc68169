/** Where a confirmed quantity comes from, what a request disables, and what a response leaves alone, over whole
    runs. */
module RefreshOutcomes {
  import opened Common
  import opened RefreshModel
  import opened RefreshRuns
  import opened RefreshProtocol
  import opened RefreshControls
  import opened RefreshChain
  import opened RefreshEdits

  // ----- where a confirmed quantity comes from -----

  /** The quantity an event confirms for action `i`: an answer to the newest request that reports an area for the action
      while it is checked and unprotected confirms what that request claimed. */
  ghost function AnsweredClaim(w: World, e: Event, i: nat): Option<real> {
    if e.Responded? && e.id == w.requestId && e.response.Some? && 0 < e.id <= |w.sent| && i < |w.form|
       && ReportedArea(e.response.value, w.form[i].code).Some? && w.form[i].checked && !w.form[i].errorOnLoad
    then SentQuantity(w.sent[e.id - 1].plan, w.form[i].code)
    else None
  }

  /** The rendered quantity if it is checked and in range, then whatever answers confirm, until the action is
      unchecked. */
  ghost function ConfirmedQuantity(rendered: seq<Box>, trace: seq<World>, events: seq<Event>, k: nat, i: nat)
    : Option<real>
    requires k <= |events| < |trace| && i < |rendered|
  {
    if k == 0 then
      if rendered[i].checked && TextInRange(rendered[i].total, rendered[i].typed) then Some(rendered[i].typed.value)
      else None
    else if i >= |trace[k].form| || !trace[k].form[i].checked then None
    else AnsweredClaim(trace[k - 1], events[k - 1], i).Or(ConfirmedQuantity(rendered, trace, events, k - 1, i))
  }

  lemma ReportConfirms(b: Box, report: Report, sent: Option<real>, allowGrowth: bool)
    requires b.isQuantity
    ensures var b' := ApplyReport(b, report, sent, allowGrowth);
            b'.checked ==>
              b'.chosen == if b.checked && !b.errorOnLoad && report.area.Some? then sent.Or(b.chosen) else b.chosen
  {
    hide ValidTyped;
  }

  lemma AppliedConfirms(w: World, e: Event, i: nat)
    requires Inv(w) && Enabled(w, e) && i < |w.form| && w.form[i].isQuantity
    ensures Applied(w, e, i).checked ==> Applied(w, e, i).chosen == AnsweredClaim(w, e, i).Or(w.form[i].chosen)
  {
    hide ApplyReport, OfferedBefore, SentQuantity, RequestInv, UniqueCodes, ValidTyped;
    FormOfInv(w, i);
    if e.Responded? && e.id == w.requestId && e.response.Some? {
      var report := FindReport(e.response.value, w.form[i].code);
      if report.Some? {
        ReportConfirms(w.form[i], report.value, SentQuantity(w.sent[e.id - 1].plan, w.form[i].code),
                       !OfferedBefore(w.form, e.response.value, i));
      }
    }
  }

  lemma ConfirmingKeepsChosen(b: Box, b': Box)
    requires HoldsAs(Confirm(b), b')
    ensures b'.chosen == b.chosen && (b'.checked ==> b.checked)
  {
  }

  lemma StepConfirms(w: World, e: Event, i: nat)
    requires Inv(w) && Enabled(w, e) && i < |w.form| && w.form[i].isQuantity
    ensures i < |Step(w, e).form|
    ensures var after := Step(w, e).form[i];
            after.checked ==> after.chosen == AnsweredClaim(w, e, i).Or(w.form[i].chosen)
  {
    hide Step, Inv, Enabled, Applied, Confirm, HoldsAs, AnsweredClaim, NewestClaim, Entry, Claim;
    StepOutcome(w, e, i);
    AppliedConfirms(w, e, i);
    if |Step(w, e).sent| != |w.sent| {
      ConfirmingKeepsChosen(Applied(w, e, i), Step(w, e).form[i]);
    }
  }

  /** In every run the confirmed quantity of a quantity action is the claim last answered with an area while it was
      checked and unprotected; before any such answer it is the rendered quantity, if in range; and there is none
      once the action has been unchecked. No tick, edit, timer or blur confirms anything. */
  lemma {:induction false} ConfirmedIsLastAnswered(
    rendered: seq<Box>, trace: seq<World>, events: seq<Event>, k: nat, i: nat)
    requires PageRun(rendered, trace, events) && k <= |events| < |trace| && i < |rendered| && rendered[i].isQuantity
    ensures i < |trace[k].form| && trace[k].form[i].isQuantity
    ensures trace[k].form[i].chosen == ConfirmedQuantity(rendered, trace, events, k, i)
  {
    hide PageRun, InitPage, Step, Enabled, Inv, Rendered, AnsweredClaim, TextInRange;
    RunBegins(rendered, trace, events);
    RunKeepsInv(rendered, trace, events, k);
    assert SameAction(rendered[i], trace[k].form[i]);
    if k == 0 {
      assert Rendered(rendered[i]);
      RenderedQuantityIsConfirmed(rendered, i);
    } else {
      ConfirmedIsLastAnswered(rendered, trace, events, k - 1, i);
      RunKeepsInv(rendered, trace, events, k - 1);
      RunStep(rendered, trace, events, k - 1);
      StepConfirms(trace[k - 1], events[k - 1], i);
      FormOfInv(trace[k], i);
    }
  }

  // ----- what a request disables -----

  predicate SameControls(a: Box, b: Box) {
    a.disabled == b.disabled && a.inputDisabled == b.inputDisabled
  }

  lemma ConfirmingKeepsControls(b: Box)
    ensures SameControls(b, Confirm(b))
  {
  }

  lemma UserKeepsControls(w: World, e: Event, i: nat)
    requires Enabled(w, e) && i < |w.form| && !e.Responded?
    ensures SameControls(w.form[i], Applied(w, e, i))
  {
  }

  /** The triggering action of a request is not disabled by it: a tick or flush leaves its controls as they were before,
      and a follow-up as the response left them. */
  lemma TriggerIsSpared(w: World, e: Event, t: nat)
    requires Inv(w) && Enabled(w, e) && |Step(w, e).sent| > |w.sent|
    requires Step(w, e).sent[|w.sent|].trigger == Some(t) && t < |w.form|
    ensures t < |Step(w, e).form|
    ensures !e.Responded? ==> SameControls(w.form[t], Step(w, e).form[t])
    ensures e.Responded? ==>
              e.response.Some? && 0 < e.id <= |w.sent|
              && SameControls(SettledForm(w, w.sent[e.id - 1], e.response.value)[t], Step(w, e).form[t])
  {
    hide Inv, Confirm, HoldsAs, NewestClaim, Entry, Claim, ApplyOne, StartRefresh, Recover, Grew;
    StepOutcome(w, e, t);
    ConfirmingKeepsControls(Applied(w, e, t));
    if !e.Responded? {
      UserKeepsControls(w, e, t);
    }
  }

  /** Nothing but an answer to the newest request touches the controls of an action while that request stays newest. */
  lemma QuietStepKeepsControls(w: World, e: Event, i: nat)
    requires Inv(w) && Enabled(w, e) && i < |w.form| && Step(w, e).sent == w.sent && Live(Step(w, e))
    ensures i < |Step(w, e).form| && SameControls(w.form[i], Step(w, e).form[i]) && Live(w)
  {
    hide Step, Confirm, HoldsAs, NewestClaim, Entry, Claim, ApplyOne, ToggleBox, RecoverBox, FormInv, RequestInv;
    StepOutcome(w, e, i);
    StepExtends(w, e);
    StepKeepsInv(w, e);
    if !e.Responded? {
      UserKeepsControls(w, e, i);
    }
  }

  /** From the tick at `j` until `k` no further request goes out. */
  ghost predicate TickIsNewest(trace: seq<World>, events: seq<Event>, i: nat, j: nat, k: nat) {
    && j < k <= |events| < |trace| && events[j] == Toggled(i)
    && |trace[j + 1].sent| == |trace[j].sent| + 1 && |trace[k].sent| == |trace[j].sent| + 1
  }

  /** An action ticked, or unticked, by its user stays enabled while the request that sent is newest and unanswered. */
  lemma {:induction false} TickedStaysEnabled(
    rendered: seq<Box>, trace: seq<World>, events: seq<Event>, i: nat, j: nat, k: nat)
    requires PageRun(rendered, trace, events) && TickIsNewest(trace, events, i, j, k) && Live(trace[k])
    ensures i < |trace[k].form| && !trace[k].form[i].disabled && !trace[k].form[i].inputDisabled
    decreases k
  {
    hide PageRun, Inv, Step, Live, Extends;
    RunStep(rendered, trace, events, k - 1);
    RunKeepsInv(rendered, trace, events, k - 1);
    if k == j + 1 {
      ToggledTrigger(trace[j], i);
      TriggerIsSpared(trace[j], events[j], i);
      FormOfInv(trace[j], i);
    } else {
      RunExtends(rendered, trace, events, j + 1, k - 1);
      RunExtends(rendered, trace, events, k - 1, k);
      SentBetween(trace[j + 1], trace[k - 1], trace[k]);
      FormIsWhole(rendered, trace, events, k - 1);
      FormIsWhole(rendered, trace, events, j);
      QuietStepKeepsControls(trace[k - 1], events[k - 1], i);
      TickedStaysEnabled(rendered, trace, events, i, j, k - 1);
    }
  }

  lemma SentBetween(a: World, b: World, c: World)
    requires Extends(a, b) && Extends(b, c) && |c.sent| == |a.sent|
    ensures b.sent == a.sent && c.sent == b.sent
  {
  }

  lemma FormIsWhole(rendered: seq<Box>, trace: seq<World>, events: seq<Event>, k: nat)
    requires PageRun(rendered, trace, events) && k < |events| < |trace|
    ensures |trace[k].form| == |rendered| && Enabled(trace[k], events[k])
  {
    hide Inv;
    RunKeepsInv(rendered, trace, events, k);
    RunStep(rendered, trace, events, k);
  }

  lemma ToggledTrigger(w: World, i: nat)
    requires Enabled(w, Toggled(i)) && |Step(w, Toggled(i)).sent| > |w.sent|
    ensures Step(w, Toggled(i)).sent[|w.sent|].trigger == Some(i)
  {
    hide OpeningForm, Plan, ToggleBox, ValidTyped;
  }

  // ----- one trigger for a chain -----

  /** All requests of a chain share its triggering action. */
  ghost predicate ChainTriggers(w: World) {
    forall m, n :: 0 <= m < n < |w.sent| && w.sent[m].root == w.sent[n].root ==> w.sent[m].trigger == w.sent[n].trigger
  }

  lemma StepKeepsTriggers(w: World, e: Event)
    requires Inv(w) && Enabled(w, e) && ChainTriggers(w)
    ensures ChainTriggers(Step(w, e))
  {
    hide OpeningForm, Plan, ApplyResponse, Grew, Recover, DisableOthers, ToggleBox, ValidTyped, FormInv, ValidPlan;
    var w' := Step(w, e);
    forall m | 0 <= m < |w.sent| ensures w.sent[m].root <= w.requestId {
      assert RequestInv(w.form, w.sent[m], m + 1);
    }
  }

  /** So a follow-up disables the same actions as the request that opened its chain. */
  lemma {:induction false} ChainsKeepTheirTrigger(rendered: seq<Box>, trace: seq<World>, events: seq<Event>, k: nat)
    requires PageRun(rendered, trace, events) && k < |trace|
    ensures ChainTriggers(trace[k])
  {
    hide PageRun, Step, Enabled, Inv, ChainTriggers, Rendered, RenderedClaim;
    RunBegins(rendered, trace, events);
    if k == 0 {
      RenderedPageAsks(rendered);
      OneRequestIsAChain(trace[0]);
    } else {
      ChainsKeepTheirTrigger(rendered, trace, events, k - 1);
      RunKeepsInv(rendered, trace, events, k - 1);
      RunStep(rendered, trace, events, k - 1);
      StepKeepsTriggers(trace[k - 1], events[k - 1]);
    }
  }

  lemma OneRequestIsAChain(w: World)
    requires |w.sent| <= 1
    ensures ChainTriggers(w)
  {
  }

  // ----- what a response leaves alone, and what it settles -----

  /** An action that a response does not cover is left exactly as it was. */
  lemma UncoveredIsLeftAlone(w: World, actions: seq<Report>, i: nat)
    requires Inv(w) && Live(w) && i < |w.form| && !Covers(w.form[i], actions)
    ensures SettledForm(w, w.sent[w.requestId - 1], actions)[i] == w.form[i]
  {
    hide FormInv, RequestInv, SentQuantity, OfferedBefore;
  }

  /** Action `i` is the first in the form that may grow. */
  ghost predicate GrowsFirst(form: seq<Box>, actions: seq<Report>, i: nat) {
    i < |form| && MayGrow(form[i], actions) && forall j :: 0 <= j < i ==> !MayGrow(form[j], actions)
  }

  /** A covered, checked, unprotected non-quantity action whose claim was sent ends up holding that claim, raised by
      what is left over if it is the first that may grow; with nothing left to hold it is unchecked, disabled and
      shows the message. */
  lemma SentAreaSettles(w: World, actions: seq<Report>, i: nat, sent: real)
    requires Inv(w) && Live(w) && i < |w.form| && Covers(w.form[i], actions)
    requires w.form[i].checked && !w.form[i].isQuantity && !w.form[i].errorOnLoad
    requires SentQuantity(w.sent[w.requestId - 1].plan, w.form[i].code) == Some(sent)
    ensures var b := SettledForm(w, w.sent[w.requestId - 1], actions)[i];
            var left := ReportedArea(actions, w.form[i].code).value.value;
            var area := sent + (if GrowsFirst(w.form, actions, i) then left else 0.0);
            && b.hidden == Amount(if area == 0.0 then 0.0 else area)
            && b.checked == (area != 0.0) && b.disabled == (area == 0.0) && b.message == (area == 0.0)
  {
    hide FormInv, RequestInv, SentQuantity;
    assert forall j :: 0 <= j <= i ==> (MayGrow(w.form[j], actions) <==> Offered(w.form[j], actions));
  }

  /** Without a sent claim such an action keeps its tick but holds an unreadable area. */
  lemma UnsentAreaIsUnreadable(w: World, actions: seq<Report>, i: nat)
    requires Inv(w) && Live(w) && i < |w.form| && Covers(w.form[i], actions)
    requires w.form[i].checked && !w.form[i].isQuantity && !w.form[i].errorOnLoad
    requires SentQuantity(w.sent[w.requestId - 1].plan, w.form[i].code).None?
    ensures var b := SettledForm(w, w.sent[w.requestId - 1], actions)[i];
            b.hidden == NotANumber && b.checked && !b.disabled && !b.message
  {
    hide FormInv, RequestInv, SentQuantity, OfferedBefore;
  }
}
