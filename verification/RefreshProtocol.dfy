/** The protocol theorems: newest request only, bounded chains, nothing left stuck, protected and valid claims. */
module RefreshProtocol {
  import opened Common
  import opened RefreshModel
  import opened RefreshRuns

  // ----- only the newest request counts -----

  /** A superseded response changes nothing but the fact that it has arrived. */
  lemma StaleResponseIsInert(w: World, id: nat, response: Option<seq<Report>>)
    requires Awaiting(w, id) && id != w.requestId
    ensures Respond(w, id, response) == w.(answered := w.answered + {id})
  {
  }

  lemma StepExtends(w: World, e: Event)
    requires Inv(w) && Enabled(w, e)
    ensures Extends(w, Step(w, e)) && |Step(w, e).sent| <= |w.sent| + 1
    ensures e.Responded? ==> e.id in Step(w, e).answered
  {
    hide OpeningForm, Plan, ApplyResponse, Grew, Recover, DisableOthers, ToggleBox, ValidTyped, Inv;
  }

  /** Requests and answers are only ever added. */
  predicate Extends(w: World, later: World) {
    w.sent <= later.sent && w.answered <= later.answered
  }

  lemma ExtendsIsTransitive(a: World, b: World, c: World)
    requires Extends(a, b) && Extends(b, c)
    ensures Extends(a, c)
  {
  }

  lemma ExtendsItself(w: World)
    ensures Extends(w, w)
  {
  }

  lemma {:induction false} RunExtends(rendered: seq<Box>, trace: seq<World>, events: seq<Event>, j: nat, k: nat)
    requires PageRun(rendered, trace, events) && j <= k < |trace|
    ensures Extends(trace[j], trace[k])
    decreases k - j
  {
    hide PageRun, Step, Enabled, Inv, Extends, SameActions;
    if j == k {
      ExtendsItself(trace[j]);
    } else {
      RunStep(rendered, trace, events, k - 1);
      RunExtends(rendered, trace, events, j, k - 1);
      RunKeepsInv(rendered, trace, events, k - 1);
      StepExtends(trace[k - 1], events[k - 1]);
      ExtendsIsTransitive(trace[j], trace[k - 1], trace[k]);
    }
  }

  /** No request is answered twice in a run. */
  lemma EachResponseAppliesOnce(rendered: seq<Box>, trace: seq<World>, events: seq<Event>, j: nat, k: nat)
    requires PageRun(rendered, trace, events) && j < k < |events|
    requires events[j].Responded? && events[k].Responded?
    ensures events[j].id != events[k].id
  {
    RunKeepsInv(rendered, trace, events, j);
    StepExtends(trace[j], events[j]);
    RunExtends(rendered, trace, events, j + 1, k);
    assert Enabled(trace[k], events[k]);
  }

  /** A response that changes the form answers the newest request issued by then. */
  lemma OnlyNewestResponseChangesForm(rendered: seq<Box>, trace: seq<World>, events: seq<Event>, k: nat)
    requires PageRun(rendered, trace, events) && k < |events| && events[k].Responded?
    ensures trace[k + 1].form != trace[k].form || trace[k + 1].sent != trace[k].sent ==> events[k].id == |trace[k].sent|
  {
    RunKeepsInv(rendered, trace, events, k);
  }

  /** Once a later chain has opened, chain `root` sends nothing more and its responses change nothing. */
  lemma SupersededChainIsSilent(rendered: seq<Box>, trace: seq<World>, events: seq<Event>, root: nat, j: nat, k: nat)
    requires PageRun(rendered, trace, events) && j <= k < |trace|
    requires trace[j].sent != [] && root < trace[j].sent[|trace[j].sent| - 1].root
    ensures trace[j].sent <= trace[k].sent
    ensures forall n :: |trace[j].sent| <= n < |trace[k].sent| ==> trace[k].sent[n].root != root
    ensures k < |events| && events[k].Responded? && trace[k].sent[events[k].id - 1].root == root
            ==> trace[k + 1].form == trace[k].form && trace[k + 1].sent == trace[k].sent
  {
    RunExtends(rendered, trace, events, j, k);
    RunKeepsInv(rendered, trace, events, k);
    var last := |trace[j].sent| - 1;
    assert trace[k].sent[last] == trace[j].sent[last];
    if k < |events| && events[k].Responded? && trace[k].sent[events[k].id - 1].root == root {
      assert trace[k].sent[trace[k].requestId - 1].root >= trace[k].sent[last].root;
      StaleResponseIsInert(trace[k], events[k].id, events[k].response);
    }
  }

  // ----- bounded chains -----

  lemma SubsetIsSmaller<T>(a: set<T>, b: set<T>)
    requires a <= b
    ensures |a| <= |b|
  {
    assert b == a + (b - a);
  }

  /** No trigger ever issues more than one request and three follow-ups. */
  lemma ChainsAreBounded(rendered: seq<Box>, trace: seq<World>, events: seq<Event>, k: nat, root: nat)
    requires PageRun(rendered, trace, events) && k < |trace|
    ensures |set n | 0 <= n < |trace[k].sent| && trace[k].sent[n].root == root| <= 1 + MAX_GROWTH_FOLLOW_UPS
  {
    RunKeepsInv(rendered, trace, events, k);
    ChainFitsWindow(trace[k], root);
  }

  lemma ChainFitsWindow(w: World, root: nat)
    requires Inv(w)
    ensures |set n | 0 <= n < |w.sent| && w.sent[n].root == root| <= 1 + MAX_GROWTH_FOLLOW_UPS
  {
    var chain := set n | 0 <= n < |w.sent| && w.sent[n].root == root;
    var window := {root - 1, root, root + 1, root + 2};
    assert chain <= window by {
      forall n | n in chain ensures n in window {
        assert RequestInv(w.form, w.sent[n], n + 1);
      }
    }
    SubsetIsSmaller(chain, window);
  }

  /** A checked non-quantity action, not redisplayed with an error, for which the response reports land left over. */
  predicate MayGrow(b: Box, actions: seq<Report>) {
    && b.checked && !b.errorOnLoad && !b.isQuantity
    && ReportedArea(actions, b.code).Some? && 0.0 < ReportedArea(actions, b.code).value.value
  }

  /** The chain goes on exactly when the response offers land to some checked, unprotected non-quantity action and a
      follow-up is left; so settling with follow-ups unused means nothing was offered. */
  lemma SettlesAtFixpoint(w: World, actions: seq<Report>)
    requires Inv(w) && Live(w)
    ensures var request := w.sent[w.requestId - 1];
            var w' := Respond(w, w.requestId, Some(actions));
            !Live(w') <==>
            (request.followUpsLeft == 0 || forall i :: 0 <= i < |w.form| ==> !MayGrow(w.form[i], actions))
  {
    hide OpeningForm, Plan, ApplyResponse, DisableOthers;
    var request := w.sent[w.requestId - 1];
    var w' := Respond(w, w.requestId, Some(actions));
    if Continues(w, request, actions) {
      assert w'.requestId == w.requestId + 1 && w'.requestId !in w.answered;
    }
  }

  // ----- nothing is left stuck -----

  /** The response says something about this action's state: it lists it, with an area if the action is checked. */
  predicate Covers(b: Box, actions: seq<Report>) {
    FindReport(actions, b.code).Some? && (b.checked ==> ReportedArea(actions, b.code).Some?)
  }

  /** Disabled exactly when it shows the message: not waiting for anything. */
  predicate Released(b: Box) {
    b.disabled == b.message
  }

  lemma ReportReleasesBox(b: Box, report: Report, sent: Option<real>, allowGrowth: bool)
    requires BoxInv(b)
    ensures Released(ApplyReport(b, report, sent, allowGrowth))
            <==> ((b.checked ==> report.area.Some?) || Released(b))
  {
  }

  /** After a chain settles on a response, an action is released if and only if the response covers it or it was
      released before; an uncovered action that the chain disabled stays disabled. */
  lemma SettledResponseReleases(w: World, actions: seq<Report>, i: nat)
    requires Inv(w) && Live(w) && i < |w.form|
    requires !Live(Respond(w, w.requestId, Some(actions)))
    ensures Released(Respond(w, w.requestId, Some(actions)).form[i])
            <==> (Covers(w.form[i], actions) || Released(w.form[i]))
  {
    var request := w.sent[w.requestId - 1];
    SettlesAtFixpoint(w, actions);
    assert !Continues(w, request, actions);
    var settled := SettledForm(w, request, actions);
    assert Respond(w, w.requestId, Some(actions)).form == settled;
    var b := w.form[i];
    var report := FindReport(actions, b.code);
    if report.Some? {
      ReportReleasesBox(b, report.value, SentQuantity(request.plan, b.code), !OfferedBefore(w.form, actions, i));
    }
  }

  /** Covering is needed: here the user ticks the first of two actions and the response lists neither. */
  lemma UnlistedActionStaysDisabled()
    ensures var a := Box(
              "A", false, Some(2.0), "ha", false, false, false, false, Blank, None, Amount(0.0), None, false);
            var w := Toggle(InitPage([a, a.(code := "B")]), 0);
            Live(w) && (var w' := Respond(w, w.requestId, Some([]));
                        !Live(w') && w'.form[1].disabled && !w'.form[1].message)
  {
    var a := Box("A", false, Some(2.0), "ha", false, false, false, false, Blank, None, Amount(0.0), None, false);
    var form := [a, a.(code := "B")];
    assert SeedAll(form) == form;
    assert form[..1] == [a] && Plan(form[..1][..0]) == [];
    assert Plan(form[..1]) == [];
    assert Plan(form) == [];
    assert InitPage(form) == World(form, 0, [], {}, None);
  }

  /** A failed request releases every action and changes nothing else: what is checked, typed and held stays. */
  lemma FailureReleasesAll(w: World)
    requires Inv(w) && Live(w)
    ensures var w' := Respond(w, w.requestId, None);
            && w'.sent == w.sent && |w'.form| == |w.form|
            && forall i :: 0 <= i < |w.form| ==>
                 w'.form[i] == w.form[i].(disabled := false, inputDisabled := false, message := false)
  {
    forall i | 0 <= i < |w.form|
      ensures RecoverBox(w.form[i]) == w.form[i].(disabled := false, inputDisabled := false, message := false)
    {
      assert BoxInv(w.form[i]);
    }
  }

  /** Every response to a newest request covers every action. */
  ghost predicate CoveringRun(trace: seq<World>, events: seq<Event>)
    requires IsRun(trace, events)
  {
    forall k :: 0 <= k < |events| && events[k].Responded? && events[k].response.Some?
                && events[k].id == trace[k].requestId ==>
      forall b :: b in trace[k].form ==> Covers(b, events[k].response.value)
  }

  ghost predicate AtRestReleased(w: World) {
    !Live(w) ==> forall i :: 0 <= i < |w.form| ==> Released(w.form[i])
  }

  lemma OpenChainIsLive(w: World, trigger: Option<nat>)
    requires |w.sent| == w.requestId && forall id :: id in w.answered ==> 0 < id <= w.requestId
    ensures Live(OpenChain(w, trigger))
  {
  }

  lemma LocalStepReleases(w: World, e: Event)
    requires Inv(w) && Enabled(w, e) && !e.Responded? && AtRestReleased(w)
    ensures AtRestReleased(Step(w, e))
  {
    hide OpeningForm, Plan;
    match e
    case Toggled(i) =>
      assert BoxInv(w.form[i]);
      OpenChainIsLive(w.(form := w.form[i := ToggleBox(w.form[i])]), Some(i));
    case Edited(i, _, _) =>
    case TimerFired =>
      OpenChainIsLive(w.(pending := None), w.pending);
    case Blurred =>
      OpenChainIsLive(w.(pending := None), w.pending);
  }

  lemma ResponseStepReleases(w: World, id: nat, response: Option<seq<Report>>)
    requires Inv(w) && Awaiting(w, id) && AtRestReleased(w)
    requires id == w.requestId && response.Some? ==> forall b :: b in w.form ==> Covers(b, response.value)
    ensures AtRestReleased(Respond(w, id, response))
  {
    var w' := Respond(w, id, response);
    if id != w.requestId {
      StaleResponseIsInert(w, id, response);
    } else if response.None? {
      FailureReleasesAll(w);
      assert forall i :: 0 <= i < |w'.form| ==> w'.form[i] in w'.form;
    } else if !Live(w') {
      RespondKeepsInv(w, id, response);
      forall i | 0 <= i < |w'.form| ensures Released(w'.form[i]) {
        assert w.form[i] in w.form;
        SettledResponseReleases(w, response.value, i);
      }
    }
  }

  lemma InitIsReleased(rendered: seq<Box>)
    requires UniqueCodes(rendered) && forall i :: 0 <= i < |rendered| ==> Rendered(rendered[i])
    ensures AtRestReleased(InitPage(rendered))
  {
    hide StartRefresh, BoxInv, Plan, SameAction, UniqueCodes;
    OpenChainIsLive(World(SeedAll(rendered), 0, [], {}, None), None);
    if !Live(InitPage(rendered)) {
      assert InitPage(rendered).form == SeedAll(rendered);
      assert forall i :: 0 <= i < |rendered| ==> Rendered(rendered[i]) && SeedAll(rendered)[i] == Seed(rendered[i]);
    }
  }

  /** In a run whose responses cover every action, whenever no request is outstanding each action is disabled exactly
      when it shows the "not compatible" message. */
  lemma {:induction false} NothingIsLeftStuck(rendered: seq<Box>, trace: seq<World>, events: seq<Event>, k: nat)
    requires PageRun(rendered, trace, events) && CoveringRun(trace, events) && k < |trace|
    ensures AtRestReleased(trace[k])
  {
    hide AtRestReleased, InitPage, PageRun, Respond, Rendered, Inv, SameActions;
    RunBegins(rendered, trace, events);
    if k == 0 {
      InitIsReleased(rendered);
    } else {
      RunStep(rendered, trace, events, k - 1);
      RunKeepsInv(rendered, trace, events, k - 1);
      NothingIsLeftStuck(rendered, trace, events, k - 1);
      if events[k - 1].Responded? {
        ResponseStepReleases(trace[k - 1], events[k - 1].id, events[k - 1].response);
      } else {
        LocalStepReleases(trace[k - 1], events[k - 1]);
      }
    }
  }

  /** In every reachable state the message means: unchecked, disabled, nothing typed, nothing held. */
  lemma MessageMeansReleasedClaim(rendered: seq<Box>, trace: seq<World>, events: seq<Event>, k: nat, i: nat)
    requires PageRun(rendered, trace, events) && k < |trace| && i < |trace[k].form| && trace[k].form[i].message
    ensures var b := trace[k].form[i];
            !b.checked && b.disabled && (b.isQuantity ==> b.inputDisabled) && b.typed == Blank && ChosenArea(b).None?
            && Entry(b).None?
  {
    RunKeepsInv(rendered, trace, events, k);
    assert BoxInv(trace[k].form[i]);
  }

  // ----- valid and protected claims -----

  /** Every quantity recorded as confirmed, and every quantity ever sent, for a quantity action lies in (0, total]. */
  lemma RecordedClaimsAreValid(rendered: seq<Box>, trace: seq<World>, events: seq<Event>, k: nat, i: nat)
    requires PageRun(rendered, trace, events) && k < |trace| && i < |rendered| && rendered[i].isQuantity
    ensures i < |trace[k].form|
    ensures trace[k].form[i].chosen.Some? ==> ValidQuantity(rendered[i].total, trace[k].form[i].chosen.value)
    ensures forall n :: 0 <= n < |trace[k].sent| && SentQuantity(trace[k].sent[n].plan, rendered[i].code).Some? ==>
              ValidQuantity(rendered[i].total, SentQuantity(trace[k].sent[n].plan, rendered[i].code).value)
  {
    RunKeepsInv(rendered, trace, events, k);
    assert BoxInv(trace[k].form[i]) && SameAction(rendered[i], trace[k].form[i]);
    forall n | 0 <= n < |trace[k].sent|
      ensures ValidPlan(trace[k].form, trace[k].sent[n].plan)
    {
      assert RequestInv(trace[k].form, trace[k].sent[n], n + 1);
    }
  }

  /** After confirming, each checked unprotected quantity action holds a valid typed value, and confirming again
      changes nothing. */
  lemma ConfirmingSettles(rendered: seq<Box>, trace: seq<World>, events: seq<Event>, k: nat)
    requires PageRun(rendered, trace, events) && k < |trace|
    ensures var confirmed := ConfirmAll(trace[k].form);
            && (forall i :: 0 <= i < |confirmed| ==> !Unconfirmed(confirmed[i]))
            && ConfirmAll(confirmed) == confirmed
  {
    RunKeepsInv(rendered, trace, events, k);
    var confirmed := ConfirmAll(trace[k].form);
    forall i | 0 <= i < |confirmed| ensures !Unconfirmed(confirmed[i]) {
      assert BoxInv(trace[k].form[i]);
    }
  }

  /** The event is a user operating checkbox `i` or its quantity field. */
  predicate Touches(e: Event, i: nat) {
    (e.Toggled? || e.Edited?) && e.box == i
  }

  predicate KeepsClaim(a: Box, b: Box) {
    && b.checked == a.checked && b.typed == a.typed && b.chosen == a.chosen && b.hidden == a.hidden
    && b.errorOnLoad == a.errorOnLoad
  }

  lemma OpeningKeepsProtected(form: seq<Box>, trigger: Option<nat>, followUpsLeft: nat, i: nat)
    requires i < |form| && Protected(form[i])
    ensures |OpeningForm(form, trigger, followUpsLeft)| == |form|
    ensures OpeningForm(form, trigger, followUpsLeft)[i] == form[i]
  {
  }

  lemma ReportKeepsProtected(b: Box, report: Report, sent: Option<real>, allowGrowth: bool)
    requires Protected(b)
    ensures KeepsClaim(b, ApplyReport(b, report, sent, allowGrowth))
  {
  }

  lemma SettledKeepsProtected(form: seq<Box>, actions: seq<Report>, plan: seq<Planned>, i: nat)
    requires i < |form| && Protected(form[i])
    ensures KeepsClaim(form[i], ApplyResponse(form, actions, plan)[i])
  {
    hide ApplyReport, SentQuantity, OfferedBefore;
    var report := FindReport(actions, form[i].code);
    if report.Some? {
      ReportKeepsProtected(form[i], report.value, SentQuantity(plan, form[i].code), !OfferedBefore(form, actions, i));
    }
  }

  lemma ResponseKeepsProtected(w: World, id: nat, response: Option<seq<Report>>, i: nat)
    requires Inv(w) && Awaiting(w, id) && i < |w.form| && Protected(w.form[i])
    ensures i < |Respond(w, id, response).form| && KeepsClaim(w.form[i], Respond(w, id, response).form[i])
  {
    hide OpeningForm, Plan, OfferedBefore, Grew, Inv, ApplyReport, SentQuantity;
    if id == w.requestId && response.Some? {
      SettledKeepsProtected(w.form, response.value, w.sent[id - 1].plan, i);
    }
    if id == w.requestId && response.Some? && Continues(w, w.sent[id - 1], response.value) {
      var request := w.sent[id - 1];
      OpeningKeepsProtected(FollowUpForm(w, request, response.value), request.trigger, request.followUpsLeft - 1, i);
    }
  }

  lemma StepKeepsProtected(w: World, e: Event, i: nat)
    requires Inv(w) && Enabled(w, e) && i < |w.form| && Protected(w.form[i]) && !Touches(e, i)
    ensures i < |Step(w, e).form| && KeepsClaim(w.form[i], Step(w, e).form[i])
  {
    hide OpeningForm, Plan, Respond, Inv;
    match e
    case Toggled(n) =>
      OpeningKeepsProtected(w.form[n := ToggleBox(w.form[n])], Some(n), MAX_GROWTH_FOLLOW_UPS, i);
    case Edited(_, _, _) =>
    case TimerFired =>
      OpeningKeepsProtected(w.form, w.pending, MAX_GROWTH_FOLLOW_UPS, i);
    case Blurred =>
      OpeningKeepsProtected(w.form, w.pending, MAX_GROWTH_FOLLOW_UPS, i);
    case Responded(id, response) =>
      ResponseKeepsProtected(w, id, response, i);
  }

  /** A checked action redisplayed with an error keeps its checked state, typed value and chosen area through any run
      in which the user does not touch it. */
  lemma {:induction false} ProtectedUntilTouched(
    rendered: seq<Box>, trace: seq<World>, events: seq<Event>, i: nat, j: nat, k: nat)
    requires PageRun(rendered, trace, events) && j <= k < |trace|
    requires i < |trace[j].form| && Protected(trace[j].form[i])
    requires forall n :: j <= n < k ==> !Touches(events[n], i)
    ensures i < |trace[k].form| && KeepsClaim(trace[j].form[i], trace[k].form[i])
    decreases k - j
  {
    if j < k {
      ProtectedUntilTouched(rendered, trace, events, i, j, k - 1);
      RunKeepsInv(rendered, trace, events, k - 1);
      StepKeepsProtected(trace[k - 1], events[k - 1], i);
    }
  }

  // ----- what a trigger does -----

  /** Whenever a request with a triggering action is issued, at the start of a chain or as a follow-up, every other
      action is disabled or protected. */
  lemma IssuedRequestDisablesOthers(w: World, e: Event, i: nat)
    requires Inv(w) && Enabled(w, e) && |Step(w, e).sent| == |w.sent| + 1
    ensures var request := Step(w, e).sent[|w.sent|];
            request.trigger.Some? && i < |Step(w, e).form| && request.trigger.value != i ==>
              Step(w, e).form[i].disabled || Protected(Step(w, e).form[i])
  {
    hide Plan, ApplyResponse, Grew, Recover, ToggleBox, ValidTyped, Inv;
    match e
    case Toggled(_) =>
    case Edited(_, _, _) =>
    case TimerFired =>
    case Blurred =>
    case Responded(id, response) =>
      if id == w.requestId && response.Some? && Continues(w, w.sent[id - 1], response.value)
         && w.sent[id - 1].trigger.Some? && w.sent[id - 1].trigger.value != i {
        ConfirmKeepsDisabled(FollowUpForm(w, w.sent[id - 1], response.value), i);
      }
  }

  lemma ConfirmKeepsDisabled(form: seq<Box>, i: nat)
    requires i < |form| ==> form[i].disabled || Protected(form[i])
    ensures i < |form| ==> ConfirmAll(form)[i].disabled || Protected(ConfirmAll(form)[i])
  {
  }

  lemma QuietStepKeepsBox(w: World, e: Event, i: nat)
    requires Inv(w) && Enabled(w, e) && i < |w.form| && !Touches(e, i)
    requires Step(w, e).requestId == w.requestId && Live(Step(w, e))
    ensures i < |Step(w, e).form| && Step(w, e).form[i] == w.form[i]
  {
    hide OpeningForm, Plan, ApplyResponse, Grew, Recover, DisableOthers, ToggleBox, ValidTyped;
  }

  /** While one request stays the newest and unanswered, an action that waits for it keeps waiting until the user
      touches it or the request is answered. */
  lemma {:induction false} OthersWaitWhileLive(
    rendered: seq<Box>, trace: seq<World>, events: seq<Event>, i: nat, j: nat, k: nat)
    requires PageRun(rendered, trace, events) && j <= k < |trace| && i < |trace[j].form|
    requires forall n :: j <= n <= k ==> trace[n].requestId == trace[j].requestId && Live(trace[n])
    requires forall n :: j <= n < k ==> !Touches(events[n], i)
    ensures i < |trace[k].form| && trace[k].form[i] == trace[j].form[i]
    decreases k - j
  {
    hide Inv, Step, Enabled, Touches, Awaiting;
    if j < k {
      OthersWaitWhileLive(rendered, trace, events, i, j, k - 1);
      RunKeepsInv(rendered, trace, events, k - 1);
      assert trace[k] == Step(trace[k - 1], events[k - 1]);
      assert trace[k - 1].requestId == trace[j].requestId == trace[k].requestId;
      QuietStepKeepsBox(trace[k - 1], events[k - 1], i);
    }
  }

  /** Unticking an action sends a request that claims nothing for it, and leaves it nothing to claim when ticked again:
      a quantity action then waits for a value, a non-quantity action claims its live area afresh. */
  lemma UntickingReleasesClaim(w: World, i: nat)
    requires Inv(w) && i < |w.form| && w.form[i].checked
    ensures var w' := Toggle(w, i);
            && |w'.sent| == |w.sent| + 1 && |w'.form| == |w.form| && w'.sent[|w.sent|].trigger == Some(i)
            && SentQuantity(w'.sent[|w.sent|].plan, w.form[i].code).None?
            && ChosenArea(w'.form[i]).None? && !w'.form[i].checked && w'.form[i].typed == Blank
            && Claim(w'.form[i].(checked := true)) == if w.form[i].isQuantity then None else LiveArea(w.form[i])
  {
    var b := ToggleBox(w.form[i]);
    assert BoxInv(w.form[i]);
    UntickedBox(w.form[i]);
    var form := w.form[i := b];
    UpdateBoxKeepsForm(w.form, i, b);
    OpeningKeepsForm(form, Some(i), MAX_GROWTH_FOLLOW_UPS);
    hide Plan, ToggleBox, FormInv, BoxInv, ChosenArea, ValidTyped, Claim;
    var opening := OpeningForm(form, Some(i), MAX_GROWTH_FOLLOW_UPS);
    assert opening[i] == b;
    FormIsUnique(opening);
    PlanSendsClaims(opening, i);
  }

  lemma FormIsUnique(form: seq<Box>)
    requires FormInv(form)
    ensures UniqueCodes(form)
  {
  }

  lemma UntickedBox(b: Box)
    requires BoxInv(b) && b.checked
    ensures var b' := ToggleBox(b);
            && BoxInv(b') && SameAction(b, b') && !b'.checked && Entry(b').None? && Confirm(b') == b'
            && b'.typed == Blank
            && ChosenArea(b').None? && ValidTyped(b').None?
            && Claim(b'.(checked := true)) == if b.isQuantity then None else LiveArea(b)
  {
  }

  /** An unchecked action that a response reports on ends up enabled exactly when no area is reported for it, or one
      that is not zero and, for a quantity action, covers what is typed for it; otherwise it shows the message.
      Enabled, it keeps its text; a quantity action that is not loses it. */
  lemma EnabledActionFits(b: Box, report: Report, sent: Option<real>, allowGrowth: bool)
    requires BoxInv(b) && !b.checked
    ensures var b' := ApplyReport(b, report, sent, allowGrowth);
            && !b'.checked && b'.message == b'.disabled
            && b'.typed == (if b'.disabled then Blank else b.typed)
            && (!b'.disabled <==> report.area.None? || Fits(b, report.area.value.value))
  {
  }

  predicate Fits(b: Box, area: real) {
    && area != 0.0 && (b.isQuantity ==> area >= 0.0)
    && (ValidTyped(b).Some? ==> ValidTyped(b).value <= area)
  }
}
