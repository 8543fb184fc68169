/** A growth chain never over-claims: each follow-up plan raises one claim by exactly the headroom reported for it. */
module RefreshChain {
  import opened Common
  import opened RefreshModel
  import opened RefreshRuns
  import opened RefreshProtocol

  // ----- a plan as an allocation of land -----

  /** What a plan claims per action code, leaving out zero claims. */
  ghost function Claims(plan: seq<Planned>): map<string, real> {
    if plan == [] then map[]
    else
      var before, last := Claims(plan[..|plan| - 1]), plan[|plan| - 1];
      if last.quantity == 0.0 then before - {last.code} else before[last.code := last.quantity]
  }

  lemma {:induction false} ClaimsAreSent(plan: seq<Planned>, code: string)
    ensures code in Claims(plan) <==> SentQuantity(plan, code).Some? && SentQuantity(plan, code).value != 0.0
    ensures code in Claims(plan) ==> Claims(plan)[code] == SentQuantity(plan, code).value
  {
    if plan != [] {
      ClaimsAreSent(plan[..|plan| - 1], code);
    }
  }

  /** What one checkbox puts into the allocation. */
  function Held(b: Box): real {
    if Entry(b).Some? then Claim(b).value else 0.0
  }

  /** A plan allocates to each action what its checkbox holds. */
  lemma ClaimsAreHeld(form: seq<Box>, i: nat)
    requires UniqueCodes(form) && i < |form|
    ensures form[i].code in Claims(Plan(form)) <==> Held(form[i]) != 0.0
    ensures form[i].code in Claims(Plan(form)) ==> Claims(Plan(form))[form[i].code] == Held(form[i])
  {
    hide Claims, Plan, SentQuantity, UniqueCodes;
    ClaimsAreSent(Plan(form), form[i].code);
    PlanSendsClaims(form, i);
  }

  lemma ClaimsAreOfForm(form: seq<Box>, code: string)
    requires code in Claims(Plan(form))
    ensures exists i :: 0 <= i < |form| && form[i].code == code
  {
    hide Claims, Plan, SentQuantity;
    ClaimsAreSent(Plan(form), code);
    if forall i :: 0 <= i < |form| ==> form[i].code != code {
      UnplannedCode(form, code);
    }
  }

  // ----- the assumptions of a chain -----

  predicate SoundBox(b: Box) {
    && b.unit != "" && b.total.Some? && b.total.value >= 0.0 && (b.live.Some? ==> b.live.value >= 0.0)
    && !b.errorOnLoad
  }

  /** Every action has a unit and a readable area, and none is redisplayed with an error. */
  ghost predicate SoundForm(form: seq<Box>) {
    forall i :: 0 <= i < |form| ==> SoundBox(form[i])
  }

  /** Reported areas have a unit and are not negative. */
  ghost predicate SoundResponse(actions: seq<Report>) {
    forall r :: r in actions && r.area.Some? ==> r.area.value.value >= 0.0 && r.area.value.unit != ""
  }

  lemma {:induction false} FoundReportIsListed(actions: seq<Report>, code: string)
    ensures FindReport(actions, code).Some? ==>
              FindReport(actions, code).value in actions && FindReport(actions, code).value.code == code
  {
    if actions != [] && actions[0].code != code {
      FoundReportIsListed(actions[1..], code);
    }
  }

  /** The plan of the newest request is what the form claims now, and no quantity is waiting to be confirmed. */
  ghost predicate Synced(w: World) {
    && |w.sent| == w.requestId > 0
    && w.sent[w.requestId - 1].plan == Plan(w.form)
    && forall i :: 0 <= i < |w.form| ==> !Unconfirmed(w.form[i])
  }

  lemma {:induction false} DisablingKeepsPlan(form: seq<Box>, trigger: nat)
    ensures Plan(DisableOthers(form, trigger)) == Plan(form)
  {
    if form != [] {
      var init, last := form[..|form| - 1], form[|form| - 1];
      DisablingKeepsPlan(init, trigger);
      DisablingKeepsEntry(last, |form| - 1 == trigger);
      assert DisableOthers(form, trigger)[..|form| - 1] == DisableOthers(init, trigger);
      hide Entry, DisableIfOther;
    }
  }

  lemma DisablingKeepsEntry(b: Box, isTrigger: bool)
    ensures Entry(DisableIfOther(b, isTrigger)) == Entry(b)
  {
  }

  lemma ConfirmedIsSettled(b: Box, isTrigger: bool)
    requires BoxInv(b)
    ensures !Unconfirmed(Confirm(b)) && !Unconfirmed(DisableIfOther(Confirm(b), isTrigger))
  {
  }

  /** Every request is synced at the moment it is issued. */
  lemma RefreshIsSynced(w: World, trigger: Option<nat>, followUpsLeft: nat, root: nat)
    requires FormInv(w.form) && |w.sent| == w.requestId
    ensures Synced(StartRefresh(w, trigger, followUpsLeft, root))
  {
    var form := OpeningForm(w.form, trigger, followUpsLeft);
    forall i | 0 <= i < |form| ensures !Unconfirmed(form[i]) {
      assert BoxInv(w.form[i]);
      ConfirmedIsSettled(w.form[i], trigger.Some? && i == trigger.value);
    }
  }

  // ----- one response -----

  function Headroom(b: Box, actions: seq<Report>): real
    requires Offered(b, actions)
  {
    ReportedArea(actions, b.code).value.value
  }

  function ApplyTo(b: Box, actions: seq<Report>, allowGrowth: bool): Box {
    var report := FindReport(actions, b.code);
    if report.None? then b
    else ApplyReport(b, report.value, if Entry(b).Some? then Claim(b) else None, allowGrowth)
  }

  predicate Moves(b: Box, actions: seq<Report>, allowGrowth: bool, b': Box) {
    && SoundBox(b') && !Unconfirmed(b')
    && Held(b') == Held(b) + (if allowGrowth && Offered(b, actions) then Headroom(b, actions) else 0.0)
  }

  predicate SoundReport(report: Report) {
    report.area.Some? ==> report.area.value.value >= 0.0 && report.area.value.unit != ""
  }

  lemma UncheckedStaysUnclaimed(b: Box, report: Report, sent: Option<real>, allowGrowth: bool)
    requires SoundBox(b) && SoundReport(report) && !b.checked
    ensures var b' := ApplyReport(b, report, sent, allowGrowth);
            SoundBox(b') && !b'.checked
  {
    hide ValidTyped;
  }

  lemma QuantityStaysTyped(b: Box, report: Report, sent: Option<real>, allowGrowth: bool)
    requires SoundBox(b) && !Unconfirmed(b) && SoundReport(report) && b.checked && b.isQuantity
    ensures var b' := ApplyReport(b, report, sent, allowGrowth);
            SoundBox(b') && !Unconfirmed(b') && Held(b') == Held(b)
  {
  }

  lemma NonQuantityGrows(b: Box, report: Report, allowGrowth: bool)
    requires SoundBox(b) && SoundReport(report) && b.checked && !b.isQuantity
    ensures var b' := ApplyReport(b, report, Claim(b), allowGrowth);
            && SoundBox(b') && !Unconfirmed(b') && Entry(b).Some?
            && Held(b') == Held(b) + (if allowGrowth && report.area.Some? then report.area.value.value else 0.0)
  {
    if report.area.Some? {
      var b1 := RecordArea(b, report.area);
      GrownAreaIsHeld(b1, report.area.value.value, Claim(b).value, allowGrowth);
      assert ApplyReport(b, report, Claim(b), allowGrowth)
          == ApplyCheckedNonQuantity(b1, report.area.value.value, Claim(b), allowGrowth);
    }
  }

  lemma GrownAreaIsHeld(b: Box, headroom: real, sent: real, allowGrowth: bool)
    requires SoundBox(b) && b.checked && !b.isQuantity && headroom >= 0.0 && sent >= 0.0
    ensures var b' := ApplyCheckedNonQuantity(b, headroom, Some(sent), allowGrowth);
            SoundBox(b') && !Unconfirmed(b') && Held(b') == sent + (if allowGrowth then headroom else 0.0)
  {
  }

  /** A response moves an action's claim by its headroom if it may grow, and otherwise leaves it. */
  lemma ResponseMovesClaim(b: Box, actions: seq<Report>, allowGrowth: bool)
    requires BoxInv(b) && SoundBox(b) && !Unconfirmed(b) && SoundResponse(actions)
    ensures Moves(b, actions, allowGrowth, ApplyTo(b, actions, allowGrowth))
  {
    hide ApplyReport, Claim, ValidTyped;
    FoundReportIsListed(actions, b.code);
    var report := FindReport(actions, b.code);
    if report.Some? {
      var sent := if Entry(b).Some? then Claim(b) else None;
      if !b.checked {
        UncheckedStaysUnclaimed(b, report.value, sent, allowGrowth);
      } else if b.isQuantity {
        QuantityStaysTyped(b, report.value, sent, allowGrowth);
      } else {
        NonQuantityGrows(b, report.value, allowGrowth);
      }
    }
  }

  lemma SoundClaimIsHeld(b: Box)
    requires SoundBox(b) && BoxInv(b) && !Unconfirmed(b)
    ensures Entry(b).Some? == b.checked && Held(b) >= 0.0
    ensures Claim(b).Some? || !b.checked
  {
  }

  ghost predicate IsGrower(form: seq<Box>, actions: seq<Report>, i: nat) {
    i < |form| && Offered(form[i], actions) && !OfferedBefore(form, actions, i)
  }

  lemma {:induction false} SomeoneGrows(form: seq<Box>, actions: seq<Report>, n: nat)
    requires n <= |form| && OfferedBefore(form, actions, n)
    ensures exists i: nat :: IsGrower(form, actions, i)
  {
    if n > 0 && OfferedBefore(form, actions, n - 1) {
      SomeoneGrows(form, actions, n - 1);
    } else {
      assert IsGrower(form, actions, n - 1);
    }
  }

  /** The allocation after action `i` alone takes the headroom reported for it. */
  ghost function Raised(form: seq<Box>, actions: seq<Report>, i: nat): map<string, real>
    requires i < |form| && Offered(form[i], actions)
  {
    Claims(Plan(form))[form[i].code := Held(form[i]) + Headroom(form[i], actions)]
  }

  ghost predicate ChainReady(w: World) {
    Inv(w) && Live(w) && Synced(w) && SoundForm(w.form)
  }

  lemma SettledBox(w: World, actions: seq<Report>, i: nat)
    requires ChainReady(w) && i < |w.form|
    ensures SettledForm(w, w.sent[w.requestId - 1], actions)[i]
            == ApplyTo(w.form[i], actions, !OfferedBefore(w.form, actions, i))
  {
    PlanSendsClaims(w.form, i);
  }

  lemma SettledFormIsSound(w: World, actions: seq<Report>)
    requires ChainReady(w) && SoundResponse(actions)
    ensures var settled := SettledForm(w, w.sent[w.requestId - 1], actions);
            && |settled| == |w.form| && SoundForm(settled) && FormInv(settled) && SameActions(w.form, settled)
            && forall i :: 0 <= i < |settled| ==> !Unconfirmed(settled[i])
  {
    var settled := SettledForm(w, w.sent[w.requestId - 1], actions);
    ResponseFormsKeepInv(w, w.requestId, actions);
    forall i | 0 <= i < |settled|
      ensures SoundBox(settled[i]) && !Unconfirmed(settled[i])
    {
      SettledBox(w, actions, i);
      ResponseMovesClaim(w.form[i], actions, !OfferedBefore(w.form, actions, i));
    }
  }

  lemma SettledHeld(w: World, actions: seq<Report>, i: nat)
    requires ChainReady(w) && SoundResponse(actions) && i < |w.form|
    ensures Held(SettledForm(w, w.sent[w.requestId - 1], actions)[i])
            == Held(w.form[i]) + (if IsGrower(w.form, actions, i) then Headroom(w.form[i], actions) else 0.0)
  {
    SettledBox(w, actions, i);
    ResponseMovesClaim(w.form[i], actions, !OfferedBefore(w.form, actions, i));
  }

  /** The allocation of `form` after action `raised`, if any, takes `h` more. */
  ghost function RaisedBy(form: seq<Box>, raised: Option<nat>, h: real): map<string, real>
    requires raised.Some? ==> raised.value < |form|
  {
    if raised.None? then Claims(Plan(form))
    else Claims(Plan(form))[form[raised.value].code := Held(form[raised.value]) + h]
  }

  /** `g` is the same actions as `f`, and holds `h` more for the action at `raised`. */
  ghost predicate HoldsMore(f: seq<Box>, g: seq<Box>, raised: Option<nat>, h: real) {
    && UniqueCodes(f) && SameActions(f, g)
    && (forall i :: 0 <= i < |f| && raised != Some(i) ==> Held(g[i]) == Held(f[i]))
    && (raised.Some? ==>
          raised.value < |f| && Held(g[raised.value]) == Held(f[raised.value]) + h && Held(g[raised.value]) != 0.0)
  }

  lemma RaiseOneAt(f: seq<Box>, g: seq<Box>, raised: Option<nat>, h: real, i: nat)
    requires HoldsMore(f, g, raised, h) && i < |f|
    ensures var code, before, after := f[i].code, RaisedBy(f, raised, h), Claims(Plan(g));
            (code in after <==> code in before) && (code in after ==> after[code] == before[code])
  {
    hide Held, Plan, Claims;
    assert SameAction(f[i], g[i]);
    SameCodesAreUnique(f, g);
    ClaimsAreHeld(f, i);
    ClaimsAreHeld(g, i);
    if raised.Some? && raised != Some(i) {
      assert f[raised.value].code != f[i].code;
    }
  }

  lemma SameCodesAreUnique(f: seq<Box>, g: seq<Box>)
    requires UniqueCodes(f) && SameActions(f, g)
    ensures UniqueCodes(g)
  {
    assert forall i :: 0 <= i < |f| ==> SameAction(f[i], g[i]);
  }

  lemma RaiseOne(f: seq<Box>, g: seq<Box>, raised: Option<nat>, h: real)
    requires HoldsMore(f, g, raised, h)
    ensures Claims(Plan(g)) == RaisedBy(f, raised, h)
  {
    var before, after := RaisedBy(f, raised, h), Claims(Plan(g));
    forall code | code in before || code in after
      ensures code in before && code in after && after[code] == before[code]
    {
      hide Held, Plan, Claims, UniqueCodes;
      if code in after {
        ClaimsAreOfForm(g, code);
        var i :| 0 <= i < |g| && g[i].code == code;
        assert SameAction(f[i], g[i]);
        RaiseOneAt(f, g, raised, h, i);
      } else if raised.Some? && code == f[raised.value].code {
        RaiseOneAt(f, g, raised, h, raised.value);
      } else {
        ClaimsAreOfForm(f, code);
        var i :| 0 <= i < |f| && f[i].code == code;
        RaiseOneAt(f, g, raised, h, i);
      }
    }
  }

  /** A response raises the claim of the first action offered land, by exactly its headroom, and no other claim. */
  lemma ResponseRaisesOneClaim(w: World, actions: seq<Report>)
    requires ChainReady(w) && SoundResponse(actions)
    ensures var next := Claims(Plan(SettledForm(w, w.sent[w.requestId - 1], actions)));
            && (forall i: nat :: IsGrower(w.form, actions, i) ==> next == Raised(w.form, actions, i))
            && (!Grew(w.form, actions) ==> next == Claims(Plan(w.form)))
  {
    hide ApplyResponse, Held, Plan, Claims;
    var settled := SettledForm(w, w.sent[w.requestId - 1], actions);
    SettledFormIsSound(w, actions);
    forall i: nat | IsGrower(w.form, actions, i)
      ensures Claims(Plan(settled)) == Raised(w.form, actions, i)
    {
      forall j | 0 <= j < |w.form| && j != i ensures Held(settled[j]) == Held(w.form[j]) {
        SettledHeld(w, actions, j);
      }
      SettledHeld(w, actions, i);
      SoundClaimIsHeld(w.form[i]);
      RaiseOne(w.form, settled, Some(i), Headroom(w.form[i], actions));
    }
    if !Grew(w.form, actions) {
      forall j | 0 <= j < |w.form| ensures Held(settled[j]) == Held(w.form[j]) {
        SettledHeld(w, actions, j);
      }
      RaiseOne(w.form, settled, None, 0.0);
    }
  }

  // ----- the chain -----

  /** Each offer in the response is feasible when that action alone takes it. */
  ghost predicate Honest(feasible: map<string, real> -> bool, form: seq<Box>, actions: seq<Report>) {
    forall i :: 0 <= i < |form| && Offered(form[i], actions) ==> feasible(Raised(form, actions, i))
  }

  lemma FollowUpIsReady(w: World, actions: seq<Report>)
    requires ChainReady(w) && SoundResponse(actions)
    requires Continues(w, w.sent[w.requestId - 1], actions)
    ensures var w' := Respond(w, w.requestId, Some(actions));
            && ChainReady(w')
            && w'.sent == w.sent + [w'.sent[w.requestId]]
            && Plan(w'.form) == Plan(SettledForm(w, w.sent[w.requestId - 1], actions))
  {
    hide ApplyResponse, Grew, FormInv, BoxInv, SoundBox, DisableOthers, ConfirmAll, SameActions, Plan;
    var request := w.sent[w.requestId - 1];
    var settled := SettledForm(w, request, actions);
    var form := FollowUpForm(w, request, actions);
    var w' := Respond(w, w.requestId, Some(actions));
    SettledFormIsSound(w, actions);
    ResponseFormsKeepInv(w, w.requestId, actions);
    RespondKeepsInv(w, w.requestId, Some(actions));
    RefreshIsSynced(w.(answered := w.answered + {w.requestId}, form := form),
                    request.trigger, request.followUpsLeft - 1, request.root);
    FollowUpFormIsStable(settled, request.trigger);
    if request.trigger.Some? {
      DisablingKeepsPlan(settled, request.trigger.value);
    }
    assert w'.form == form;
  }

  lemma FollowUpFormIsStable(settled: seq<Box>, trigger: Option<nat>)
    requires SoundForm(settled) && forall i :: 0 <= i < |settled| ==> !Unconfirmed(settled[i])
    ensures var form := if trigger.Some? then DisableOthers(settled, trigger.value) else settled;
            SoundForm(form) && ConfirmAll(form) == form
  {
    var form := if trigger.Some? then DisableOthers(settled, trigger.value) else settled;
    forall i | 0 <= i < |form| ensures SoundBox(form[i]) && Confirm(form[i]) == form[i] {
      assert SoundBox(settled[i]) && !Unconfirmed(settled[i]);
    }
  }

  /** A follow-up plan equals the previous one with exactly one claim raised by its headroom. */
  lemma FollowUpRaisesOneClaim(w: World, actions: seq<Report>)
    requires ChainReady(w) && SoundResponse(actions)
    requires Continues(w, w.sent[w.requestId - 1], actions)
    ensures |Respond(w, w.requestId, Some(actions)).sent| == w.requestId + 1
    ensures exists i: nat :: IsGrower(w.form, actions, i)
              && Claims(Respond(w, w.requestId, Some(actions)).sent[w.requestId].plan) == Raised(w.form, actions, i)
  {
    hide ApplyResponse, Held, Plan, Claims, Respond;
    FollowUpIsReady(w, actions);
    ResponseRaisesOneClaim(w, actions);
    SomeoneGrows(w.form, actions, |w.form|);
  }

  lemma OpeningKeepsSound(b: Box, isTrigger: bool)
    requires SoundBox(b)
    ensures SoundBox(Confirm(b)) && SoundBox(DisableIfOther(Confirm(b), isTrigger))
  {
  }

  /** Any trigger on a sound form opens such a chain. */
  lemma TriggerOpensReadyChain(w: World, trigger: Option<nat>)
    requires Inv(w) && SoundForm(w.form) && (trigger.Some? ==> trigger.value < |w.form|)
    ensures ChainReady(OpenChain(w, trigger))
  {
    hide RequestInv, UniqueCodes, Plan, SoundBox, Confirm, DisableIfOther, SameAction;
    OpenChainKeepsInv(w, trigger);
    RefreshIsSynced(w, trigger, MAX_GROWTH_FOLLOW_UPS, w.requestId + 1);
    var form := OpeningForm(w.form, trigger, MAX_GROWTH_FOLLOW_UPS);
    forall i | 0 <= i < |form| ensures SoundBox(form[i]) {
      OpeningKeepsSound(w.form[i], trigger == Some(i));
    }
  }

  /** No user event, only responses; each answer to a newest request is sound and honest about its offers. */
  ghost predicate ChainRun(feasible: map<string, real> -> bool, trace: seq<World>, events: seq<Event>) {
    && IsRun(trace, events) && ChainReady(trace[0])
    && forall k :: 0 <= k < |events| ==>
         events[k].Responded?
         && (events[k].id == trace[k].requestId && events[k].response.Some? ==>
               SoundResponse(events[k].response.value)
               && Honest(feasible, trace[k].form, events[k].response.value))
  }

  /** From the first plan on, every plan the chain sends is feasible. */
  ghost predicate SentFeasible(feasible: map<string, real> -> bool, w: World, from: nat) {
    forall n :: from <= n < |w.sent| ==> feasible(Claims(w.sent[n].plan))
  }

  lemma ChainStep(feasible: map<string, real> -> bool, w: World, e: Event, from: nat)
    requires Inv(w) && Enabled(w, e) && e.Responded? && SentFeasible(feasible, w, from)
    requires (Live(w) ==> ChainReady(w)) && feasible(Claims(Plan(w.form)))
    requires e.id == w.requestId && e.response.Some? ==>
               SoundResponse(e.response.value) && Honest(feasible, w.form, e.response.value)
    ensures var w' := Step(w, e);
            SentFeasible(feasible, w', from) && (Live(w') ==> ChainReady(w')) && feasible(Claims(Plan(w'.form)))
  {
    hide ApplyResponse, FormInv, SoundForm, Honest, OpeningForm, Recover, Plan, Claims;
    var w' := Step(w, e);
    StepKeepsInv(w, e);
    if e.id != w.requestId {
      StaleResponseIsInert(w, e.id, e.response);
    } else if e.response.None? {
      RecoveryKeepsPlan(w.form);
    } else {
      SettledFormIsFeasible(feasible, w, e.response.value);
      if Continues(w, w.sent[w.requestId - 1], e.response.value) {
        FollowUpIsFeasible(feasible, w, e.response.value);
      }
    }
  }

  lemma RecoveryKeepsEntry(b: Box)
    ensures Entry(RecoverBox(b)) == Entry(b)
  {
  }

  lemma {:induction false} RecoveryKeepsPlan(form: seq<Box>)
    ensures Plan(Recover(form)) == Plan(form)
  {
    if form != [] {
      var init, last := form[..|form| - 1], form[|form| - 1];
      RecoveryKeepsPlan(init);
      RecoveryKeepsEntry(last);
      assert Recover(form)[..|form| - 1] == Recover(init);
    }
  }

  /** An honest response leaves the form itself, and so what can be posted, feasible. */
  lemma SettledFormIsFeasible(feasible: map<string, real> -> bool, w: World, actions: seq<Report>)
    requires ChainReady(w) && SoundResponse(actions) && Honest(feasible, w.form, actions)
    requires feasible(Claims(Plan(w.form)))
    ensures feasible(Claims(Plan(SettledForm(w, w.sent[w.requestId - 1], actions))))
  {
    hide Claims, Plan, SettledForm, Raised, ChainReady, SoundResponse;
    ResponseRaisesOneClaim(w, actions);
    if Grew(w.form, actions) {
      SomeoneGrows(w.form, actions, |w.form|);
    }
  }

  lemma FollowUpIsFeasible(feasible: map<string, real> -> bool, w: World, actions: seq<Report>)
    requires ChainReady(w) && SoundResponse(actions) && Honest(feasible, w.form, actions)
    requires Continues(w, w.sent[w.requestId - 1], actions)
    ensures var w' := Respond(w, w.requestId, Some(actions));
            && ChainReady(w') && w'.sent == w.sent + [w'.sent[w.requestId]]
            && feasible(Claims(w'.sent[w.requestId].plan)) && feasible(Claims(Plan(w'.form)))
  {
    FollowUpIsReady(w, actions);
    ResponseRaisesOneClaim(w, actions);
    SomeoneGrows(w.form, actions, |w.form|);
  }

  lemma OnlyFirstIsSent(feasible: map<string, real> -> bool, w: World)
    requires ChainReady(w) && feasible(Claims(w.sent[w.requestId - 1].plan))
    ensures SentFeasible(feasible, w, w.requestId - 1) && feasible(Claims(Plan(w.form)))
  {
    hide FormInv, RequestInv, SoundForm, Claims, Plan;
  }

  /** No over-claim: if the first plan of a chain is feasible, so is every plan it sends and so is, at every moment,
      what the form itself claims and would post, whatever feasibility means, in whatever order responses arrive. */
  lemma {:induction false} ChainNeverOverClaims(
    feasible: map<string, real> -> bool, trace: seq<World>, events: seq<Event>, k: nat)
    requires ChainRun(feasible, trace, events) && k < |trace|
    requires feasible(Claims(trace[0].sent[trace[0].requestId - 1].plan))
    ensures SentFeasible(feasible, trace[k], trace[0].requestId - 1)
    ensures feasible(Claims(Plan(trace[k].form)))
    ensures Inv(trace[k]) && (Live(trace[k]) ==> ChainReady(trace[k]))
  {
    hide SentFeasible, Inv, Step, Enabled, SoundForm, Synced, Honest, SoundResponse, Claims, Plan;
    if k == 0 {
      OnlyFirstIsSent(feasible, trace[0]);
    } else {
      ChainNeverOverClaims(feasible, trace, events, k - 1);
      ChainStep(feasible, trace[k - 1], events[k - 1], trace[0].requestId - 1);
      StepKeepsInv(trace[k - 1], events[k - 1]);
    }
  }

  // ----- why only one action may grow -----

  /** The response applied without the flag that stops after the first growth. */
  function GrowAll(form: seq<Box>, actions: seq<Report>): seq<Box> {
    seq(|form|, i requires 0 <= i < |form| => ApplyTo(form[i], actions, true))
  }

  function Ticked(code: string, area: real): Box {
    Box(code, false, Some(2.0), "ha", true, false, false, false, Blank, None, Amount(area), None, false)
  }

  function AreaOf(claims: map<string, real>, code: string): real {
    if code in claims then claims[code] else 0.0
  }

  /** The two actions compete for three hectares. */
  predicate FitsThree(claims: map<string, real>) {
    AreaOf(claims, "A") + AreaOf(claims, "B") <= 3.0
  }

  lemma AreaIsHeld(form: seq<Box>, i: nat)
    requires UniqueCodes(form) && i < |form|
    ensures AreaOf(Claims(Plan(form)), form[i].code) == Held(form[i])
  {
    hide Claims, Plan, Held;
    ClaimsAreHeld(form, i);
  }

  ghost const PAIR: seq<Box> := [Ticked("A", 1.0), Ticked("B", 1.0)]

  ghost const BOTH_OFFERED: seq<Report> :=
    [Report("A", Some(Area(1.0, "ha"))), Report("B", Some(Area(1.0, "ha")))]

  lemma PairIsReady(w: World)
    requires w == OpenChain(World(PAIR, 0, [], {}, None), None)
    ensures w.form == PAIR && ChainReady(w) && SoundResponse(BOTH_OFFERED)
  {
    TriggerOpensReadyChain(World(PAIR, 0, [], {}, None), None);
    assert ConfirmAll(PAIR) == PAIR;
  }

  lemma OfferIsFeasible(i: nat)
    requires i < 2
    ensures Offered(PAIR[i], BOTH_OFFERED) && FitsThree(Raised(PAIR, BOTH_OFFERED, i))
  {
    hide Claims, Plan;
    assert FindReport(BOTH_OFFERED, "A") == Some(BOTH_OFFERED[0]);
    assert FindReport(BOTH_OFFERED, "B") == FindReport(BOTH_OFFERED[1..], "B") == Some(BOTH_OFFERED[1]);
    AreaIsHeld(PAIR, 0);
    AreaIsHeld(PAIR, 1);
  }

  lemma GrownPair()
    ensures GrowAll(PAIR, BOTH_OFFERED) == [Grown("A"), Grown("B")]
  {
    assert FindReport(BOTH_OFFERED, "A") == Some(BOTH_OFFERED[0]);
    assert FindReport(BOTH_OFFERED, "B") == FindReport(BOTH_OFFERED[1..], "B") == Some(BOTH_OFFERED[1]);
  }

  function Grown(code: string): Box {
    Ticked(code, 2.0).(live := Some(1.0))
  }

  /** Two ticked actions of one hectare each and an honest offer of the last free hectare to both: the response as the
      page applies it leaves a feasible form, the response without the flag would over-claim. */
  lemma TwoGrowthsCanOverClaim(w: World)
    requires w == OpenChain(World(PAIR, 0, [], {}, None), None)
    ensures ChainReady(w) && SoundResponse(BOTH_OFFERED) && Honest(FitsThree, w.form, BOTH_OFFERED)
    ensures FitsThree(Claims(Plan(w.form)))
    ensures FitsThree(Claims(Plan(SettledForm(w, w.sent[w.requestId - 1], BOTH_OFFERED))))
    ensures !FitsThree(Claims(Plan(GrowAll(w.form, BOTH_OFFERED))))
  {
    hide Claims, Plan, Raised, OpenChain, SettledForm, ChainReady, SoundResponse;
    PairIsReady(w);
    OfferIsFeasible(0);
    OfferIsFeasible(1);
    AreaIsHeld(PAIR, 0);
    AreaIsHeld(PAIR, 1);
    SettledFormIsFeasible(FitsThree, w, BOTH_OFFERED);
    GrownPair();
    AreaIsHeld([Grown("A"), Grown("B")], 0);
    AreaIsHeld([Grown("A"), Grown("B")], 1);
  }
}
